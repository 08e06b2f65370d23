/** The roster of a new match: how the matchmaking worker builds and prints it, and how the game
server reads it back. */
module Roster {
  import opened Ordering
  import opened Matcher
  import Int64

  datatype Member = Member(playerId: string, slot: int, team: string)

  // ---------------------------------------------------------------- building

  /** Decimal digits of a natural number. */
  function Itoa(n: nat): (s: string)
    ensures s != ""
  {
    if n < 10 then [Digit(n)] else Itoa(n / 10) + [Digit(n % 10)]
  }

  function Digit(d: nat): (c: char)
    requires d < 10
    ensures '0' <= c <= '9' && DigitValue(c) == d
  {
    ('0' as int + d) as char
  }

  function DigitValue(c: char): nat
    requires '0' <= c <= '9'
  {
    c as int - '0' as int
  }

  function TeamName(team: nat): string { "team-" + Itoa(team) }

  /** The first `n` members of one team, in sorted player order. */
  function TeamMembers(players: seq<string>, team: nat, teamSize: int, n: nat): (r: seq<Member>)
    requires n <= |players|
    ensures |r| == n
  {
    seq(n, i requires 0 <= i < n => Member(players[i], team * teamSize + i, TeamName(team)))
  }

  function RosterOf(batch: seq<Ticket>, teamSize: int): seq<Member> {
    if batch == [] then []
    else
      var team := |batch| - 1;
      var players := Sorted(StringLess, batch[team].playerIds);
      RosterOf(batch[..team], teamSize) + TeamMembers(players, team, teamSize, |players|)
  }

  method BuildRoster(batch: seq<Ticket>, teamSize: int) returns (roster: seq<Member>)
    ensures roster == RosterOf(batch, teamSize)
  {
    roster := [];
    var team := 0;
    while team < |batch|
      invariant 0 <= team <= |batch|
      invariant roster == RosterOf(batch[..team], teamSize)
    {
      var players := SortedCopy(batch[team].playerIds);
      roster := AppendTeam(roster, players, team, teamSize);
      assert batch[..team + 1][..team] == batch[..team];
      team := team + 1;
    }
    assert batch[..team] == batch;
  }

  method SortedCopy(ids: seq<string>) returns (players: seq<string>)
    ensures players == Sorted(StringLess, ids)
  {
    var copy := new string[|ids|](i requires 0 <= i < |ids| => ids[i]);
    assert copy[..] == ids;
    SortInPlace(StringLess, copy);
    players := copy[..];
  }

  /** The inner loop: one team's slots. */
  method AppendTeam(before: seq<Member>, players: seq<string>, team: nat, teamSize: int) returns (roster: seq<Member>)
    ensures roster == before + TeamMembers(players, team, teamSize, |players|)
  {
    roster := before;
    var slot := 0;
    while slot < |players|
      invariant 0 <= slot <= |players|
      invariant roster == before + TeamMembers(players, team, teamSize, slot)
    {
      roster := roster + [Member(players[slot], team * teamSize + slot, TeamName(team))];
      slot := slot + 1;
    }
  }

  predicate FullTeams(batch: seq<Ticket>, teamSize: int) {
    teamSize > 0 && forall k :: 0 <= k < |batch| ==> |batch[k].playerIds| == teamSize
  }

  lemma SlotDecomposes(i: nat, teams: nat, teamSize: nat)
    requires teams > 0 && (teams - 1) * teamSize <= i < teams * teamSize
    ensures i / teamSize == teams - 1 && i % teamSize == i - (teams - 1) * teamSize
  {
    var r := i - (teams - 1) * teamSize;
    assert i == (teams - 1) * teamSize + r && 0 <= r < teamSize;
    DivModUnique(i, teamSize, teams - 1, r);
  }

  lemma DivModUnique(i: nat, d: nat, q: nat, r: nat)
    requires r < d && i == q * d + r
    ensures i / d == q && i % d == r
  {
    var k := i / d - q;
    assert k * d == r - i % d by {
      assert i == (i / d) * d + i % d;
      assert (i / d - q) * d == (i / d) * d - q * d;
    }
    MultipleAtLeast(k, d);
  }

  lemma MultipleAtLeast(k: int, d: nat)
    ensures k >= 1 ==> k * d >= d
    ensures k <= -1 ==> k * d + d <= 0
  {
    if k >= 1 {
      assert (k - 1) * d >= 0;
    } else if k <= -1 {
      assert (-k - 1) * d >= 0;
    }
  }

  lemma {:induction false} RosterLength(batch: seq<Ticket>, teamSize: int)
    requires FullTeams(batch, teamSize)
    ensures |RosterOf(batch, teamSize)| == |batch| * teamSize
  {
    if batch != [] {
      RosterLength(batch[..|batch| - 1], teamSize);
      assert |batch| * teamSize == (|batch| - 1) * teamSize + teamSize;
    }
  }

  lemma {:induction false} RosterSlotAt(batch: seq<Ticket>, teamSize: int, i: nat)
    requires FullTeams(batch, teamSize) && i < |RosterOf(batch, teamSize)|
    ensures 0 <= i / teamSize < |batch|
    ensures RosterOf(batch, teamSize)[i]
         == Member(Sorted(StringLess, batch[i / teamSize].playerIds)[i % teamSize], i, TeamName(i / teamSize))
  {
    var team := |batch| - 1;
    var rest := RosterOf(batch[..team], teamSize);
    RosterLength(batch, teamSize);
    RosterLength(batch[..team], teamSize);
    if i < |rest| {
      RosterSlotAt(batch[..team], teamSize, i);
      assert batch[..team][i / teamSize] == batch[i / teamSize];
    } else {
      SlotDecomposes(i, |batch|, teamSize);
    }
  }

  /** MAIN RESULT. For full teams the slots are 0, 1, 2, ... without gap or repetition; slot `i` belongs
      to team `i / teamSize`, and the players of a team take its slots in sorted order. */
  lemma RosterSlots(batch: seq<Ticket>, teamSize: int)
    requires FullTeams(batch, teamSize)
    ensures |RosterOf(batch, teamSize)| == |batch| * teamSize
    ensures forall i :: 0 <= i < |batch| * teamSize ==>
              && 0 <= i / teamSize < |batch|
              && RosterOf(batch, teamSize)[i]
                 == Member(Sorted(StringLess, batch[i / teamSize].playerIds)[i % teamSize], i, TeamName(i / teamSize))
  {
    RosterLength(batch, teamSize);
    forall i | 0 <= i < |batch| * teamSize
      ensures 0 <= i / teamSize < |batch|
      ensures RosterOf(batch, teamSize)[i]
           == Member(Sorted(StringLess, batch[i / teamSize].playerIds)[i % teamSize], i, TeamName(i / teamSize))
    {
      RosterSlotAt(batch, teamSize, i);
    }
  }

  predicate Holds(roster: seq<Member>, player: string) {
    exists i :: 0 <= i < |roster| && roster[i].playerId == player
  }

  predicate Plays(batch: seq<Ticket>, player: string) {
    exists k :: 0 <= k < |batch| && player in batch[k].playerIds
  }

  lemma HoldsConcat(a: seq<Member>, b: seq<Member>, player: string)
    ensures Holds(a + b, player) <==> Holds(a, player) || Holds(b, player)
  {
    if Holds(a, player) {
      var i :| 0 <= i < |a| && a[i].playerId == player;
      assert (a + b)[i] == a[i];
    }
    if Holds(b, player) {
      var i :| 0 <= i < |b| && b[i].playerId == player;
      assert (a + b)[|a| + i] == b[i];
    }
  }

  lemma TeamHolds(ids: seq<string>, team: nat, teamSize: int, player: string)
    ensures Holds(TeamMembers(Sorted(StringLess, ids), team, teamSize, |ids|), player) <==> player in ids
  {
    var players := Sorted(StringLess, ids);
    SortedMembers(StringLess, ids);
    var r := TeamMembers(players, team, teamSize, |ids|);
    if player in players {
      var i :| 0 <= i < |players| && players[i] == player;
      assert r[i].playerId == player;
    }
  }

  /** The roster holds exactly the players of the batch. */
  lemma {:induction false} RosterHoldsBatch(batch: seq<Ticket>, teamSize: int, player: string)
    ensures Holds(RosterOf(batch, teamSize), player) <==> Plays(batch, player)
  {
    if batch != [] {
      var team := |batch| - 1;
      var ids := batch[team].playerIds;
      RosterHoldsBatch(batch[..team], teamSize, player);
      TeamHolds(ids, team, teamSize, player);
      HoldsConcat(RosterOf(batch[..team], teamSize), TeamMembers(Sorted(StringLess, ids), team, teamSize, |ids|), player);
      if Plays(batch[..team], player) {
        var k :| 0 <= k < team && player in batch[..team][k].playerIds;
        assert player in batch[k].playerIds;
      }
      if Plays(batch, player) && player !in ids {
        var k :| 0 <= k < |batch| && player in batch[k].playerIds;
        assert player in batch[..team][k].playerIds;
      }
    }
  }

  // ---------------------------------------------------------------- printing and parsing

  function Join(parts: seq<string>, sep: char): string {
    if parts == [] then ""
    else if |parts| == 1 then parts[0]
    else parts[0] + [sep] + Join(parts[1..], sep)
  }

  function Split(s: string, sep: char): (r: seq<string>)
    ensures r != []
  {
    if s == "" then [""]
    else
      var rest := Split(s[1..], sep);
      if s[0] == sep then [""] + rest else [[s[0]] + rest[0]] + rest[1..]
  }

  function PrintMember(m: Member): string
    requires m.slot >= 0
  {
    m.playerId + ":" + Itoa(m.slot)
  }

  function PrintParts(roster: seq<Member>): (r: seq<string>)
    requires forall i :: 0 <= i < |roster| ==> roster[i].slot >= 0
    ensures |r| == |roster|
  {
    seq(|roster|, i requires 0 <= i < |roster| => PrintMember(roster[i]))
  }

  function PrintRoster(roster: seq<Member>): string
    requires forall i :: 0 <= i < |roster| ==> roster[i].slot >= 0
  {
    Join(PrintParts(roster), ',')
  }

  /** Unicode white space. */
  predicate IsSpace(c: char) {
    var u := c as int;
    || 0x09 <= u <= 0x0D || u == 0x20 || u == 0x85 || u == 0xA0 || u == 0x1680 || 0x2000 <= u <= 0x200A
    || u == 0x2028 || u == 0x2029 || u == 0x202F || u == 0x205F || u == 0x3000
  }

  predicate Blank(s: string) { forall i :: 0 <= i < |s| ==> IsSpace(s[i]) }

  datatype Option<T> = None | Some(value: T)

  function DigitsValue(s: string): Option<nat> {
    if s == "" then Some(0)
    else
      var c := s[|s| - 1];
      match DigitsValue(s[..|s| - 1])
      case None => None
      case Some(v) => if '0' <= c <= '9' then Some(10 * v + DigitValue(c)) else None
  }

  /** strconv.Atoi: an optional sign, then decimal digits, within 64 bits. */
  function Atoi(s: string): Option<int> {
    var signed := s != "" && (s[0] == '-' || s[0] == '+');
    var digits := if signed then s[1..] else s;
    if digits == "" then None
    else match DigitsValue(digits)
      case None => None
      case Some(v) =>
        var magnitude: int := v;
        var n := if signed && s[0] == '-' then -magnitude else magnitude;
        if Int64.InRange(n) then Some(n) else None
  }

  /** What one item of the roster text contributes. */
  function ParseItem(roster: map<string, int>, item: string): map<string, int> {
    var colon := FirstColon(item);
    if colon == |item| || Blank(item[..colon]) then roster
    else match Atoi(item[colon + 1..])
      case None => roster
      case Some(slot) => if slot >= 0 then roster[item[..colon] := slot] else roster
  }

  /** Index of the first colon, or the length of a string that has none. */
  function FirstColon(s: string): (i: nat)
    ensures i <= |s| && ':' !in s[..i] && (i < |s| ==> s[i] == ':')
  {
    if s == "" || s[0] == ':' then 0 else 1 + FirstColon(s[1..])
  }

  function ParseItems(items: seq<string>): map<string, int> {
    if items == [] then map[] else ParseItem(ParseItems(items[..|items| - 1]), items[|items| - 1])
  }

  /** The game server's reader. */
  method ParseRoster(value: string) returns (roster: map<string, int>)
    ensures roster == ParseItems(Split(value, ','))
  {
    roster := map[];
    var items := Split(value, ',');
    var i := 0;
    while i < |items|
      invariant 0 <= i <= |items| && roster == ParseItems(items[..i])
    {
      var item := items[i];
      assert items[..i + 1][..i] == items[..i];
      i := i + 1;
      var colon := FirstColon(item);
      if colon == |item| || Blank(item[..colon]) {
        continue;
      }
      var slot := Atoi(item[colon + 1..]);
      if slot.Some? && slot.value >= 0 {
        roster := roster[item[..colon] := slot.value];
      }
    }
    assert items[..i] == items;
  }

  /** The player-to-slot map that the worker means. */
  function SlotMap(roster: seq<Member>): map<string, int> {
    if roster == [] then map[]
    else SlotMap(roster[..|roster| - 1])[roster[|roster| - 1].playerId := roster[|roster| - 1].slot]
  }

  predicate Printable(id: string) { !Blank(id) && ',' !in id && ':' !in id }

  lemma {:induction false} SplitPiece(s: string, sep: char)
    requires sep !in s
    ensures Split(s, sep) == [s]
  {
    if s != "" {
      assert s[0] in s && s == [s[0]] + s[1..];
      SplitPiece(s[1..], sep);
    }
  }

  lemma {:induction false} SplitAtSeparator(a: string, b: string, sep: char)
    requires sep !in a
    ensures Split(a + [sep] + b, sep) == [a] + Split(b, sep)
  {
    var s := a + [sep] + b;
    if a == "" {
      assert s[1..] == b;
    } else {
      SplitAtSeparator(a[1..], b, sep);
      assert s[1..] == a[1..] + [sep] + b;
      assert s[0] == a[0] && a[0] in a && a == [a[0]] + a[1..];
    }
  }

  /** Splitting undoes joining when no part holds the separator. */
  lemma {:induction false} SplitJoin(parts: seq<string>, sep: char)
    requires parts != [] && forall i :: 0 <= i < |parts| ==> sep !in parts[i]
    ensures Split(Join(parts, sep), sep) == parts
  {
    if |parts| == 1 {
      SplitPiece(parts[0], sep);
    } else {
      SplitJoin(parts[1..], sep);
      SplitAtSeparator(parts[0], Join(parts[1..], sep), sep);
    }
  }

  lemma {:induction false} SplitHasNoSeparator(s: string, sep: char)
    ensures forall i :: 0 <= i < |Split(s, sep)| ==> sep !in Split(s, sep)[i]
  {
    if s != "" {
      SplitHasNoSeparator(s[1..], sep);
    }
  }

  lemma {:induction false} ItoaDigits(n: nat)
    ensures DigitsValue(Itoa(n)) == Some(n)
    ensures forall i :: 0 <= i < |Itoa(n)| ==> '0' <= Itoa(n)[i] <= '9'
  {
    if n >= 10 {
      ItoaDigits(n / 10);
      assert Itoa(n)[..|Itoa(n)| - 1] == Itoa(n / 10);
    } else {
      assert Itoa(n)[..0] == "";
    }
  }

  lemma AtoiItoa(n: nat)
    requires Int64.InRange(n)
    ensures Atoi(Itoa(n)) == Some(n)
  {
    ItoaDigits(n);
  }

  lemma {:induction false} FirstColonAfter(id: string, rest: string)
    requires ':' !in id
    ensures FirstColon(id + ":" + rest) == |id|
  {
    if id != "" {
      assert (id + ":" + rest)[1..] == id[1..] + ":" + rest;
      FirstColonAfter(id[1..], rest);
    }
  }

  lemma ParsePrinted(slots: map<string, int>, m: Member)
    requires Printable(m.playerId) && m.slot >= 0 && Int64.InRange(m.slot)
    ensures ParseItem(slots, PrintMember(m)) == slots[m.playerId := m.slot]
    ensures ',' !in PrintMember(m)
  {
    var item := PrintMember(m);
    FirstColonAfter(m.playerId, Itoa(m.slot));
    assert item[..|m.playerId|] == m.playerId && item[|m.playerId| + 1..] == Itoa(m.slot);
    AtoiItoa(m.slot);
    ItoaDigits(m.slot);
  }

  predicate Slotted(roster: seq<Member>) {
    forall i :: 0 <= i < |roster| ==> roster[i].slot >= 0 && Int64.InRange(roster[i].slot)
  }

  predicate AllPrintable(roster: seq<Member>) {
    forall i :: 0 <= i < |roster| ==> Printable(roster[i].playerId)
  }

  lemma {:induction false} ParsePrintedItems(roster: seq<Member>)
    requires Slotted(roster) && AllPrintable(roster)
    ensures ParseItems(PrintParts(roster)) == SlotMap(roster)
  {
    if roster != [] {
      var n := |roster| - 1;
      ParsePrintedItems(roster[..n]);
      assert PrintParts(roster)[..n] == PrintParts(roster[..n]);
      ParsePrinted(SlotMap(roster[..n]), roster[n]);
    }
  }

  lemma {:induction false} ParsedIdsPrintable(items: seq<string>)
    requires forall i :: 0 <= i < |items| ==> ',' !in items[i]
    ensures forall id :: id in ParseItems(items) ==> Printable(id)
  {
    if items != [] {
      ParsedIdsPrintable(items[..|items| - 1]);
    }
  }

  lemma {:induction false} SlotMapKeys(roster: seq<Member>, i: nat)
    requires i < |roster|
    ensures roster[i].playerId in SlotMap(roster)
  {
    if i < |roster| - 1 {
      SlotMapKeys(roster[..|roster| - 1], i);
    }
  }

  /** MAIN RESULT. The game server reads back exactly the slots the worker printed if and only if every
      player id is not blank and holds neither a comma nor a colon. */
  lemma RosterRoundTrip(roster: seq<Member>)
    requires Slotted(roster)
    ensures ParseItems(Split(PrintRoster(roster), ',')) == SlotMap(roster) <==> AllPrintable(roster)
  {
    var items := Split(PrintRoster(roster), ',');
    if AllPrintable(roster) {
      ParsePrintedItems(roster);
      if roster == [] {
        assert items == [""] && items[..0] == [];
      } else {
        forall i | 0 <= i < |roster| ensures ',' !in PrintParts(roster)[i] {
          ParsePrinted(map[], roster[i]);
        }
        SplitJoin(PrintParts(roster), ',');
      }
    } else {
      var i :| 0 <= i < |roster| && !Printable(roster[i].playerId);
      SplitHasNoSeparator(PrintRoster(roster), ',');
      ParsedIdsPrintable(items);
      SlotMapKeys(roster, i);
    }
  }
}
