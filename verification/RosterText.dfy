/** What the game server reads from any roster text, whoever wrote it. */
module RosterText {
  import opened Roster
  import Int64

  // ---------------------------------------------------------------- numbers

  function Zeros(k: nat): string { seq(k, _ => '0') }

  /** Text that stands for this number: a sign, any number of zeros, and its digits. */
  ghost predicate Spells(text: string, sign: string, zeros: nat, n: int) {
    && text == sign + Zeros(zeros) + Itoa(if n < 0 then -n else n)
    && (sign == "" || sign == "+" || sign == "-") && (n > 0 ==> sign != "-") && (n < 0 ==> sign == "-")
  }

  ghost predicate NumberText(text: string, n: int) {
    Int64.InRange(n) && exists sign, zeros :: Spells(text, sign, zeros, n)
  }

  lemma {:induction false} ZerosValue(k: nat)
    ensures DigitsValue(Zeros(k)) == Some(0)
  {
    if k > 0 {
      assert Zeros(k)[..k - 1] == Zeros(k - 1);
      ZerosValue(k - 1);
    }
  }

  lemma {:induction false} SpelledValue(k: nat, n: nat)
    ensures DigitsValue(Zeros(k) + Itoa(n)) == Some(n)
  {
    var s := Zeros(k) + Itoa(n);
    if n < 10 {
      assert s[..|s| - 1] == Zeros(k);
      ZerosValue(k);
    } else {
      assert s[..|s| - 1] == Zeros(k) + Itoa(n / 10);
      SpelledValue(k, n / 10);
    }
  }

  lemma ZeroMore(k: nat, d: nat)
    requires d < 10
    ensures Zeros(k) + Itoa(0) + Itoa(d) == Zeros(k + 1) + Itoa(d)
  {
    assert Zeros(k) + ['0'] == Zeros(k + 1);
  }

  lemma DigitMore(k: nat, v: nat, d: nat)
    requires d < 10 && v > 0
    ensures Zeros(k) + Itoa(v) + Itoa(d) == Zeros(k) + Itoa(10 * v + d)
  {
    assert Itoa(10 * v + d) == Itoa(v) + Itoa(d);
  }

  lemma {:induction false} ValueIsSpelled(s: string) returns (k: nat)
    requires s != "" && DigitsValue(s).Some?
    ensures s == Zeros(k) + Itoa(DigitsValue(s).value)
  {
    var n := |s| - 1;
    var d := DigitValue(s[n]);
    assert Itoa(d) == [s[n]];
    if n == 0 {
      k := 0;
      assert s[..0] == "" && s == [s[0]];
    } else {
      var j := ValueIsSpelled(s[..n]);
      var v := DigitsValue(s[..n]).value;
      assert s == Zeros(j) + Itoa(v) + Itoa(d);
      if v == 0 {
        k := j + 1;
        ZeroMore(j, d);
      } else {
        k := j;
        DigitMore(j, v, d);
      }
    }
  }

  lemma DigitsFirst(k: nat, n: nat)
    ensures var s := Zeros(k) + Itoa(n); s != "" && '0' <= s[0] <= '9'
  {
    ItoaDigits(n);
    assert (Zeros(k) + Itoa(n))[0] == if k > 0 then '0' else Itoa(n)[0];
  }

  lemma SignedIsRead(sign: string, digits: string, m: nat)
    requires digits != "" && '0' <= digits[0] <= '9' && DigitsValue(digits) == Some(m)
    requires sign == "" || sign == "+" || sign == "-"
    ensures var n := if sign == "-" then -(m as int) else m;
            Atoi(sign + digits) == if Int64.InRange(n) then Some(n) else None
  {
    var text := sign + digits;
    if sign == "" {
      assert text == digits;
    } else {
      assert text[0] == sign[0] && text[1..] == digits;
    }
  }

  lemma JoinThree(a: string, b: string, c: string)
    ensures a + b + c == a + (b + c)
  {}

  lemma SpelledIsRead(text: string, sign: string, zeros: nat, n: int)
    requires Spells(text, sign, zeros, n) && Int64.InRange(n)
    ensures Atoi(text) == Some(n)
  {
    var m: nat := if n < 0 then -n else n;
    JoinThree(sign, Zeros(zeros), Itoa(m));
    DigitsRead(sign, zeros, m);
  }

  lemma DigitsRead(sign: string, zeros: nat, m: nat)
    requires sign == "" || sign == "+" || sign == "-"
    ensures var n := if sign == "-" then -(m as int) else m;
            Atoi(sign + (Zeros(zeros) + Itoa(m))) == if Int64.InRange(n) then Some(n) else None
  {
    DigitsFirst(zeros, m);
    SpelledValue(zeros, m);
    SignedIsRead(sign, Zeros(zeros) + Itoa(m), m);
  }

  lemma DigitsSpelled(sign: string, digits: string, n: int)
    requires digits != "" && DigitsValue(digits) == Some(if n < 0 then -n else n)
    requires (sign == "" || sign == "+" || sign == "-") && (n > 0 ==> sign != "-") && (n < 0 ==> sign == "-") && Int64.InRange(n)
    ensures NumberText(sign + digits, n)
  {
    var k := ValueIsSpelled(digits);
    assert sign + digits == sign + Zeros(k) + Itoa(if n < 0 then -n else n);
    assert Spells(sign + digits, sign, k, n);
  }

  lemma ReadIsSpelled(text: string)
    requires Atoi(text).Some?
    ensures NumberText(text, Atoi(text).value)
  {
    var n := Atoi(text).value;
    if text[0] == '-' || text[0] == '+' {
      assert text == text[..1] + text[1..] && text[..1] == [text[0]];
      DigitsSpelled(text[..1], text[1..], n);
    } else {
      assert text == "" + text;
      DigitsSpelled("", text, n);
    }
  }

  /** The numbers read are exactly the 64-bit integers written with an optional sign and leading zeros. */
  lemma AtoiIff(text: string, n: int)
    ensures Atoi(text) == Some(n) <==> NumberText(text, n)
  {
    if Atoi(text) == Some(n) { ReadIsSpelled(text); }
    if Int64.InRange(n) {
      forall sign, zeros | Spells(text, sign, zeros, n) ensures Atoi(text) == Some(n) { SpelledIsRead(text, sign, zeros, n); }
    }
  }

  // ---------------------------------------------------------------- items

  /** The item names this player, up to its first colon, and gives a slot. */
  ghost predicate Gives(item: string, player: string, slot: int) {
    && |player| < |item| && item[..|player|] == player && item[|player|] == ':' && ':' !in player && !Blank(player)
    && slot >= 0 && NumberText(item[|player| + 1..], slot)
  }

  lemma NamedUpToColon(item: string, player: string)
    requires |player| < |item| && item[..|player|] == player && item[|player|] == ':' && ':' !in player
    ensures FirstColon(item) == |player|
  {
    assert item == player + ":" + item[|player| + 1..];
    FirstColonAfter(player, item[|player| + 1..]);
  }

  lemma GivenIsRead(roster: map<string, int>, item: string, player: string, slot: int)
    requires Gives(item, player, slot)
    ensures ParseItem(roster, item) == roster[player := slot]
  {
    NamedUpToColon(item, player);
    AtoiIff(item[|player| + 1..], slot);
  }

  lemma ReadIsGiven(item: string, i: nat, slot: int)
    requires i == FirstColon(item) < |item| && !Blank(item[..i]) && Atoi(item[i + 1..]) == Some(slot) && slot >= 0
    ensures Gives(item, item[..i], slot)
  {
    AtoiIff(item[i + 1..], slot);
  }

  lemma NothingGiven(roster: map<string, int>, item: string)
    requires forall p, v :: !Gives(item, p, v)
    ensures ParseItem(roster, item) == roster
  {
    var i := FirstColon(item);
    if i < |item| && !Blank(item[..i]) && Atoi(item[i + 1..]).Some? && Atoi(item[i + 1..]).value >= 0 {
      ReadIsGiven(item, i, Atoi(item[i + 1..]).value);
      assert false;
    }
  }

  /** The last item that gives the player a slot gives this one. */
  ghost predicate LastGives(items: seq<string>, k: nat, player: string, slot: int) {
    k < |items| && Gives(items[k], player, slot) && forall j, v :: k < j < |items| ==> !Gives(items[j], player, v)
  }

  ghost predicate Seats(items: seq<string>, player: string, slot: int) { exists k: nat :: LastGives(items, k, player, slot) }

  /** MAIN RESULT. A player is read with a slot exactly when the last item naming him with a number that is not
      negative gives that slot; every other item, malformed in any way, counts for nothing. */
  lemma {:induction false} ReadIff(items: seq<string>, player: string, slot: int)
    ensures player in ParseItems(items) && ParseItems(items)[player] == slot <==> Seats(items, player, slot)
  {
    if items != [] {
      var n := |items| - 1;
      var before := ParseItems(items[..n]);
      ReadIff(items[..n], player, slot);
      if p, v :| Gives(items[n], p, v) {
        GivenIsRead(before, items[n], p, v);
        LastItem(items, p, v, player, slot);
      } else {
        NothingGiven(before, items[n]);
        NotTheLast(items, items[n], player, slot);
      }
    }
  }

  lemma LastItem(items: seq<string>, p: string, v: int, player: string, slot: int)
    requires items != [] && Gives(items[|items| - 1], p, v)
    ensures p == player ==> (Seats(items, player, slot) <==> v == slot)
    ensures p != player ==> (Seats(items, player, slot) <==> Seats(items[..|items| - 1], player, slot))
  {
    var n := |items| - 1;
    if p == player {
      if v == slot { assert LastGives(items, n, player, slot); }
      else { forall k: nat ensures !LastGives(items, k, player, slot) { OneSlot(items[n], player, v, slot); } }
    } else {
      forall u ensures !Gives(items[n], player, u) { OneName(items[n], p, v, player, u); }
      NotTheLast(items, items[n], player, slot);
    }
  }

  lemma OneName(item: string, p: string, v: int, q: string, u: int)
    requires Gives(item, p, v) && p != q
    ensures !Gives(item, q, u)
  {
    NamedUpToColon(item, p);
    if Gives(item, q, u) {
      NamedUpToColon(item, q);
      assert false;
    }
  }

  lemma OneSlot(item: string, player: string, a: int, b: int)
    requires Gives(item, player, a) && a != b
    ensures !Gives(item, player, b)
  {
    AtoiIff(item[|player| + 1..], a);
    AtoiIff(item[|player| + 1..], b);
  }

  lemma NotTheLast(items: seq<string>, last: string, player: string, slot: int)
    requires items != [] && last == items[|items| - 1] && forall v :: !Gives(last, player, v)
    ensures Seats(items, player, slot) <==> Seats(items[..|items| - 1], player, slot)
  {
    var rest := items[..|items| - 1];
    if k: nat :| LastGives(items, k, player, slot) { assert LastGives(rest, k, player, slot); }
    if k: nat :| LastGives(rest, k, player, slot) { assert LastGives(items, k, player, slot); }
  }

  /** The items are the text cut at its commas. */
  lemma {:induction false} SplitIsCut(s: string, sep: char)
    ensures Join(Split(s, sep), sep) == s && forall i :: 0 <= i < |Split(s, sep)| ==> sep !in Split(s, sep)[i]
  {
    SplitHasNoSeparator(s, sep);
    if s != "" {
      SplitIsCut(s[1..], sep);
      var rest := Split(s[1..], sep);
      if s[0] == sep {
        assert Split(s, sep)[1..] == rest;
      } else {
        assert Split(s, sep)[1..] == rest[1..];
        assert s == [s[0]] + s[1..];
      }
    }
  }
}
