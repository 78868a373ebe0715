// Roman numerals: a printer, and a parser that checks itself against the printer.

module Roman {
  import opened Ordering

  function LetterValue(c: char): nat {
    match c
    case 'I' => 1
    case 'V' => 5
    case 'X' => 10
    case 'L' => 50
    case 'C' => 100
    case 'D' => 500
    case 'M' => 1000
    case _ => 0
  }

  predicate Letters(s: string) {
    forall c :: c in s ==> LetterValue(c) > 0
  }

  const TABLE: seq<(nat, string)> := [
    (1000, "M"), (900, "CM"), (500, "D"), (400, "CD"), (100, "C"), (90, "XC"), (50, "L"),
    (40, "XL"), (10, "X"), (9, "IX"), (5, "V"), (4, "IV"), (1, "I")]

  function Repeat(s: string, n: nat): string {
    if n == 0 then "" else s + Repeat(s, n - 1)
  }

  /** Rendering with the entries of the table from `j` on. */
  function RenderFrom(j: nat, n: nat): string
    requires j <= |TABLE|
    decreases |TABLE| - j
  {
    if j == |TABLE| then "" else
      Repeat(TABLE[j].1, n / TABLE[j].0) + RenderFrom(j + 1, n % TABLE[j].0)
  }

  function Render(n: nat): string {
    RenderFrom(0, n)
  }

  lemma RenderStep(j: nat, n: nat)
    requires j < |TABLE|
    ensures RenderFrom(j, n) == Repeat(TABLE[j].1, n / TABLE[j].0) + RenderFrom(j + 1, n % TABLE[j].0)
  {
  }

  lemma RenderEnd(n: nat)
    ensures RenderFrom(|TABLE|, n) == ""
  {
  }

  method IntToRoman(n: nat) returns (s: string)
    ensures s == Render(n)
  {
    s := "";
    var value := n;
    hide RenderFrom;
    for j := 0 to |TABLE|
      invariant s + RenderFrom(j, value) == Render(n)
    {
      RenderStep(j, value);
      var (amount, numeral) := TABLE[j];
      var count := value / amount;
      value := value % amount;
      s := s + Repeat(numeral, count);
    }
    RenderEnd(value);
  }

  // ----- reading from the right

  /** The largest letter of a numeral. */
  function Largest(s: string): nat {
    if s == "" then 0 else
      var rest := Largest(s[1..]);
      if LetterValue(s[0]) > rest then LetterValue(s[0]) else rest
  }

  /** A letter counts against the total when a larger one stands somewhere to its right. */
  function Reading(s: string): int {
    if s == "" then 0 else
      if LetterValue(s[0]) < Largest(s[1..]) then Reading(s[1..]) - LetterValue(s[0])
      else Reading(s[1..]) + LetterValue(s[0])
  }

  /** A numeral is what renders back to exactly what was read. */
  function Parse(upper: string): Option<nat> {
    if Letters(upper) && Reading(upper) > 0 && Render(Reading(upper)) == upper then Some(Reading(upper)) else None
  }

  /** Upper-casing is the library's; what is read and compared is its result. */
  method RomanToInt(text: string, upperCase: string -> string) returns (value: Option<nat>)
    ensures value == Parse(upperCase(text))
  {
    var upper := upperCase(text);
    var total: int, previous: nat := 0, 0;
    var i := |upper|;
    while i > 0
      invariant 0 <= i <= |upper|
      invariant total == Reading(upper[i..]) && previous == Largest(upper[i..])
      invariant Letters(upper[i..])
    {
      i := i - 1;
      var current := LetterValue(upper[i]);
      assert upper[i..][1..] == upper[i + 1..] && upper[i..] == [upper[i]] + upper[i + 1..];
      if current == 0 {
        assert upper[i] in upper;
        return None;
      }
      total := if current < previous then total - current else total + current;
      previous := if previous > current then previous else current;
    }
    assert upper[0..] == upper;
    if total <= 0 {
      return None;
    }
    var rendered := IntToRoman(total);
    value := if rendered == upper then Some(total) else None;
  }

  // ----- the printer is read back

  /** The largest letter the entries from `j` on can write. */
  function Top(j: nat): nat
    requires j < |TABLE|
  {
    var numeral := TABLE[j].1;
    LetterValue(numeral[|numeral| - 1])
  }

  lemma LetterInFront(c: char, t: string)
    requires LetterValue(c) > 0 && Letters(t)
    ensures Letters([c] + t)
    ensures LetterValue(c) >= Largest(t) ==>
      Reading([c] + t) == LetterValue(c) + Reading(t) && Largest([c] + t) == LetterValue(c)
    ensures LetterValue(c) < Largest(t) ==>
      Reading([c] + t) == Reading(t) - LetterValue(c) && Largest([c] + t) == Largest(t)
  {
    assert ([c] + t)[1..] == t;
  }

  lemma {:induction false} RunInFront(c: char, n: nat, t: string)
    requires LetterValue(c) > 0 && Letters(t) && Largest(t) <= LetterValue(c)
    ensures Letters(Repeat([c], n) + t)
    ensures Reading(Repeat([c], n) + t) == n * LetterValue(c) + Reading(t)
    ensures Largest(Repeat([c], n) + t) <= LetterValue(c)
  {
    if n == 0 {
      assert Repeat([c], n) + t == t;
    } else {
      RunInFront(c, n - 1, t);
      LetterInFront(c, Repeat([c], n - 1) + t);
      assert Repeat([c], n) + t == [c] + (Repeat([c], n - 1) + t);
    }
  }

  lemma PairInFront(c: char, d: char, t: string)
    requires 0 < LetterValue(c) < LetterValue(d) && Letters(t) && Largest(t) <= LetterValue(d)
    ensures Letters([c, d] + t)
    ensures Reading([c, d] + t) == LetterValue(d) - LetterValue(c) + Reading(t)
    ensures Largest([c, d] + t) == LetterValue(d)
  {
    LetterInFront(d, t);
    LetterInFront(c, [d] + t);
    assert [c, d] + t == [c] + ([d] + t);
  }

  /** What is left for entry `j` is less than the entry before it. */
  predicate Fits(j: nat, n: nat)
    requires j <= |TABLE|
  {
    j == 0 || n < TABLE[j - 1].0
  }

  lemma TableShape(j: nat)
    requires j < |TABLE|
    ensures var (amount, numeral) := TABLE[j];
      && amount > 0
      && (|numeral| == 1 ==> LetterValue(numeral[0]) == amount)
      && (|numeral| != 1 ==>
            && |numeral| == 2 && 0 < LetterValue(numeral[0]) < LetterValue(numeral[1])
            && LetterValue(numeral[1]) - LetterValue(numeral[0]) == amount
            && j > 0 && TABLE[j - 1].0 < 2 * amount)
    ensures j + 1 < |TABLE| ==> Top(j + 1) <= Top(j)
    ensures j + 1 == |TABLE| ==> TABLE[j].0 == 1
  {
  }

  lemma {:induction false} RenderingReads(j: nat, n: nat)
    requires j <= |TABLE| && Fits(j, n)
    ensures Letters(RenderFrom(j, n)) && Reading(RenderFrom(j, n)) == n
    ensures j < |TABLE| ==> Largest(RenderFrom(j, n)) <= Top(j)
    decreases |TABLE| - j
  {
    hide RenderFrom, Reading, Largest;
    if j < |TABLE| {
      TableShape(j);
      RenderStep(j, n);
      Division(n, TABLE[j].0);
      var rest := RenderFrom(j + 1, n % TABLE[j].0);
      RenderingReads(j + 1, n % TABLE[j].0);
      if j + 1 == |TABLE| {
        RenderEnd(n % TABLE[j].0);
        NothingRead();
      }
      EntryReads(j, n / TABLE[j].0, rest);
    } else {
      RenderEnd(n);
      NothingRead();
    }
  }

  lemma NothingRead()
    ensures Letters("") && Reading("") == 0 && Largest("") == 0
  {
  }

  lemma Division(n: nat, amount: nat)
    requires amount > 0
    ensures n == (n / amount) * amount + n % amount && n % amount < amount
    ensures n < 2 * amount ==> n / amount <= 1
  {
  }

  lemma EntryReads(j: nat, count: nat, rest: string)
    requires j < |TABLE| && Letters(rest) && Largest(rest) <= Top(j)
    requires |TABLE[j].1| == 2 ==> count <= 1
    ensures Letters(Repeat(TABLE[j].1, count) + rest)
    ensures Reading(Repeat(TABLE[j].1, count) + rest) == count * TABLE[j].0 + Reading(rest)
    ensures Largest(Repeat(TABLE[j].1, count) + rest) <= Top(j)
  {
    TableShape(j);
    var numeral := TABLE[j].1;
    if |numeral| == 1 {
      assert numeral == [numeral[0]];
      RunInFront(numeral[0], count, rest);
    } else if count == 1 {
      assert numeral == [numeral[0], numeral[1]];
      assert Repeat(numeral, 1) == numeral;
      PairInFront(numeral[0], numeral[1], rest);
    } else {
      assert Repeat(numeral, 0) + rest == rest;
    }
  }

  /** Every positive number is read back from its rendering. */
  lemma RoundTrip(n: nat)
    requires n > 0
    ensures Parse(Render(n)) == Some(n)
  {
    RenderingReads(0, n);
  }

  /** A string is accepted exactly when it is the one canonical rendering of the number returned. */
  lemma AcceptsExactly(upper: string, n: nat)
    ensures Parse(upper) == Some(n) <==> n > 0 && upper == Render(n)
  {
    if n > 0 {
      RoundTrip(n);
    }
  }

  lemma StartsWithC()
    ensures Render(999) != "" && Render(999)[0] == 'C'
  {
    hide RenderFrom;
    RenderStep(0, 999);
    RenderStep(1, 999);
    assert TABLE[0] == (1000, "M") && TABLE[1] == (900, "CM");
    assert 999 / 1000 == 0 && 999 % 1000 == 999 && 999 / 900 == 1 && 999 % 900 == 99;
    assert Repeat("M", 0) == "" && Repeat("CM", 1) == "CM";
    assert RenderFrom(0, 999) == "" + ("CM" + RenderFrom(2, 99));
  }

  /** Words made of Roman letters are not numerals: DID reads as 999, which renders otherwise. */
  lemma WordIsNotANumeral()
    ensures Reading("DID") == 999 && Parse("DID") == None
  {
    StartsWithC();
    hide RenderFrom, Render;
    assert "DID"[1..] == "ID" && "ID"[1..] == "D" && "D"[1..] == "";
    assert Reading("D") == 500 && Largest("D") == 500;
    assert Reading("ID") == 499 && Largest("ID") == 500;
  }

  // ----- numerals digit by digit

  const HUNDREDS: seq<string> := ["", "C", "CC", "CCC", "CD", "D", "DC", "DCC", "DCCC", "CM"]
  const TENS: seq<string> := ["", "X", "XX", "XXX", "XL", "L", "LX", "LXX", "LXXX", "XC"]
  const UNITS: seq<string> := ["", "I", "II", "III", "IV", "V", "VI", "VII", "VIII", "IX"]

  /** What four entries of the table write for one decimal digit. */
  function DigitOf(nine: string, five: string, four: string, one: string, d: nat): string
    requires d < 10
  {
    if d == 9 then nine
    else if d >= 5 then five + Repeat(one, d - 5)
    else if d == 4 then four
    else Repeat(one, d)
  }

  lemma DigitsWritten(d: nat)
    requires d < 10
    ensures DigitOf("CM", "D", "CD", "C", d) == HUNDREDS[d]
    ensures DigitOf("XC", "L", "XL", "X", d) == TENS[d]
    ensures DigitOf("IX", "V", "IV", "I", d) == UNITS[d]
  {
    FewTimes("C");
    FewTimes("X");
    FewTimes("I");
  }

  lemma FewTimes(s: string)
    ensures Repeat(s, 0) == "" && Repeat(s, 1) == s && Repeat(s, 2) == s + s && Repeat(s, 3) == s + s + s
  {
    assert Repeat(s, 1) == s + "" && Repeat(s, 2) == s + Repeat(s, 1) && Repeat(s, 3) == s + Repeat(s, 2);
  }

  /** Entries `j` to `j + 3`, for nine, five, four and one times a power of ten, write one digit. */
  lemma OneDigit(j: nat, unit: nat, d: nat, rest: nat)
    requires j + 3 < |TABLE| && unit in {1, 10, 100} && d < 10 && rest < unit
    requires TABLE[j].0 == 9 * unit && TABLE[j + 1].0 == 5 * unit && TABLE[j + 2].0 == 4 * unit && TABLE[j + 3].0 == unit
    ensures RenderFrom(j, d * unit + rest) ==
      DigitOf(TABLE[j].1, TABLE[j + 1].1, TABLE[j + 2].1, TABLE[j + 3].1, d) + RenderFrom(j + 4, rest)
  {
    hide *;
    var n := d * unit + rest;
    var n1 := n % (9 * unit);
    var n2 := n1 % (5 * unit);
    var n3 := n2 % (4 * unit);
    Quotients(unit, d, rest);
    RenderStep(j, n);
    RenderStep(j + 1, n1);
    RenderStep(j + 2, n2);
    RenderStep(j + 3, n3);
    Assembled(TABLE[j].1, TABLE[j + 1].1, TABLE[j + 2].1, TABLE[j + 3].1, d, RenderFrom(j + 4, rest));
  }

  lemma Assembled(nine: string, five: string, four: string, one: string, d: nat, tail: string)
    requires d < 10
    ensures Repeat(nine, if d == 9 then 1 else 0) + (Repeat(five, if 5 <= d < 9 then 1 else 0)
      + (Repeat(four, if d == 4 then 1 else 0)
         + (Repeat(one, if d == 9 || d == 4 then 0 else if d >= 5 then d - 5 else d) + tail)))
      == DigitOf(nine, five, four, one, d) + tail
  {
    FewTimes(nine);
    FewTimes(five);
    FewTimes(four);
    FewTimes(one);
    hide Repeat;
  }

  lemma Quotients(unit: nat, d: nat, rest: nat)
    requires unit in {1, 10, 100} && d < 10 && rest < unit
    ensures var n := d * unit + rest; var n1 := n % (9 * unit); var n2 := n1 % (5 * unit); var n3 := n2 % (4 * unit);
      && n / (9 * unit) == (if d == 9 then 1 else 0)
      && n1 / (5 * unit) == (if 5 <= d < 9 then 1 else 0)
      && n2 / (4 * unit) == (if d == 4 then 1 else 0)
      && n3 / unit == (if d == 9 || d == 4 then 0 else if d >= 5 then d - 5 else d)
      && n3 % unit == rest
  {
    var n := d * unit + rest;
    var n1 := n % (9 * unit);
    var n2 := n1 % (5 * unit);
    var n3 := n2 % (4 * unit);
    Below(d, unit, rest);
    Once(n, 9 * unit);
    Once(n1, 5 * unit);
    Once(n2, 4 * unit);
    Several(if d == 9 || d == 4 then 0 else if d >= 5 then d - 5 else d, unit, rest);
  }

  lemma Below(d: nat, unit: nat, rest: nat)
    requires unit in {1, 10, 100} && d < 10 && rest < unit
    ensures forall k: nat :: k <= 10 ==> (d * unit + rest >= k * unit <==> d >= k)
    ensures d >= 5 ==> (d - 5) * unit == d * unit - 5 * unit
  {
  }

  lemma Once(n: nat, m: nat)
    requires 0 < m && n < 2 * m
    ensures n / m == (if n >= m then 1 else 0) && n % m == (if n >= m then n - m else n)
  {
  }

  lemma Several(e: nat, unit: nat, rest: nat)
    requires unit in {1, 10, 100} && rest < unit
    ensures (e * unit + rest) / unit == e && (e * unit + rest) % unit == rest
  {
    if unit == 1 { } else if unit == 10 { } else { }
  }

  /** A number is written as its thousands, one M each, and then digit by digit. */
  lemma RenderedByDigits(n: nat)
    ensures Render(n) == Repeat("M", n / 1000) + HUNDREDS[n / 100 % 10] + TENS[n / 10 % 10] + UNITS[n % 10]
  {
    hide *;
    var hundreds, tens, units := n / 100 % 10, n / 10 % 10, n % 10;
    DecimalDigits(n);
    Entries();
    RenderStep(0, n);
    OneDigit(1, 100, hundreds, tens * 10 + units);
    OneDigit(5, 10, tens, units);
    OneDigit(9, 1, units, 0);
    RenderEnd(0);
    DigitsWritten(hundreds);
    DigitsWritten(tens);
    DigitsWritten(units);
    RenderIs(n);
    Joined(Repeat("M", n / 1000), HUNDREDS[hundreds], TENS[tens], UNITS[units]);
  }

  lemma DecimalDigits(n: nat)
    ensures n % 1000 == n / 100 % 10 * 100 + (n / 10 % 10 * 10 + n % 10)
    ensures n / 10 % 10 * 10 + n % 10 < 100
  {
    Tens(n, 10, n % 10, n / 10);
    Tens(n / 10, 10, n / 10 % 10, n / 100);
    assert n / 10 / 10 == n / 100 && n / 100 / 10 == n / 1000;
    assert n == 10 * (10 * (10 * (n / 1000) + n / 100 % 10) + n / 10 % 10) + n % 10;
  }

  lemma Tens(n: nat, m: nat, last: nat, rest: nat)
    requires m == 10 && last == n % m && rest == n / m
    ensures n == 10 * rest + last
  {
  }

  lemma Entries()
    ensures |TABLE| == 13 && |HUNDREDS| == |TENS| == |UNITS| == 10
    ensures TABLE[0] == (1000, "M")
    ensures TABLE[1..5] == [(900, "CM"), (500, "D"), (400, "CD"), (100, "C")]
    ensures TABLE[5..9] == [(90, "XC"), (50, "L"), (40, "XL"), (10, "X")]
    ensures TABLE[9..13] == [(9, "IX"), (5, "V"), (4, "IV"), (1, "I")]
  {
  }

  lemma RenderIs(n: nat)
    ensures Render(n) == RenderFrom(0, n)
  {
  }

  lemma Joined(a: string, b: string, c: string, d: string)
    ensures a + (b + (c + (d + ""))) == a + b + c + d
  {
  }
}
