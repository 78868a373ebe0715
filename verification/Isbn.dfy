// ISBN-10 and ISBN-13: check digits, conversion, and what the checksums catch.

module Isbn {
  import opened Ordering

  const VALID_PREFIXES: seq<string> := ["978", "979"]
  const ISMN_PREFIX := "9790"
  const MAX_CANDIDATES_FOR_IDENTITY: nat := 8

  predicate Digit(c: char) {
    '0' <= c <= '9'
  }

  predicate Digits(s: string) {
    forall i :: 0 <= i < |s| ==> Digit(s[i])
  }

  /** A digit's value, and ten for the X that may end an ISBN-10. */
  function Worth(c: char): nat
    requires Digit(c) || c == 'X'
  {
    if c == 'X' then 10 else (c - '0') as nat
  }

  function DigitFor(n: nat): (c: char)
    requires n <= 10
    ensures (Digit(c) <==> n < 10) && (c == 'X' <==> n == 10)
    ensures Digit(c) || c == 'X'
    ensures Worth(c) == n
  {
    if n == 10 then 'X' else '0' + n as char
  }

  lemma WorthIsInjective(a: char, b: char)
    requires (Digit(a) || a == 'X') && (Digit(b) || b == 'X')
    ensures Worth(a) == Worth(b) <==> a == b
  {
  }

  // ----- weighted sums

  /** The two weight schemes: 1 and 3 in turn, or 10 down to 1. */
  datatype Scheme = Thirteen | Ten
  {
    function Weight(i: nat): int {
      if Thirteen? then (if i % 2 == 0 then 1 else 3) else 10 - i
    }
  }

  predicate Weighable(s: string) {
    forall i :: 0 <= i < |s| ==> Digit(s[i]) || s[i] == 'X'
  }

  function Total(scheme: Scheme, s: string): int
    requires Weighable(s)
  {
    if s == "" then 0 else
      var n := |s| - 1;
      Total(scheme, s[..n]) + Worth(s[n]) * scheme.Weight(n)
  }

  function CheckDigit13(first: string): nat
    requires Digits(first)
  {
    (10 - Total(Thirteen, first) % 10) % 10
  }

  function CheckDigit10(first: string): char
    requires Digits(first)
  {
    DigitFor((11 - Total(Ten, first) % 11) % 11)
  }

  predicate IsValid13(s: string) {
    && |s| == 13 && Digits(s)
    && (exists p :: p in VALID_PREFIXES && p <= s)
    && !(ISMN_PREFIX <= s)
    && Worth(s[12]) == CheckDigit13(s[..12])
  }

  predicate IsValid10(s: string) {
    && |s| == 10 && Digits(s[..9]) && (Digit(s[9]) || s[9] == 'X')
    && s[9] == CheckDigit10(s[..9])
  }

  // ----- the check digit makes the whole sum vanish

  lemma Checked13(s: string)
    requires |s| == 13 && Digits(s)
    ensures Worth(s[12]) == CheckDigit13(s[..12]) <==> Total(Thirteen, s) % 10 == 0
  {
    assert s[..12] + [s[12]] == s;
    assert Total(Thirteen, s) == Total(Thirteen, s[..12]) + Worth(s[12]);
    hide Total, Worth;
    TensComplement(Total(Thirteen, s[..12]), Worth(s[12]));
  }

  lemma TensComplement(total: int, last: int)
    requires 0 <= last <= 9
    ensures last == (10 - total % 10) % 10 <==> (total + last) % 10 == 0
  {
  }

  lemma ElevensComplement(total: int, last: int)
    requires 0 <= last <= 10
    ensures last == (11 - total % 11) % 11 <==> (total + last) % 11 == 0
  {
  }

  lemma Checked10(s: string)
    requires |s| == 10 && Digits(s[..9]) && (Digit(s[9]) || s[9] == 'X')
    ensures Weighable(s)
    ensures s[9] == CheckDigit10(s[..9]) <==> Total(Ten, s) % 11 == 0
  {
    assert forall i :: 0 <= i < 9 ==> s[..9][i] == s[i];
    assert Total(Ten, s) == Total(Ten, s[..9]) + Worth(s[9]);
    WorthIsInjective(s[9], CheckDigit10(s[..9]));
    hide Total, Worth;
    ElevensComplement(Total(Ten, s[..9]), Worth(s[9]));
  }

  // ----- one character changed

  /** Changing one character moves the sum by that character's weight times the difference. */
  lemma {:induction false} TotalAfterChange(scheme: Scheme, s: string, k: nat, c: char)
    requires Weighable(s) && k < |s| && (Digit(c) || c == 'X')
    ensures Weighable(s[k := c])
    ensures Total(scheme, s[k := c]) == Total(scheme, s) + (Worth(c) - Worth(s[k])) * scheme.Weight(k)
  {
    hide Worth, Scheme.Weight;
    var n := |s| - 1;
    var t := s[k := c];
    if k == n {
      assert t[..n] == s[..n];
      Spread(Worth(c), Worth(s[k]), scheme.Weight(k));
    } else {
      assert t[..n] == s[..n][k := c];
      TotalAfterChange(scheme, s[..n], k, c);
    }
  }

  lemma Spread(a: int, b: int, w: int)
    ensures (a - b) * w == a * w - b * w
  {
  }

  lemma NoMultipleOfTen(w: int, d: int)
    requires w == 1 || w == 3
    requires d != 0 && -9 <= d <= 9
    ensures (d * w) % 10 != 0
  {
  }

  lemma NoMultipleOfEleven(w: int, d: int)
    requires 1 <= w <= 10 && d != 0 && -10 <= d <= 10
    ensures (d * w) % 11 != 0
  {
    if w <= 5 {
      if w == 1 { } else if w == 2 { } else if w == 3 { } else if w == 4 { } else { }
    } else {
      if w == 6 { } else if w == 7 { } else if w == 8 { } else if w == 9 { } else { }
    }
  }

  lemma ModuloShift(a: int, d: int, m: int)
    requires m == 10 || m == 11
    requires a % m == 0
    ensures (a + d) % m == 0 <==> d % m == 0
  {
    if m == 10 { } else { }
  }

  /** Changing any one digit of a valid ISBN-13 invalidates it. */
  lemma OneDigitWrong13(s: string, k: nat, c: char)
    requires IsValid13(s) && k < 13 && c != s[k]
    ensures !IsValid13(s[k := c])
  {
    var t := s[k := c];
    assert t[k] == c;
    if IsValid13(t) {
      Checked13(s);
      Checked13(t);
      TotalAfterChange(Thirteen, s, k, c);
      WorthIsInjective(c, s[k]);
      NoMultipleOfTen(Thirteen.Weight(k), Worth(c) - Worth(s[k]));
      ModuloShift(Total(Thirteen, s), (Worth(c) - Worth(s[k])) * Thirteen.Weight(k), 10);
      assert false;
    }
  }

  /** Changing any one character of a valid ISBN-10 invalidates it. */
  lemma OneCharacterWrong10(s: string, k: nat, c: char)
    requires IsValid10(s) && k < 10 && c != s[k]
    ensures !IsValid10(s[k := c])
  {
    var t := s[k := c];
    assert t[k] == c;
    if IsValid10(t) {
      Checked10(s);
      Checked10(t);
      Weighed(s, k);
      Weighed(t, k);
      TotalAfterChange(Ten, s, k, c);
      WorthIsInjective(c, s[k]);
      NoMultipleOfEleven(Ten.Weight(k), Worth(c) - Worth(s[k]));
      ModuloShift(Total(Ten, s), (Worth(c) - Worth(s[k])) * Ten.Weight(k), 11);
      assert false;
    }
  }

  lemma Weighed(s: string, k: nat)
    requires IsValid10(s) && k < 10
    ensures Weighable(s) && (Digit(s[k]) || s[k] == 'X')
  {
    Checked10(s);
  }

  // ----- two characters swapped

  function Swapped(s: string, i: nat, j: nat): string
    requires i < |s| && j < |s|
  {
    s[i := s[j]][j := s[i]]
  }

  lemma TotalAfterSwap(scheme: Scheme, s: string, i: nat, j: nat)
    requires Weighable(s) && i < j < |s|
    ensures Weighable(Swapped(s, i, j))
    ensures Total(scheme, Swapped(s, i, j)) ==
      Total(scheme, s) + (Worth(s[j]) - Worth(s[i])) * (scheme.Weight(i) - scheme.Weight(j))
  {
    hide Total, Scheme.Weight;
    var t := s[i := s[j]];
    TotalAfterChange(scheme, s, i, s[j]);
    TotalAfterChange(scheme, t, j, s[i]);
    Distribute(Worth(s[i]), Worth(s[j]), scheme.Weight(i), scheme.Weight(j));
  }

  lemma Distribute(a: int, b: int, v: int, w: int)
    ensures (b - a) * v + (a - b) * w == (b - a) * (v - w)
  {
  }

  /** Swapping any two different characters of a valid ISBN-10 invalidates it. */
  lemma SwapWrong10(s: string, i: nat, j: nat)
    requires IsValid10(s) && i < j < 10 && s[i] != s[j]
    ensures !IsValid10(Swapped(s, i, j))
  {
    var t := Swapped(s, i, j);
    if IsValid10(t) {
      Checked10(s);
      Checked10(t);
      Weighed(s, i);
      Weighed(s, j);
      TotalAfterSwap(Ten, s, i, j);
      WorthIsInjective(s[i], s[j]);
      NoMultipleOfEleven(j - i, Worth(s[j]) - Worth(s[i]));
      ModuloShift(Total(Ten, s), (Worth(s[j]) - Worth(s[i])) * (j - i), 11);
      assert false;
    }
  }

  /**
   * An ISBN-13 does not catch every swap of neighbours: with the prefix left alone, the swap
   * passes exactly when the two digits are equal or differ by five.
   */
  lemma NeighbourSwap13(s: string, i: nat)
    requires IsValid13(s) && 4 <= i < 12
    ensures var d := Worth(s[i + 1]) - Worth(s[i]);
      IsValid13(Swapped(s, i, i + 1)) <==> d == 0 || d == 5 || d == -5
  {
    var t := Swapped(s, i, i + 1);
    var d := Worth(s[i + 1]) - Worth(s[i]);
    TotalAfterSwap(Thirteen, s, i, i + 1);
    Checked13(s);
    Checked13(t);
    SamePrefixes(s, t);
    hide Total;
    SwapShift(d, Thirteen.Weight(i) - Thirteen.Weight(i + 1));
    ModuloShift(Total(Thirteen, s), d * (Thirteen.Weight(i) - Thirteen.Weight(i + 1)), 10);
  }

  lemma SwapShift(d: int, v: int)
    requires -9 <= d <= 9 && (v == 2 || v == -2)
    ensures (d * v) % 10 == 0 <==> d == 0 || d == 5 || d == -5
  {
    if v == 2 { } else { }
  }

  lemma SamePrefixes(s: string, t: string)
    requires |s| == |t| == 13 && s[..4] == t[..4]
    ensures ISMN_PREFIX <= s <==> ISMN_PREFIX <= t
    ensures (exists p :: p in VALID_PREFIXES && p <= s) <==> (exists p :: p in VALID_PREFIXES && p <= t)
  {
    assert forall k :: 0 <= k < 4 ==> s[..4][k] == s[k] && t[..4][k] == t[k];
    forall p | p in VALID_PREFIXES || p == ISMN_PREFIX ensures p <= s <==> p <= t {
      assert |p| <= 4;
    }
  }

  // ----- conversion

  predicate Separator(c: char) {
    || c in " \t\n\r-"
    || c == '\U{000B}' || c == '\U{000C}' || '\U{001C}' <= c <= '\U{001F}' || c == '\U{0085}' || c == '\U{00A0}'
    || c == '\U{1680}' || '\U{2000}' <= c <= '\U{200A}' || '\U{2010}' <= c <= '\U{2015}'
    || c == '\U{2028}' || c == '\U{2029}' || c == '\U{202F}' || c == '\U{205F}' || c == '\U{3000}'
  }

  /** The separators publishers print go; of the letters only an x can end up in an ISBN. */
  function Clean(s: string): string {
    if s == "" then ""
    else (if Separator(s[0]) then "" else if s[0] == 'x' then "X" else [s[0]]) + Clean(s[1..])
  }

  function FromTen(s: string): string
    requires IsValid10(s)
  {
    var body := "978" + s[..9];
    assert Digits(body) by { assert forall i :: 3 <= i < 12 ==> body[i] == s[..9][i - 3]; }
    body + [DigitFor(CheckDigit13(body))]
  }

  function ToIsbn13(value: string): Option<string> {
    var candidate := Clean(value);
    if IsValid13(candidate) then Some(candidate)
    else if IsValid10(candidate) then Some(FromTen(candidate))
    else None
  }

  lemma FromTenIsValid(s: string)
    requires IsValid10(s)
    ensures IsValid13(FromTen(s)) && FromTen(s)[3..12] == s[..9] && "978" <= FromTen(s)
  {
    var t := FromTen(s);
    assert t[..12] == "978" + s[..9];
    assert Digits(t) by { assert forall i :: 3 <= i < 12 ==> t[i] == s[..9][i - 3]; }
    assert "978" in VALID_PREFIXES && "978" <= t;
    assert t[2] == '8' && ISMN_PREFIX[2] == '9';
  }

  lemma {:induction false} DigitsAreClean(s: string)
    requires Digits(s)
    ensures Clean(s) == s
  {
    if s != "" {
      assert Digit(s[0]);
      DigitsAreClean(s[1..]);
    }
  }

  /** Only valid ISBN-13s come out, and they convert to themselves. */
  lemma ConversionIsIdempotent(value: string)
    requires ToIsbn13(value).Some?
    ensures IsValid13(ToIsbn13(value).value)
    ensures ToIsbn13(ToIsbn13(value).value) == ToIsbn13(value)
  {
    var candidate := Clean(value);
    if !IsValid13(candidate) {
      FromTenIsValid(candidate);
    }
    DigitsAreClean(ToIsbn13(value).value);
  }

  /** Two valid ISBN-10s that convert alike are the same. */
  lemma FromTenIsInjective(s: string, t: string)
    requires IsValid10(s) && IsValid10(t) && FromTen(s) == FromTen(t)
    ensures s == t
  {
    FromTenIsValid(s);
    FromTenIsValid(t);
    assert s == s[..9] + [s[9]] && t == t[..9] + [t[9]];
  }

  /** Every valid ISBN-13 under 978 is some ISBN-10's. */
  lemma FromTenIsOnto(w: string) returns (s: string)
    requires IsValid13(w) && "978" <= w
    ensures IsValid10(s) && FromTen(s) == w
  {
    var nine := w[3..12];
    assert Digits(nine) by { assert forall i :: 0 <= i < 9 ==> nine[i] == w[i + 3]; }
    s := nine + [CheckDigit10(nine)];
    assert s[..9] == nine;
    assert "978" == w[..3] && w[..12] == "978" + nine;
    assert w == w[..12] + [w[12]];
    WorthIsInjective(w[12], DigitFor(CheckDigit13(w[..12])));
  }

  // ----- choosing one for a record

  function Converted(candidates: seq<string>): set<string> {
    set c | c in candidates && ToIsbn13(c).Some? :: ToIsbn13(c).value
  }

  function SelectCanonical(candidates: seq<string>): Option<string> {
    var valid := Converted(candidates);
    if valid == {} || |valid| > MAX_CANDIDATES_FOR_IDENTITY then None
    else
      LexIsTotalOrder();
      Some(Least(valid, LexLe))
  }

  /**
   * The choice is one of the valid conversions and the least of them, and it depends on nothing
   * but the set of them: not on order, repetition, or which form an ISBN was given in.
   */
  lemma ChoiceDependsOnConversions(xs: seq<string>, ys: seq<string>)
    ensures Converted(xs) == Converted(ys) ==> SelectCanonical(xs) == SelectCanonical(ys)
    ensures SelectCanonical(xs).Some? <==> 1 <= |Converted(xs)| <= 8
    ensures SelectCanonical(xs).Some? ==>
      var chosen := SelectCanonical(xs).value;
      chosen in Converted(xs) && IsValid13(chosen) && forall v :: v in Converted(xs) ==> LexLe(chosen, v)
  {
    LexIsTotalOrder();
    if SelectCanonical(xs).Some? {
      var chosen := SelectCanonical(xs).value;
      var c :| c in xs && ToIsbn13(c).Some? && ToIsbn13(c).value == chosen;
      ConversionIsIdempotent(c);
    }
  }

  // ----- the sums written out

  lemma {:induction false} TotalOfPair(scheme: Scheme, s: string, n: nat)
    requires Weighable(s) && n < |s|
    ensures Weighable(s[..n + 1]) && Weighable(s[..n])
    ensures Total(scheme, s[..n + 1]) == Total(scheme, s[..n]) + Worth(s[n]) * scheme.Weight(n)
  {
    assert s[..n + 1][..n] == s[..n];
  }

  lemma TotalOfTwelve(s: string)
    requires |s| >= 12 && Digits(s)
    ensures Total(Thirteen, s[..12]) ==
      Worth(s[0]) + 3 * Worth(s[1]) + Worth(s[2]) + 3 * Worth(s[3]) + Worth(s[4]) + 3 * Worth(s[5])
      + Worth(s[6]) + 3 * Worth(s[7]) + Worth(s[8]) + 3 * Worth(s[9]) + Worth(s[10]) + 3 * Worth(s[11])
  {
    hide Worth, Total;
    TotalOfNone(Thirteen, s);
    TotalOfPair(Thirteen, s, 0);
    TotalOfPair(Thirteen, s, 1);
    TotalOfPair(Thirteen, s, 2);
    TotalOfPair(Thirteen, s, 3);
    TotalOfPair(Thirteen, s, 4);
    TotalOfPair(Thirteen, s, 5);
    TotalOfPair(Thirteen, s, 6);
    TotalOfPair(Thirteen, s, 7);
    TotalOfPair(Thirteen, s, 8);
    TotalOfPair(Thirteen, s, 9);
    TotalOfPair(Thirteen, s, 10);
    TotalOfPair(Thirteen, s, 11);
  }

  lemma TotalOfNone(scheme: Scheme, s: string)
    ensures Total(scheme, s[..0]) == 0
  {
  }

  lemma TotalOfNine(s: string)
    requires |s| >= 9 && Digits(s[..9])
    ensures forall i :: 0 <= i < 9 ==> Digit(s[i])
    ensures Total(Ten, s[..9]) ==
      10 * Worth(s[0]) + 9 * Worth(s[1]) + 8 * Worth(s[2]) + 7 * Worth(s[3]) + 6 * Worth(s[4])
      + 5 * Worth(s[5]) + 4 * Worth(s[6]) + 3 * Worth(s[7]) + 2 * Worth(s[8])
  {
    var t := s[..9];
    assert forall i :: 0 <= i < 9 ==> t[i] == s[i];
    assert t[..9] == t;
    TotalOfNineDigits(t);
    hide Worth, Total;
  }

  lemma TotalOfNineDigits(t: string)
    requires |t| == 9 && Digits(t)
    ensures Total(Ten, t[..9]) ==
      10 * Worth(t[0]) + 9 * Worth(t[1]) + 8 * Worth(t[2]) + 7 * Worth(t[3]) + 6 * Worth(t[4])
      + 5 * Worth(t[5]) + 4 * Worth(t[6]) + 3 * Worth(t[7]) + 2 * Worth(t[8])
  {
    hide Worth, Total;
    TotalOfNone(Ten, t);
    TotalOfPair(Ten, t, 0);
    TotalOfPair(Ten, t, 1);
    TotalOfPair(Ten, t, 2);
    TotalOfPair(Ten, t, 3);
    TotalOfPair(Ten, t, 4);
    TotalOfPair(Ten, t, 5);
    TotalOfPair(Ten, t, 6);
    TotalOfPair(Ten, t, 7);
    TotalOfPair(Ten, t, 8);
  }

  /** A digit's worth is the number it writes. */
  lemma WorthIs(c: char)
    requires Digit(c) || c == 'X'
    ensures Worth(c) == match c
      case '0' => 0 case '1' => 1 case '2' => 2 case '3' => 3 case '4' => 4 case '5' => 5
      case '6' => 6 case '7' => 7 case '8' => 8 case '9' => 9 case _ => 10
  {
  }

  /** Thirteen digits under 978 or 979, music apart, whose sum with every second one tripled is a multiple of ten. */
  lemma Valid13ExactlyWhen(s: string)
    ensures IsValid13(s) <==>
      && |s| == 13 && Digits(s)
      && (s[..3] == "978" || (s[..3] == "979" && s[3] != '0'))
      && (Worth(s[0]) + 3 * Worth(s[1]) + Worth(s[2]) + 3 * Worth(s[3]) + Worth(s[4]) + 3 * Worth(s[5])
          + Worth(s[6]) + 3 * Worth(s[7]) + Worth(s[8]) + 3 * Worth(s[9]) + Worth(s[10]) + 3 * Worth(s[11])
          + Worth(s[12])) % 10 == 0
  {
    if |s| == 13 && Digits(s) {
      Prefixed(s);
      TotalOfTwelve(s);
      hide Total, Worth;
      TensComplement(Total(Thirteen, s[..12]), Worth(s[12]));
    }
  }

  lemma Prefixed(s: string)
    requires |s| == 13
    ensures (exists p :: p in VALID_PREFIXES && p <= s) && !(ISMN_PREFIX <= s) <==>
      s[..3] == "978" || (s[..3] == "979" && s[3] != '0')
  {
    ByPrefix(s, "978");
    ByPrefix(s, "979");
    ByPrefix(s, ISMN_PREFIX);
    assert VALID_PREFIXES[0] == "978" && VALID_PREFIXES[1] == "979";
    assert forall p :: p in VALID_PREFIXES <==> p == "978" || p == "979";
    assert "978" in VALID_PREFIXES && "979" in VALID_PREFIXES;
    if s[..3] == "978" {
      assert "978" <= s;
    } else if s[..3] == "979" {
      assert "979" <= s;
    }
    assert s[..4] == s[..3] + [s[3]] && ISMN_PREFIX == "979" + ['0'];
    if s[..4] == ISMN_PREFIX {
      assert s[..4][..3] == "979" && s[..4][3] == '0';
    }
    if s[..3] == "978" {
      assert s[..3][2] == s[..4][2] && "978"[2] != ISMN_PREFIX[2];
    }
  }

  lemma ByPrefix(s: string, p: string)
    requires |p| <= |s|
    ensures p <= s <==> s[..|p|] == p
  {
  }

  /** Nine digits and a digit or an X, whose sum with weights ten down to one is a multiple of eleven. */
  lemma Valid10ExactlyWhen(s: string)
    ensures IsValid10(s) <==>
      && |s| == 10 && (forall i :: 0 <= i < 9 ==> Digit(s[i])) && (Digit(s[9]) || s[9] == 'X')
      && (10 * Worth(s[0]) + 9 * Worth(s[1]) + 8 * Worth(s[2]) + 7 * Worth(s[3]) + 6 * Worth(s[4])
          + 5 * Worth(s[5]) + 4 * Worth(s[6]) + 3 * Worth(s[7]) + 2 * Worth(s[8]) + Worth(s[9])) % 11 == 0
  {
    if |s| == 10 {
      assert forall i :: 0 <= i < 9 ==> s[..9][i] == s[i];
      assert Digits(s[..9]) <==> forall i :: 0 <= i < 9 ==> Digit(s[i]);
      if Digits(s[..9]) && (Digit(s[9]) || s[9] == 'X') {
        TotalOfNine(s);
        WorthIsInjective(s[9], CheckDigit10(s[..9]));
        hide Total, Worth;
        ElevensComplement(Total(Ten, s[..9]), Worth(s[9]));
      }
    }
  }

  /** An ISBN-10 becomes 978, its nine digits, and whatever digit makes the thirteen valid. */
  lemma ConvertsExactly(s: string, w: string)
    requires IsValid10(s)
    ensures FromTen(s) == w <==> IsValid13(w) && w[..3] == "978" && w[3..12] == s[..9]
  {
    FromTenIsValid(s);
    assert FromTen(s)[..3] == "978";
    if IsValid13(w) && w[..3] == "978" && w[3..12] == s[..9] {
      assert w[..12] == w[..3] + w[3..12];
      assert FromTen(s)[..12] == FromTen(s)[..3] + FromTen(s)[3..12];
      WorthIsInjective(w[12], FromTen(s)[12]);
      assert w == w[..12] + [w[12]] && FromTen(s) == FromTen(s)[..12] + [FromTen(s)[12]];
    }
  }

  // ----- the form it is printed in

  lemma {:induction false} CleanJoins(s: string, t: string)
    ensures Clean(s + t) == Clean(s) + Clean(t)
  {
    if s == "" {
      assert s + t == t;
    } else {
      assert (s + t)[1..] == s[1..] + t;
      CleanJoins(s[1..], t);
    }
  }

  lemma CleanAround(s: string, i: nat, c: char)
    requires i <= |s|
    ensures Clean(s[..i] + [c] + s[i..]) == Clean(s[..i]) + Clean([c]) + Clean(s[i..])
  {
    CleanJoins(s[..i] + [c], s[i..]);
    CleanJoins(s[..i], [c]);
  }

  lemma CleanOne(c: char)
    ensures c == '-' || c == ' ' || '\U{2010}' <= c <= '\U{2015}' ==> Clean([c]) == ""
    ensures Clean("x") == "X" == Clean("X")
  {
    assert [c][1..] == "" && "x"[1..] == "" && "X"[1..] == "";
  }

  /** Hyphens, spaces and dashes anywhere make no difference, nor does a small x. */
  lemma PrintingDoesNotMatter(s: string, i: nat, c: char)
    requires i <= |s|
    ensures c == '-' || c == ' ' || '\U{2010}' <= c <= '\U{2015}' ==> ToIsbn13(s[..i] + [c] + s[i..]) == ToIsbn13(s)
    ensures ToIsbn13(s[..i] + "x" + s[i..]) == ToIsbn13(s[..i] + "X" + s[i..])
  {
    assert s == s[..i] + s[i..] && "x" == ['x'] && "X" == ['X'];
    hide *;
    CleanJoins(s[..i], s[i..]);
    CleanAround(s, i, c);
    CleanAround(s, i, 'x');
    CleanAround(s, i, 'X');
    CleanOne(c);
    NothingBetween(Clean(s[..i]), Clean(s[i..]));
    ReadClean(s[..i] + [c] + s[i..], s);
    ReadClean(s[..i] + "x" + s[i..], s[..i] + "X" + s[i..]);
  }

  lemma NothingBetween(s: string, t: string)
    ensures s + "" + t == s + t
  {
  }

  lemma ReadClean(s: string, t: string)
    ensures Clean(s) == Clean(t) ==> ToIsbn13(s) == ToIsbn13(t)
  {
    hide Clean, FromTen, IsValid13, IsValid10;
  }

  /** A string of digits, or of nine and an X, is read as it stands. */
  lemma ReadAsPrinted(s: string)
    requires IsValid13(s) || IsValid10(s)
    ensures ToIsbn13(s) == Some(if IsValid13(s) then s else FromTen(s))
  {
    if IsValid13(s) {
      DigitsAreClean(s);
    } else {
      DigitsAreClean(s[..9]);
      CleanJoins(s[..9], s[9..]);
      assert s == s[..9] + s[9..] && s[9..] == [s[9]];
      assert Clean([s[9]]) == [s[9]] by { assert [s[9]][1..] == ""; }
    }
  }
}
