// Text that both tools print: C word characters, ASCII upper-casing, and
// numerals in base ten and sixteen together with the reader that inverts them.
module Text {

  datatype Option<+T> = None | Some(value: T)

  // ----- C words -----

  predicate IsWordChar(c: char) {
    'a' <= c <= 'z' || 'A' <= c <= 'Z' || '0' <= c <= '9' || c == '_'
  }

  ghost predicate AllWordChars(s: string) {
    forall i :: 0 <= i < |s| ==> IsWordChar(s[i])
  }

  ghost predicate IsWordText(s: string) {
    s != "" && AllWordChars(s)
  }

  function UpperChar(c: char): char {
    if 'a' <= c <= 'z' then (c as int - 32) as char else c
  }

  /** ASCII upper-casing, which is Python's `upper` on C identifier text. */
  function Upper(s: string): string {
    seq(|s|, i requires 0 <= i < |s| => UpperChar(s[i]))
  }

  const LOWER_CASE: string := "abcdefghijklmnopqrstuvwxyz"
  const UPPER_CASE: string := "ABCDEFGHIJKLMNOPQRSTUVWXYZ"

  /** Upper-casing a letter gives the letter at the same place of the other alphabet, and leaves all else alone. */
  lemma UpperCharIs(c: char)
    ensures forall k :: 0 <= k < 26 && c == LOWER_CASE[k] ==> UpperChar(c) == UPPER_CASE[k]
    ensures c !in LOWER_CASE ==> UpperChar(c) == c
    ensures UpperChar(c) !in LOWER_CASE
  {
    Alphabets();
    if 'a' <= c <= 'z' {
      var k := c as int - 'a' as int;
      assert LOWER_CASE[k] == c;
    }
  }

  lemma Alphabets()
    ensures forall k :: 0 <= k < 26 ==> LOWER_CASE[k] as int == 'a' as int + k && UPPER_CASE[k] as int == 'A' as int + k
  {
  }

  /** Equal, or the same letter in either case. */
  ghost predicate SameButCase(c: char, d: char) {
    c == d || exists k :: 0 <= k < 26 && c in [LOWER_CASE[k], UPPER_CASE[k]] && d in [LOWER_CASE[k], UPPER_CASE[k]]
  }

  lemma UpperCharIff(c: char, d: char)
    ensures UpperChar(c) == UpperChar(d) <==> SameButCase(c, d)
  {
    Alphabets();
    if UpperChar(c) == UpperChar(d) && c != d {
      var k := UpperChar(c) as int - 'A' as int;
      assert 0 <= k < 26 && c in [LOWER_CASE[k], UPPER_CASE[k]] && d in [LOWER_CASE[k], UPPER_CASE[k]];
    }
  }

  /** Exactly when two texts have the same upper-case form: they agree up to the case of letters. */
  lemma UpperIff(s: string, t: string)
    ensures |Upper(s)| == |s| && forall i :: 0 <= i < |s| ==> Upper(s)[i] == UpperChar(s[i])
    ensures Upper(s) == Upper(t) <==> |s| == |t| && forall i :: 0 <= i < |s| ==> SameButCase(s[i], t[i])
  {
    if |s| == |t| {
      forall i | 0 <= i < |s|
        ensures Upper(s)[i] == Upper(t)[i] <==> SameButCase(s[i], t[i])
      {
        UpperCharIff(s[i], t[i]);
      }
    }
    if Upper(s) == Upper(t) {
      assert |s| == |Upper(s)| == |Upper(t)| == |t|;
      forall i | 0 <= i < |s|
        ensures SameButCase(s[i], t[i])
      {
        assert Upper(s)[i] == Upper(t)[i];
      }
    }
  }

  lemma UpperKeepsWords(s: string)
    requires AllWordChars(s)
    ensures AllWordChars(Upper(s))
  {
  }

  // ----- numerals -----

  predicate IsBase(base: nat) {
    base == 10 || base == 16
  }

  function DigitChar(d: nat): char
    requires d < 16
  {
    if d < 10 then ('0' as int + d) as char else ('a' as int + (d - 10)) as char
  }

  function DigitValue(c: char): Option<nat> {
    if '0' <= c <= '9' then Some(c as int - '0' as int)
    else if 'a' <= c <= 'f' then Some(c as int - 'a' as int + 10)
    else None
  }

  /** The shortest numeral of n: no leading zero unless n is 0. */
  function Numeral(base: nat, n: nat): (s: string)
    requires IsBase(base)
    ensures s != "" && AllWordChars(s)
    decreases n
  {
    if n < base then [DigitChar(n)] else Numeral(base, n / base) + [DigitChar(n % base)]
  }

  function ReadNumeral(base: nat, s: string): Option<nat>
    requires IsBase(base)
    decreases |s|
  {
    if s == "" then None
    else
      var last := DigitValue(s[|s| - 1]);
      if last.None? || last.value >= base then None
      else if |s| == 1 then last
      else
        var front := ReadNumeral(base, s[..|s| - 1]);
        if front.None? then None else Some(front.value * base + last.value)
  }

  function Decimal(n: nat): string {
    Numeral(10, n)
  }

  function ReadDecimal(s: string): Option<nat> {
    ReadNumeral(10, s)
  }

  lemma {:induction false} NumeralRoundTrip(base: nat, n: nat)
    requires IsBase(base)
    ensures ReadNumeral(base, Numeral(base, n)) == Some(n)
    decreases n
  {
    if n >= base {
      NumeralRoundTrip(base, n / base);
      ReadNumeralSnoc(base, Numeral(base, n / base), n % base);
      QuotientAndDigit(base, n);
    }
  }

  lemma QuotientAndDigit(base: nat, n: nat)
    requires IsBase(base)
    ensures n / base * base + n % base == n
  {
    if base == 10 {
      assert n / 10 * 10 + n % 10 == n;
    } else {
      assert n / 16 * 16 + n % 16 == n;
    }
  }

  lemma ReadNumeralSnoc(base: nat, s: string, d: nat)
    requires IsBase(base) && d < base && s != ""
    ensures ReadNumeral(base, s + [DigitChar(d)]) ==
            if ReadNumeral(base, s).None? then None else Some(ReadNumeral(base, s).value * base + d)
  {
    var t := s + [DigitChar(d)];
    assert t[|t| - 1] == DigitChar(d) && t[..|t| - 1] == s;
  }

  lemma NumeralInjective(base: nat, a: nat, b: nat)
    requires IsBase(base)
    requires Numeral(base, a) == Numeral(base, b)
    ensures a == b
  {
    NumeralRoundTrip(base, a);
    NumeralRoundTrip(base, b);
  }

  /** A word that does not start with a decimal digit is not a number. */
  lemma {:induction false} LetterIsNoDecimal(s: string)
    requires s != "" && !('0' <= s[0] <= '9')
    ensures ReadDecimal(s) == None
    decreases |s|
  {
    if |s| > 1 {
      LetterIsNoDecimal(s[..|s| - 1]);
    }
  }

  // ----- what a numeral is -----

  const DIGITS: string := "0123456789abcdef"

  /** The place of a digit in that text; 16 for any other character. */
  function Place(c: char, from: nat): (k: nat)
    requires from <= 16
    ensures k <= 16
    decreases 16 - from
  {
    if from == 16 || DIGITS[from] == c then from else Place(c, from + 1)
  }

  /** The digits' places, each weighted by the power of the base that its position has. */
  function PlaceValue(base: nat, s: string): nat
    decreases |s|
  {
    if s == "" then 0 else PlaceValue(base, s[..|s| - 1]) * base + Place(s[|s| - 1], 0)
  }

  /** At least one digit of the base and nothing else, no leading zero unless alone, and this value. */
  ghost predicate IsNumeral(base: nat, s: string, n: nat) {
    && s != "" && (forall i :: 0 <= i < |s| ==> Place(s[i], 0) < base)
    && (|s| > 1 ==> s[0] != '0')
    && PlaceValue(base, s) == n
  }

  lemma DigitsAre()
    ensures forall d :: 0 <= d < 16 ==> DIGITS[d] == DigitChar(d)
  {
  }

  lemma {:induction false} PlaceOfDigit(d: nat, from: nat)
    requires from <= d < 16
    ensures Place(DigitChar(d), from) == d
    decreases d - from
  {
    DigitsAre();
    if from < d { PlaceOfDigit(d, from + 1); }
  }

  lemma {:induction false} LeadingDigit(base: nat, n: nat)
    requires IsBase(base)
    ensures Numeral(base, n)[0] == '0' ==> n == 0
    decreases n
  {
    if n >= base { LeadingDigit(base, n / base); }
  }

  /** The numeral of n is one, of n. */
  lemma {:induction false} NumeralIs(base: nat, n: nat)
    requires IsBase(base)
    ensures IsNumeral(base, Numeral(base, n), n)
    decreases n
  {
    if n < base {
      DigitIsNumeral(base, n);
    } else {
      NumeralIs(base, n / base);
      NumeralStep(base, n, n / base, n % base);
    }
  }

  lemma DigitIsNumeral(base: nat, d: nat)
    requires IsBase(base) && d < base
    ensures IsNumeral(base, [DigitChar(d)], d)
  {
    PlaceOfDigit(d, 0);
    assert [DigitChar(d)][..0] == "";
  }

  lemma NumeralStep(base: nat, n: nat, m: nat, d: nat)
    requires IsBase(base) && n >= base && m == n / base && d == n % base
    requires IsNumeral(base, Numeral(base, m), m)
    ensures IsNumeral(base, Numeral(base, n), n)
  {
    LeadingDigit(base, m);
    PlaceOfDigit(d, 0);
    QuotientAndDigit(base, n);
    NumeralSnoc(base, Numeral(base, m), m, d);
  }

  lemma NumeralSnoc(base: nat, front: string, m: nat, d: nat)
    requires IsBase(base) && IsNumeral(base, front, m) && m > 0 && d < base && front[0] != '0'
    requires Place(DigitChar(d), 0) == d
    ensures IsNumeral(base, front + [DigitChar(d)], m * base + d)
  {
    var s := front + [DigitChar(d)];
    assert s[..|s| - 1] == front && s[0] == front[0];
  }

  lemma Associate<T>(a: seq<T>, b: seq<T>, c: seq<T>)
    ensures a + (b + c) == a + b + c
  {
  }

  // ----- prefixes -----

  /** Dropping the last k digits of a numeral is dividing by the base k times. */
  function DropDigits(base: nat, n: nat, k: nat): nat
    requires IsBase(base)
    decreases k
  {
    if k == 0 then n else DropDigits(base, n / base, k - 1)
  }

  /** a is what remains of n after dropping some of its low digits, possibly none. */
  ghost predicate IsLeadingPart(base: nat, a: nat, n: nat)
    requires IsBase(base)
  {
    exists k: nat :: DropDigits(base, n, k) == a
  }

  lemma LeadingPartStep(base: nat, a: nat, n: nat)
    requires IsBase(base)
    ensures IsLeadingPart(base, a, n) <==> a == n || IsLeadingPart(base, a, n / base)
  {
    if IsLeadingPart(base, a, n) {
      var k: nat :| DropDigits(base, n, k) == a;
      if k > 0 {
        assert DropDigits(base, n / base, k - 1) == a;
      }
    }
    if a == n {
      assert DropDigits(base, n, 0) == a;
    }
    if IsLeadingPart(base, a, n / base) {
      var k: nat :| DropDigits(base, n / base, k) == a;
      assert DropDigits(base, n, k + 1) == a;
    }
  }

  /**
   * Exactly when one numeral is a prefix of another: the longer number, with some
   * of its low digits dropped, is the shorter one (and 0 is a prefix of 0 only).
   */
  lemma {:induction false} NumeralPrefix(base: nat, a: nat, b: nat)
    requires IsBase(base)
    ensures Numeral(base, a) <= Numeral(base, b) <==>
            a == b || (a != 0 && IsLeadingPart(base, a, b))
    decreases b
  {
    var na, nb := Numeral(base, a), Numeral(base, b);
    LeadingPartStep(base, a, b);
    if na == nb {
      NumeralInjective(base, a, b);
    }
    if b < base {
      ZeroLeadingPart(base, a);
      assert na <= nb ==> |na| == 1 && na == nb;
    } else {
      var front := Numeral(base, b / base);
      assert nb == front + [DigitChar(b % base)];
      assert na <= nb <==> na == nb || na <= front;
      NumeralPrefix(base, a, b / base);
      LeadingPartStep(base, a, b / base);
    }
  }

  lemma ZeroLeadingPart(base: nat, a: nat)
    requires IsBase(base)
    ensures IsLeadingPart(base, a, 0) <==> a == 0
  {
    if IsLeadingPart(base, a, 0) {
      var k: nat :| DropDigits(base, 0, k) == a;
      ZeroDigitsLeft(base, k);
    }
    assert DropDigits(base, 0, 0) == 0;
  }

  lemma {:induction false} ZeroDigitsLeft(base: nat, k: nat)
    requires IsBase(base)
    ensures DropDigits(base, 0, k) == 0
    decreases k
  {
    if k > 0 { ZeroDigitsLeft(base, k - 1); }
  }
}
