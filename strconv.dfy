/**
 * strconv.Atoi, which both services use to turn the configured port strings into the
 * integer port they register, on a platform where Go's `int` has 64 bits.
 */
module Strconv {

  const MaxInt64: int := 0x7fff_ffff_ffff_ffff
  const MinInt64: int := -0x8000_0000_0000_0000

  predicate IsDigit(c: char)
  {
    '0' <= c <= '9'
  }

  predicate AllDigits(s: string)
  {
    forall i :: 0 <= i < |s| ==> IsDigit(s[i])
  }

  /** The number a string of decimal digits denotes. */
  function DigitsValue(s: string): nat
    requires AllDigits(s)
  {
    if s == [] then 0 else DigitsValue(s[..|s| - 1]) * 10 + (s[|s| - 1] as int - '0' as int)
  }

  /** The part after an optional leading sign. */
  function Unsigned(s: string): string
  {
    if |s| > 0 && (s[0] == '+' || s[0] == '-') then s[1..] else s
  }

  /** Atoi's syntax: an optional sign followed by at least one decimal digit. */
  predicate WellFormed(s: string)
  {
    Unsigned(s) != [] && AllDigits(Unsigned(s))
  }

  /** The (unbounded) number a well-formed string denotes, sign included. */
  function SignedValue(s: string): int
    requires WellFormed(s)
  {
    var magnitude: int := DigitsValue(Unsigned(s));
    if s[0] == '-' then -magnitude else magnitude
  }

  const MaxUint64: int := 0xffff_ffff_ffff_ffff

  /**
   * The longest prefix made of decimal digits: it is a prefix, it holds only digits, and the
   * character after it, if any, is not a digit.
   */
  function DigitPrefix(s: string): (p: string)
    ensures p <= s && AllDigits(p)
    ensures |p| < |s| ==> !IsDigit(s[|p|])
    ensures AllDigits(s) ==> p == s
  {
    if s == [] || !IsDigit(s[0]) then [] else [s[0]] + DigitPrefix(s[1..])
  }

  /** How strconv.ParseUint's scan of a base-10, 64-bit number ends. */
  datatype Scan = SyntaxError | RangeError | Parsed(value: nat)

  /**
   * ParseUint's loop from position k on, with n the value of the digits before k. Each
   * character is checked in turn: a non-digit is a syntax error at once, and a digit that
   * takes the value past the uint64 range is a range error at once, whatever follows.
   */
  function ScanFrom(s: string, k: nat, n: nat): Scan
    requires k <= |s| && n <= MaxUint64
    decreases |s| - k
  {
    if k == |s| then Parsed(n)
    else if !IsDigit(s[k]) then SyntaxError
    else
      var next := n * 10 + (s[k] as int - '0' as int);
      if next > MaxUint64 then RangeError else ScanFrom(s, k + 1, next)
  }

  /** The value of a prefix of digits never decreases as the prefix grows. */
  lemma {:induction false} PrefixValueGrows(s: string, i: nat, j: nat)
    requires i <= j <= |s| && AllDigits(s[..j])
    ensures AllDigits(s[..i]) && DigitsValue(s[..i]) <= DigitsValue(s[..j])
  {
    if i < j {
      assert s[..j][..j - 1] == s[..j - 1];
      PrefixValueGrows(s, i, j - 1);
    }
  }

  /** One more digit: the prefix stays all digits and its value gains that digit at the end. */
  lemma ExtendDigits(s: string, k: nat)
    requires k < |s| && AllDigits(s[..k]) && IsDigit(s[k])
    ensures AllDigits(s[..k + 1])
    ensures DigitsValue(s[..k + 1]) == DigitsValue(s[..k]) * 10 + (s[k] as int - '0' as int)
  {
    assert s[..k + 1][..k] == s[..k];
    forall j | 0 <= j < k
      ensures IsDigit(s[j])
    {
      assert s[..k][j] == s[j];
    }
  }

  /** A prefix of digits lies within the longest one. */
  lemma WithinDigitPrefix(s: string, k: nat)
    requires k <= |s| && AllDigits(s[..k])
    ensures k <= |DigitPrefix(s)| && DigitPrefix(s) == s[..|DigitPrefix(s)|]
  {
  }

  /**
   * Where the scan ends is decided by the digit prefix alone: a range error exactly when its
   * value exceeds the uint64 range, otherwise the number when the whole text is digits and a
   * syntax error when it is not.
   */
  lemma {:induction false} ScanFromMeaning(s: string, k: nat, n: nat)
    requires k <= |s| && AllDigits(s[..k]) && n == DigitsValue(s[..k]) && n <= MaxUint64
    ensures ScanFrom(s, k, n)
      == if DigitsValue(DigitPrefix(s)) > MaxUint64 then RangeError
         else if AllDigits(s) then Parsed(DigitsValue(s))
         else SyntaxError
    decreases |s| - k
  {
    WithinDigitPrefix(s, k);
    if k == |s| {
      assert s[..k] == s;
    } else if !IsDigit(s[k]) {
      assert DigitPrefix(s) == s[..k];
    } else {
      var next := n * 10 + (s[k] as int - '0' as int);
      ExtendDigits(s, k);
      if next <= MaxUint64 {
        ScanFromMeaning(s, k + 1, next);
      } else {
        PrefixValueGrows(s, k + 1, |DigitPrefix(s)|);
      }
    }
  }

  /** strconv.ParseUint(s, 10, 64): an empty text is a syntax error, otherwise the scan decides. */
  function ParseUint(s: string): (r: Scan)
    ensures s == [] ==> r == SyntaxError
    ensures s != [] ==>
      r == if DigitsValue(DigitPrefix(s)) > MaxUint64 then RangeError
           else if AllDigits(s) then Parsed(DigitsValue(s))
           else SyntaxError
  {
    if s == [] then SyntaxError
    else
      assert s[..0] == [];
      ScanFromMeaning(s, 0, 0);
      ScanFrom(s, 0, 0)
  }

  /**
   * strconv.Atoi, through ParseInt: the value together with whether no error was reported.
   * After an optional sign the rest goes to ParseUint. A syntax error yields 0; a range error,
   * or a number beyond the int64 range, yields the int64 bound on the side of the sign.
   */
  function Atoi(s: string): (r: (int, bool))
    ensures MinInt64 <= r.0 <= MaxInt64
    ensures r.1 <==> WellFormed(s) && MinInt64 <= SignedValue(s) <= MaxInt64
    ensures r.1 ==> r.0 == SignedValue(s)
    ensures WellFormed(s) && SignedValue(s) > MaxInt64 ==> r == (MaxInt64, false)
    ensures WellFormed(s) && SignedValue(s) < MinInt64 ==> r == (MinInt64, false)
    ensures !WellFormed(s) ==>
      r == if DigitsValue(DigitPrefix(Unsigned(s))) <= MaxUint64 then (0, false)
           else if s[0] == '-' then (MinInt64, false)
           else (MaxInt64, false)
  {
    if s == [] then (0, false)
    else
      var negative := s[0] == '-';
      match ParseUint(Unsigned(s))
      case SyntaxError => (0, false)
      case RangeError => if negative then (MinInt64, false) else (MaxInt64, false)
      case Parsed(u) =>
        if !negative && u > MaxInt64 then (MaxInt64, false)
        else if negative && u > -MinInt64 then (MinInt64, false)
        else if negative then (-(u as int), true)
        else (u, true)
  }

  /**
   * Once the leading digits exceed the uint64 range the result is the int64 bound on the side
   * of the sign, whatever follows them: "99999999999999999999x" yields the largest int64.
   */
  lemma OverflowWins(s: string, i: nat)
    requires |s| > 0 && i <= |Unsigned(s)|
    requires AllDigits(Unsigned(s)[..i]) && DigitsValue(Unsigned(s)[..i]) > MaxUint64
    ensures Atoi(s) == (if s[0] == '-' then MinInt64 else MaxInt64, false)
  {
    var body := Unsigned(s);
    var p := DigitPrefix(body);
    assert i <= |p|;
    assert p == body[..|p|];
    PrefixValueGrows(body, i, |p|);
  }

  function Pow10(k: nat): nat
  {
    if k == 0 then 1 else 10 * Pow10(k - 1)
  }

  /** k decimal digits denote less than 10^k. */
  lemma {:induction false} DigitsValueBelow(s: string)
    requires AllDigits(s)
    ensures DigitsValue(s) < Pow10(|s|)
  {
    if s != [] {
      var init := s[..|s| - 1];
      assert AllDigits(init) by {
        forall j | 0 <= j < |init|
          ensures IsDigit(init[j])
        {
          assert init[j] == s[j];
        }
      }
      DigitsValueBelow(init);
    }
  }

  lemma {:induction false} Pow10Grows(i: nat, j: nat)
    requires i <= j
    ensures Pow10(i) <= Pow10(j)
  {
    if i < j {
      Pow10Grows(i, j - 1);
    }
  }

  /** Digit prefixes of at most 19 digits stay within the uint64 range. */
  lemma ShortPrefixFits(s: string)
    requires |DigitPrefix(s)| <= 19
    ensures DigitsValue(DigitPrefix(s)) <= MaxUint64
  {
    DigitsValueBelow(DigitPrefix(s));
    Pow10Grows(|DigitPrefix(s)|, 19);
    assert Pow10(8) == 100_000_000;
    assert Pow10(16) == 10_000_000_000_000_000;
    assert Pow10(19) == 10_000_000_000_000_000_000;
  }

  function Digit(d: nat): char
    requires d < 10
  {
    ('0' as int + d) as char
  }

  /** The decimal rendering of a natural number (strconv.Itoa on non-negative values). */
  function Itoa(n: nat): string
  {
    if n < 10 then [Digit(n)] else Itoa(n / 10) + [Digit(n % 10)]
  }

  lemma {:induction false} ItoaDigits(n: nat)
    ensures Itoa(n) != [] && AllDigits(Itoa(n)) && DigitsValue(Itoa(n)) == n
  {
    if n >= 10 {
      ItoaDigits(n / 10);
      var s := Itoa(n);
      assert s[..|s| - 1] == Itoa(n / 10);
    }
  }

  /** Every port written in decimal without a sign parses back to itself without error. */
  lemma AtoiItoa(n: nat)
    requires n <= MaxInt64
    ensures Atoi(Itoa(n)) == (n, true)
  {
    ItoaDigits(n);
    assert Unsigned(Itoa(n)) == Itoa(n);
  }

  /**
   * Go answers texts of 1 to 18 bytes on a fast path with no range check: an optional sign,
   * then digits accumulated into the value, and a syntax error (value 0) at the first
   * non-digit or for a sign alone. On such texts the general scan gives the same answers.
   */
  lemma FastPathAgrees(s: string)
    requires |s| < 19
    ensures Atoi(s) == if WellFormed(s) then (SignedValue(s), true) else (0, false)
  {
    var p := DigitPrefix(Unsigned(s));
    ShortPrefixFits(Unsigned(s));
    if WellFormed(s) {
      assert p == Unsigned(s);
      DigitsValueBelow(p);
      Pow10Grows(|p|, 18);
      assert Pow10(8) == 100_000_000;
      assert Pow10(16) == 10_000_000_000_000_000;
      assert Pow10(18) == 1_000_000_000_000_000_000;
    }
  }

  /**
   * A port text with a non-digit among its first 20 bytes (after the first) parses as 0 with
   * an error: the digits before it are too few to overflow, so the scan reaches it.
   */
  lemma NonNumericIsZero(s: string, i: nat)
    requires 0 < i < |s| && i <= 19 && !IsDigit(s[i])
    ensures Atoi(s) == (0, false)
  {
    var body := Unsigned(s);
    var j := if s[0] == '+' || s[0] == '-' then i - 1 else i;
    assert body[j] == s[i];
    var p := DigitPrefix(body);
    assert |p| <= j;
    ShortPrefixFits(body);
  }
}
