/** Character-level helpers shared by the command engine and the clock parser:
    stripping line endings (Python's `str.rstrip("\r\n")`), ASCII digits and
    the `%0<width>d` integer rendering. */
module LineText {

  /** The characters `rstrip("\r\n")` removes from the end of a line. */
  predicate IsLineEnd(c: char) {
    c == '\r' || c == '\n'
  }

  /** True when `s` ends in CR or LF. */
  predicate EndsInLineEnd(s: string) {
    |s| > 0 && IsLineEnd(s[|s| - 1])
  }

  /** `s.rstrip("\r\n")`: the longest prefix of `s` that does not end in CR or LF
      and is followed only by CR and LF characters. */
  function StripLineEnd(s: string): (r: string)
    ensures |r| <= |s| && r == s[..|r|]
    ensures !EndsInLineEnd(r)
    ensures forall i :: |r| <= i < |s| ==> IsLineEnd(s[i])
    decreases |s|
  {
    if EndsInLineEnd(s) then StripLineEnd(s[..|s| - 1]) else s
  }

  /** The three ensures of StripLineEnd pin its result down: any prefix with
      those properties is the stripped line. */
  lemma StripLineEndUnique(s: string, t: string)
    requires |t| <= |s| && t == s[..|t|]
    requires !EndsInLineEnd(t)
    requires forall i :: |t| <= i < |s| ==> IsLineEnd(s[i])
    ensures StripLineEnd(s) == t
  {
  }

  /** Appending CR/LF to a line and stripping it again gives back the
      stripped line; for a line without trailing CR/LF, the line itself. */
  lemma StripLineEndOfCrLf(s: string)
    ensures StripLineEnd(s + "\r\n") == StripLineEnd(s)
    ensures !EndsInLineEnd(s) ==> StripLineEnd(s + "\r\n") == s
  {
    var t := StripLineEnd(s);
    var u := s + "\r\n";
    assert u[..|s|] == s;
    assert t == u[..|t|];
    StripLineEndUnique(u, t);
    if !EndsInLineEnd(s) {
      StripLineEndUnique(s, s);
    }
  }

  predicate IsDigit(c: char) {
    '0' <= c <= '9'
  }

  predicate AllDigits(s: string) {
    forall i :: 0 <= i < |s| ==> IsDigit(s[i])
  }

  function DigitValue(c: char): (d: nat)
    requires IsDigit(c)
    ensures d < 10
  {
    c as int - '0' as int
  }

  function DigitChar(d: nat): (c: char)
    requires d < 10
    ensures IsDigit(c) && DigitValue(c) == d
  {
    (d + '0' as int) as char
  }

  /** 10 to the power `k`. */
  function Pow10(k: nat): (p: nat)
    ensures p >= 1
  {
    if k == 0 then 1 else 10 * Pow10(k - 1)
  }

  /** Python's `int(s)` on a string of ASCII digits: a value with at most
      `|s|` decimal digits. */
  function ValueOf(s: string): (v: nat)
    requires AllDigits(s)
    ensures v < Pow10(|s|)
    decreases |s|
  {
    if s == [] then 0 else 10 * ValueOf(s[..|s| - 1]) + DigitValue(s[|s| - 1])
  }

  /** `str(n)` for a non-negative integer: decimal digits, no leading zero. */
  function Decimal(n: nat): (s: string)
    ensures |s| > 0 && AllDigits(s)
    ensures ValueOf(s) == n
    ensures |s| > 1 ==> s[0] != '0'
    decreases n
  {
    if n < 10 then [DigitChar(n)]
    else
      var h := Decimal(n / 10);
      var s := h + [DigitChar(n % 10)];
      assert s[..|s| - 1] == h;
      s
  }

  function Zeros(k: nat): (s: string)
    ensures |s| == k && forall i :: 0 <= i < k ==> s[i] == '0'
  {
    seq(k, _ => '0')
  }

  /** Zeros in front of a digit string do not change its value. */
  lemma {:induction false} ValueOfLeadingZeros(k: nat, d: string)
    requires AllDigits(d)
    ensures AllDigits(Zeros(k) + d) && ValueOf(Zeros(k) + d) == ValueOf(d)
    decreases k + |d|
  {
    var z := Zeros(k) + d;
    if d == [] {
      assert z == Zeros(k);
      if k > 0 {
        assert z[..k - 1] == Zeros(k - 1) + [];
        ValueOfLeadingZeros(k - 1, []);
      }
    } else {
      assert z[..|z| - 1] == Zeros(k) + d[..|d| - 1];
      ValueOfLeadingZeros(k, d[..|d| - 1]);
    }
  }

  /** Python's `"%0<width>d" % n`: the sign, then the decimal digits left-padded
      with zeros so that the whole is at least `width` characters wide. The
      digits read back as the magnitude of `n`. */
  function PadDecimal(n: int, width: nat): (s: string)
    ensures |s| >= width
    ensures n >= 0 ==> AllDigits(s) && ValueOf(s) == n
    ensures n < 0 ==> |s| >= 2 && s[0] == '-' && AllDigits(s[1..]) && ValueOf(s[1..]) == -n
  {
    if n >= 0 then
      var d := Decimal(n);
      var z := if |d| < width then width - |d| else 0;
      ValueOfLeadingZeros(z, d);
      Zeros(z) + d
    else
      var d := Decimal(-n);
      var z := if |d| + 1 < width then width - 1 - |d| else 0;
      ValueOfLeadingZeros(z, d);
      var s := "-" + (Zeros(z) + d);
      assert s[1..] == Zeros(z) + d;
      s
  }

  /** Rendering a value below 100 with width 2 gives its two decimal digits,
      and reading them back gives the value. */
  lemma {:induction false} PadTwoDigits(n: nat)
    requires n < 100
    ensures PadDecimal(n, 2) == [DigitChar(n / 10), DigitChar(n % 10)]
    ensures ValueOf(PadDecimal(n, 2)) == n
  {
    var s := PadDecimal(n, 2);
    if n < 10 {
      assert Decimal(n) == [DigitChar(n)];
      assert s == Zeros(1) + [DigitChar(n)];
    } else {
      assert Decimal(n / 10) == [DigitChar(n / 10)];
      assert Decimal(n) == [DigitChar(n / 10)] + [DigitChar(n % 10)];
    }
    assert s[..1] == [DigitChar(n / 10)];
  }

  /** A two-digit group rendered back with `%02d` is the group itself. */
  lemma {:induction false} PadOfPair(s: string)
    requires |s| == 2 && AllDigits(s)
    ensures ValueOf(s) == 10 * DigitValue(s[0]) + DigitValue(s[1])
    ensures PadDecimal(ValueOf(s), 2) == s
  {
    assert s[..1][..0] == [];
    var v := 10 * DigitValue(s[0]) + DigitValue(s[1]);
    assert ValueOf(s[..1]) == DigitValue(s[0]);
    PadTwoDigits(v);
    assert v / 10 == DigitValue(s[0]) && v % 10 == DigitValue(s[1]);
    assert DigitChar(DigitValue(s[0])) == s[0];
    assert DigitChar(DigitValue(s[1])) == s[1];
  }

  /** A year 1900 + YY rendered with `%04d` is "19" followed by the group YY. */
  lemma {:induction false} PadCenturyYear(s: string)
    requires |s| == 2 && AllDigits(s)
    ensures PadDecimal(1900 + ValueOf(s), 4) == "19" + s
  {
    PadOfPair(s);
    var v := ValueOf(s);
    var n := 1900 + v;
    assert n / 10 == 190 + v / 10 && n % 10 == v % 10;
    assert (190 + v / 10) / 10 == 19 && (190 + v / 10) % 10 == v / 10;
    assert Decimal(19) == "19";
    assert Decimal(190 + v / 10) == "19" + [DigitChar(v / 10)];
    assert Decimal(n) == "19" + [DigitChar(v / 10)] + [DigitChar(v % 10)];
    PadTwoDigits(v);
    assert s == [DigitChar(v / 10), DigitChar(v % 10)];
  }
}

/** The exceptions the modem code raises, as values. */
module Results {

  datatype Failure =
    | CommandFailed(command: string)   // the modem answered ERROR to `command`
    | MissingLine(count: nat)          // `lines[1]` on a response of `count` < 2 lines
    | NoMatch(line: string)            // the clock line did not match the pattern

  datatype Result<T> = Success(value: T) | Raised(failure: Failure)
}
