/** The reply to `AT+CCLK?` as `Modem.get_time` reads it: line 1 of the
    response must be `+CCLK: "YY/MM/DD,hh:mm:ss"` (each field two digits);
    the year is 1900 + YY and the reading is rendered `YYYY-MM-DD HH:MM:SS`.

    The regular expression is written out as a sequence of slots, each either
    one literal character or one ASCII digit. */
module Clock {
  import opened LineText
  import opened Results

  datatype Reading = Reading(year: int, month: int, day: int, hour: int, minute: int, second: int)

  /** The readings the parser can produce: year 1900 + YY, the other fields
      two-digit values, none checked against the calendar. */
  predicate InRange(r: Reading) {
    1900 <= r.year <= 1999 &&
    0 <= r.month <= 99 && 0 <= r.day <= 99 &&
    0 <= r.hour <= 99 && 0 <= r.minute <= 99 && 0 <= r.second <= 99
  }

  /** The shape of `YYYY-MM-DD HH:MM:SS` with a year in the 1900s. */
  predicate IsTimestamp(s: string) {
    |s| == 19 && s[0] == '1' && s[1] == '9' &&
    s[4] == '-' && s[7] == '-' && s[10] == ' ' && s[13] == ':' && s[16] == ':' &&
    forall i :: 0 <= i < 19 && i != 4 && i != 7 && i != 10 && i != 13 && i != 16 ==> IsDigit(s[i])
  }

  /** One position of the clock pattern. */
  datatype Slot = Lit(c: char) | AnyDigit

  predicate SlotAccepts(slot: Slot, c: char) {
    match slot
    case Lit(x) => c == x
    case AnyDigit => IsDigit(c)
  }

  function Lits(s: string): (p: seq<Slot>)
    ensures |p| == |s| && forall i :: 0 <= i < |s| ==> p[i] == Lit(s[i])
  {
    seq(|s|, i requires 0 <= i < |s| => Lit(s[i]))
  }

  const Pair: seq<Slot> := [AnyDigit, AnyDigit]

  /** `+CCLK: "(\d\d)/(\d\d)/(\d\d),(\d\d):(\d\d):(\d\d)"` */
  const Pattern: seq<Slot> :=
    Lits("+CCLK: \"") + Pair + [Lit('/')] + Pair + [Lit('/')] + Pair + [Lit(',')]
    + Pair + [Lit(':')] + Pair + [Lit(':')] + Pair + [Lit('"')]

  /** Where the six two-digit groups start in a matching line. */
  const GroupStart: seq<nat> := [8, 11, 14, 17, 20, 23]

  /** Character-by-character match of a whole string against slots. */
  function MatchSlots(p: seq<Slot>, s: string): (b: bool)
    ensures b <==> |s| == |p| && forall i :: 0 <= i < |p| ==> SlotAccepts(p[i], s[i])
    decreases |p|
  {
    if p == [] then s == []
    else
      s != [] && SlotAccepts(p[0], s[0]) && MatchSlots(p[1..], s[1..])
  }

  /** Python's `re.match` of `^Pattern$`: `$` matches at the end of the line or
      just before a single newline that ends it. A matching line is 26
      characters, or 27 with a final newline; it opens with `+CCLK: "` and
      closes the quote at position 25. */
  function Matches(line: string): (m: bool)
    ensures m ==> |line| == 26 || (|line| == 27 && line[26] == '\n')
    ensures m ==> line[..8] == "+CCLK: \"" && line[25] == '"'
  {
    var m := MatchSlots(Pattern, line) ||
      (|line| == |Pattern| + 1 && line[|Pattern|] == '\n' && MatchSlots(Pattern, line[..|Pattern|]));
    assert m ==> line[..8] == "+CCLK: \"" && line[25] == '"' by {
      if m {
        PatternSlots();
        var b := if MatchSlots(Pattern, line) then line else line[..|Pattern|];
        assert forall i :: 0 <= i < 26 ==> SlotAccepts(Pattern[i], b[i]);
        assert b[..8] == line[..8] && b[25] == line[25];
        forall i | 0 <= i < 8
          ensures b[i] == "+CCLK: \""[i]
        {
          assert Pattern[i] == Lit("+CCLK: \""[i]);
        }
      }
    }
    m
  }

  /** The matched body of a line, without the newline `$` may skip. */
  function Body(line: string): (b: string)
    requires Matches(line)
    ensures MatchSlots(Pattern, b)
  {
    if MatchSlots(Pattern, line) then line else line[..|Pattern|]
  }

  /** The digits in the pattern: the six groups, two characters each. */
  lemma PatternDigits()
    ensures |Pattern| == 26
    ensures forall k :: 0 <= k < 6 ==>
      GroupStart[k] + 1 < |Pattern| && Pattern[GroupStart[k]] == AnyDigit && Pattern[GroupStart[k] + 1] == AnyDigit
  {
  }

  /** `int(m.group(k + 1))`. */
  function Group(line: string, k: nat): (v: nat)
    requires Matches(line) && k < 6
    ensures v < 100
  {
    var b := Body(line);
    PatternDigits();
    var i := GroupStart[k];
    assert SlotAccepts(Pattern[i], b[i]) && SlotAccepts(Pattern[i + 1], b[i + 1]);
    10 * DigitValue(b[i]) + DigitValue(b[i + 1])
  }

  /** The body of `get_time` between the match and the print: the error for a
      line that does not match, else the reading with year 1900 + YY. */
  function ParseClock(line: string): (r: Result<Reading>)
    ensures r.Raised? <==> !Matches(line)
    ensures r.Raised? ==> r.failure == NoMatch(line)
    ensures r.Success? ==> InRange(r.value)
  {
    if !Matches(line) then Raised(NoMatch(line))
    else Success(Reading(1900 + Group(line, 0), Group(line, 1), Group(line, 2),
                         Group(line, 3), Group(line, 4), Group(line, 5)))
  }

  /** `"%04d-%02d-%02d %02d:%02d:%02d"`. Every reading the parser produces
      comes out as exactly `19YY-MM-DD HH:MM:SS`: fixed width, digits and
      separators in place. */
  function FormatReading(r: Reading): (s: string)
    ensures InRange(r) ==> IsTimestamp(s)
  {
    var s := PadDecimal(r.year, 4) + "-" + PadDecimal(r.month, 2) + "-" + PadDecimal(r.day, 2) + " "
      + PadDecimal(r.hour, 2) + ":" + PadDecimal(r.minute, 2) + ":" + PadDecimal(r.second, 2);
    assert InRange(r) ==> IsTimestamp(s) by {
      if InRange(r) {
        var g := GroupsFor(r);
        PadsOfRange(r);
        TimestampShape(g);
      }
    }
    s
  }

  /** Each field of an in-range reading renders as its group. */
  lemma PadsOfRange(r: Reading)
    requires InRange(r)
    ensures var g := GroupsFor(r);
      PadDecimal(r.year, 4) == "19" + g[0] &&
      PadDecimal(r.month, 2) == g[1] && PadDecimal(r.day, 2) == g[2] &&
      PadDecimal(r.hour, 2) == g[3] && PadDecimal(r.minute, 2) == g[4] && PadDecimal(r.second, 2) == g[5]
  {
    var g := GroupsFor(r);
    PadCenturyYear(g[0]);
    PadOfPair(g[1]);
    PadOfPair(g[2]);
    PadOfPair(g[3]);
    PadOfPair(g[4]);
    PadOfPair(g[5]);
  }

  /** The timestamp of six groups has the timestamp shape. */
  lemma TimestampShape(g: seq<string>)
    requires IsGroups(g)
    ensures IsTimestamp(Timestamp(g))
  {
    var t := Timestamp(g);
    assert t == "19" + g[0] + "-" + g[1] + "-" + g[2] + " " + g[3] + ":" + g[4] + ":" + g[5];
    assert t[2] == g[0][0] && t[3] == g[0][1];
    assert t[5] == g[1][0] && t[6] == g[1][1];
    assert t[8] == g[2][0] && t[9] == g[2][1];
    assert t[11] == g[3][0] && t[12] == g[3][1];
    assert t[14] == g[4][0] && t[15] == g[4][1];
    assert t[17] == g[5][0] && t[18] == g[5][1];
  }

  /** Six groups of two ASCII digits each. */
  predicate IsGroups(g: seq<string>) {
    |g| == 6 && forall k :: 0 <= k < 6 ==> |g[k]| == 2 && AllDigits(g[k])
  }

  /** The clock line that carries the groups `g`. */
  function ClockLine(g: seq<string>): (line: string)
    requires IsGroups(g)
    ensures |line| == 26
  {
    "+CCLK: \"" + g[0] + "/" + g[1] + "/" + g[2] + "," + g[3] + ":" + g[4] + ":" + g[5] + "\""
  }

  /** The six two-digit groups of a matching line, as the regex captures them. */
  function Groups(line: string): (g: seq<string>)
    requires Matches(line)
    ensures IsGroups(g)
  {
    var b := Body(line);
    PatternDigits();
    var g := seq(6, k requires 0 <= k < 6 => b[GroupStart[k]..GroupStart[k] + 2]);
    assert forall k :: 0 <= k < 6 ==> g[k] == [b[GroupStart[k]], b[GroupStart[k] + 1]];
    assert forall k :: 0 <= k < 6 ==>
      SlotAccepts(Pattern[GroupStart[k]], b[GroupStart[k]]) &&
      SlotAccepts(Pattern[GroupStart[k] + 1], b[GroupStart[k] + 1]);
    g
  }

  /** The reading the groups `g` stand for. */
  function ReadingOf(g: seq<string>): Reading
    requires IsGroups(g)
  {
    Reading(1900 + ValueOf(g[0]), ValueOf(g[1]), ValueOf(g[2]),
            ValueOf(g[3]), ValueOf(g[4]), ValueOf(g[5]))
  }

  /** The timestamp text the groups `g` should produce. */
  function Timestamp(g: seq<string>): string
    requires IsGroups(g)
  {
    "19" + g[0] + "-" + g[1] + "-" + g[2] + " " + g[3] + ":" + g[4] + ":" + g[5]
  }

  /** The pattern, position by position. */
  lemma PatternSlots()
    ensures Pattern == Lits("+CCLK: \"") + [AnyDigit, AnyDigit, Lit('/'), AnyDigit, AnyDigit, Lit('/'),
      AnyDigit, AnyDigit, Lit(','), AnyDigit, AnyDigit, Lit(':'), AnyDigit, AnyDigit, Lit(':'),
      AnyDigit, AnyDigit, Lit('"')]
  {
  }

  /** Every clock line carrying six two-digit groups matches, and the regex
      captures exactly those groups. */
  lemma {:induction false} ClockLineMatches(g: seq<string>)
    requires IsGroups(g)
    ensures MatchSlots(Pattern, ClockLine(g))
    ensures Groups(ClockLine(g)) == g
  {
    ClockLineFitsSlots(g);
    var line := ClockLine(g);
    var h := Groups(line);
    PatternDigits();
    forall k | 0 <= k < 6
      ensures h[k] == g[k]
    {
      assert h[k] == line[GroupStart[k]..GroupStart[k] + 2];
    }
  }

  lemma ClockLineFitsSlots(g: seq<string>)
    requires IsGroups(g)
    ensures MatchSlots(Pattern, ClockLine(g))
  {
    var line := ClockLine(g);
    PatternSlots();
    forall i | 0 <= i < 26
      ensures SlotAccepts(Pattern[i], line[i])
    {
      if i < 8 {
        assert line[i] == "+CCLK: \""[i];
      }
    }
  }

  /** A line the parser accepts is a clock line carrying its captured groups,
      possibly followed by one newline (which `$` lets through), and nothing
      else: no leading or further trailing characters. */
  lemma {:induction false} MatchedLineShape(line: string)
    requires Matches(line)
    ensures Body(line) == ClockLine(Groups(line))
    ensures line == ClockLine(Groups(line)) || line == ClockLine(Groups(line)) + "\n"
  {
    var b := Body(line);
    var g := Groups(line);
    var c := ClockLine(g);
    PatternSlots();
    PatternDigits();
    assert forall i :: 0 <= i < 26 ==> SlotAccepts(Pattern[i], b[i]);
    forall i | 0 <= i < 26
      ensures c[i] == b[i]
    {
      if i < 8 {
        assert c[i] == "+CCLK: \""[i];
        assert Pattern[i] == Lit("+CCLK: \""[i]);
      }
    }
    if !MatchSlots(Pattern, line) {
      assert line == line[..26] + [line[26]];
    }
  }

  /** The parser accepts a line if and only if it is a clock line, possibly
      followed by one newline; the reading is then the one its groups stand for. */
  lemma ParseClockAccepts(line: string)
    ensures ParseClock(line).Success? <==>
      exists g :: IsGroups(g) && (line == ClockLine(g) || line == ClockLine(g) + "\n")
    ensures ParseClock(line).Success? ==> ParseClock(line).value == ReadingOf(Groups(line))
  {
    if Matches(line) {
      MatchedLineShape(line);
      var g := Groups(line);
      var b := Body(line);
      PatternDigits();
      forall k | 0 <= k < 6
        ensures Group(line, k) == ValueOf(g[k])
      {
        PadOfPair(g[k]);
      }
    }
    forall g | IsGroups(g) && (line == ClockLine(g) || line == ClockLine(g) + "\n")
      ensures Matches(line)
    {
      ClockLineMatches(g);
      if line != ClockLine(g) {
        assert line[..26] == ClockLine(g);
      }
    }
  }

  /** Formatting the reading of six groups reproduces the groups: "19" + YY,
      then MM, DD, hh, mm, ss, each exactly as it appeared. */
  lemma {:induction false} FormatReproducesGroups(g: seq<string>)
    requires IsGroups(g)
    ensures FormatReading(ReadingOf(g)) == Timestamp(g)
  {
    PadCenturyYear(g[0]);
    PadOfPair(g[1]);
    PadOfPair(g[2]);
    PadOfPair(g[3]);
    PadOfPair(g[4]);
    PadOfPair(g[5]);
  }

  /** Round trip: a parsed reading formats back to the digit groups of the
      line it came from. */
  lemma ParseFormatRoundTrip(line: string)
    requires ParseClock(line).Success?
    ensures Matches(line)
    ensures FormatReading(ParseClock(line).value) == Timestamp(Groups(line))
    ensures FormatReading(ParseClock(line).value) ==
      "19" + line[8..10] + "-" + line[11..13] + "-" + line[14..16] + " "
      + line[17..19] + ":" + line[20..22] + ":" + line[23..25]
  {
    ParseClockAccepts(line);
    FormatReproducesGroups(Groups(line));
    GroupsInPlace(line);
  }

  /** The captured groups sit at their positions in the line itself. */
  lemma GroupsInPlace(line: string)
    requires Matches(line)
    ensures |line| >= 26
    ensures Groups(line) == [line[8..10], line[11..13], line[14..16], line[17..19], line[20..22], line[23..25]]
  {
    PatternDigits();
    var g := Groups(line);
    var b := Body(line);
    assert forall k :: 0 <= k < 6 ==> g[k] == b[GroupStart[k]..GroupStart[k] + 2];
    assert forall k :: 0 <= k < 6 ==> g[k] == line[GroupStart[k]..GroupStart[k] + 2];
  }

  /** `PadDecimal(n, 2)`, i.e. `%02d`, for a value below 100, with the facts
      of PadTwoDigits attached: two digits that read back as the value. */
  function TwoDigits(n: nat): (s: string)
    requires n < 100
    ensures |s| == 2 && AllDigits(s) && ValueOf(s) == n
  {
    PadTwoDigits(n);
    PadDecimal(n, 2)
  }

  /** A reading in the range the parser produces, written back as a clock line. */
  function ClockLineFor(r: Reading): (line: string)
    requires InRange(r)
  {
    ClockLine(GroupsFor(r))
  }

  function GroupsFor(r: Reading): (g: seq<string>)
    requires InRange(r)
    ensures IsGroups(g) && ReadingOf(g) == r
  {
    [TwoDigits(r.year - 1900), TwoDigits(r.month), TwoDigits(r.day),
     TwoDigits(r.hour), TwoDigits(r.minute), TwoDigits(r.second)]
  }

  /** Parsing is onto its range: every reading with year 1900..1999 and the
      other fields in 0..99 is the parse of some clock line. */
  lemma {:induction false} ParseClockLineFor(r: Reading)
    requires InRange(r)
    ensures ParseClock(ClockLineFor(r)) == Success(r)
  {
    var g := GroupsFor(r);
    ClockLineMatches(g);
    ParseClockAccepts(ClockLine(g));
  }

  /** The clock text `get_time` prints for the lines of a response: line 1
      (a response of fewer than two lines fails as `lines[1]` does), parsed
      and formatted. */
  function ClockText(lines: seq<string>): (r: Result<string>)
    ensures |lines| < 2 ==> r == Raised(MissingLine(|lines|))
    ensures |lines| >= 2 ==> (r.Raised? <==> !Matches(lines[1]))
    ensures r.Raised? && |lines| >= 2 ==> r.failure == NoMatch(lines[1])
    ensures r.Success? ==> IsTimestamp(r.value)
  {
    if |lines| < 2 then Raised(MissingLine(|lines|))
    else
      match ParseClock(lines[1])
      case Success(reading) => Success(FormatReading(reading))
      case Raised(f) => Raised(f)
  }

  /** A line without a trailing newline (every line the command engine
      returns) is accepted only when it is exactly a clock line, and the
      text is then its timestamp. */
  lemma ClockTextOfStrippedLine(lines: seq<string>)
    requires |lines| >= 2 && !EndsInLineEnd(lines[1])
    ensures ClockText(lines).Success? <==>
      exists g :: IsGroups(g) && lines[1] == ClockLine(g)
    ensures ClockText(lines).Success? ==>
      IsGroups(Groups(lines[1])) && lines[1] == ClockLine(Groups(lines[1])) &&
      ClockText(lines).value == Timestamp(Groups(lines[1]))
  {
    var line := lines[1];
    ParseClockAccepts(line);
    if ParseClock(line).Success? {
      MatchedLineShape(line);
      ParseFormatRoundTrip(line);
    }
    forall g | IsGroups(g) && line == ClockLine(g)
      ensures ParseClock(line).Success?
    {
    }
  }
}
