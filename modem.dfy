/** The `Modem` object: the serial device it talks to, the line speed, the
    debug flag, and the two operations built on one command exchange. */
module GsmTool {
  import opened LineText
  import opened Results
  import opened Engine
  import opened Clock

  /** The command `get_time` sends. */
  const ClockQuery: string := "AT+CCLK?"

  /** What `get_time` yields for the raw reads `input`: the failure of the
      exchange, or the clock text of its lines. A failed exchange fails with
      the clock query; a reply of fewer than two lines fails as `lines[1]`
      does; a result is always a `19YY-MM-DD HH:MM:SS` timestamp. */
  function TimeReply(input: seq<string>): (r: Result<string>)
    ensures Respond(ClockQuery, input).Raised? ==> r == Raised(CommandFailed(ClockQuery))
    ensures Respond(ClockQuery, input).Success? && |Respond(ClockQuery, input).value.lines| < 2 ==>
      r == Raised(MissingLine(|Respond(ClockQuery, input).value.lines|))
    ensures r.Success? ==> IsTimestamp(r.value)
  {
    match Respond(ClockQuery, input)
    case Raised(f) => Raised(f)
    case Success(ex) => ClockText(ex.lines)
  }

  /** `get_time` succeeds only when the exchange returns at least two lines
      and the second read, stripped of CR/LF, is exactly a clock line (no
      trailing newline can reach the parser); it then yields that line's
      timestamp. */
  lemma TimeReplyAccepts(input: seq<string>)
    requires TimeReply(input).Success?
    ensures |input| >= 2 && Matches(StripLineEnd(input[1]))
    ensures StripLineEnd(input[1]) == ClockLine(Groups(StripLineEnd(input[1])))
    ensures TimeReply(input).value == Timestamp(Groups(StripLineEnd(input[1])))
  {
    var r := Respond(ClockQuery, input);
    var lines := r.value.lines;
    assert ClockText(lines).Success?;
    RespondLines(ClockQuery, input);
    assert |lines| >= 2;
    assert lines[1] == StripLineEnd(input[1]) && !EndsInLineEnd(lines[1]);
    ClockTextOfStrippedLine(lines);
  }

  /** Conversely, an exchange of at least two lines whose second line is a
      clock line yields that line's timestamp, whether the exchange ended on
      a token or on a timeout. */
  lemma TimeReplyOfClockLine(input: seq<string>, g: seq<string>)
    requires IsGroups(g) && |input| >= 2
    requires Respond(ClockQuery, input).Success? && |Respond(ClockQuery, input).value.lines| >= 2
    requires StripLineEnd(input[1]) == ClockLine(g)
    ensures TimeReply(input) == Success(Timestamp(g))
  {
    RespondLines(ClockQuery, input);
    ClockLineMatches(g);
    ClockTextOfStrippedLine(Respond(ClockQuery, input).value.lines);
  }

  /** An `ERROR` the exchange reaches makes `get_time` fail with the clock
      query, before any parsing. */
  lemma TimeReplyOnError(input: seq<string>, k: nat)
    requires Reaches(input, k) && k < |input|
    requires input[k] != "" && StripLineEnd(input[k]) == "ERROR"
    ensures TimeReply(input) == Raised(CommandFailed(ClockQuery))
  {
    ErrorRaises(ClockQuery, input, k);
  }

  /** The modem echoes the query, then sends the clock and `OK`: the reading
      is printed with year 1900 + 23. */
  lemma TimeReplyExample()
    ensures TimeReply(["AT+CCLK?\r\n", "+CCLK: \"23/06/15,10:30:00\"\r\n", "OK\r\n"])
      == Success("1923-06-15 10:30:00")
  {
    var input := ["AT+CCLK?\r\n", "+CCLK: \"23/06/15,10:30:00\"\r\n", "OK\r\n"];
    var g := ExampleGroups();
    var line := "+CCLK: \"23/06/15,10:30:00\"";
    assert "AT+CCLK?" + "\r\n" == "AT+CCLK?\r\n";
    assert line + "\r\n" == "+CCLK: \"23/06/15,10:30:00\"\r\n";
    EchoedExchange(input, "AT+CCLK?", line);
    TimeReplyOfClockLine(input, g);
  }

  /** The groups of the example reply, with its clock line and timestamp. */
  function ExampleGroups(): (g: seq<string>)
    ensures IsGroups(g)
    ensures ClockLine(g) == "+CCLK: \"23/06/15,10:30:00\""
    ensures Timestamp(g) == "1923-06-15 10:30:00"
  {
    var g := ["23", "06", "15", "10", "30", "00"];
    assert ClockLine(g) == "+CCLK: \"" + "23" + "/" + "06" + "/" + "15" + "," + "10" + ":" + "30" + ":" + "00" + "\"";
    assert "+CCLK: \"" + "23" == "+CCLK: \"23";
    assert "+CCLK: \"23" + "/" == "+CCLK: \"23/";
    assert "+CCLK: \"23/" + "06" == "+CCLK: \"23/06";
    assert "+CCLK: \"23/06" + "/" == "+CCLK: \"23/06/";
    assert "+CCLK: \"23/06/" + "15" == "+CCLK: \"23/06/15";
    assert "+CCLK: \"23/06/15" + "," == "+CCLK: \"23/06/15,";
    assert "+CCLK: \"23/06/15," + "10" == "+CCLK: \"23/06/15,10";
    assert "+CCLK: \"23/06/15,10" + ":" == "+CCLK: \"23/06/15,10:";
    assert "+CCLK: \"23/06/15,10:" + "30" == "+CCLK: \"23/06/15,10:30";
    assert "+CCLK: \"23/06/15,10:30" + ":" == "+CCLK: \"23/06/15,10:30:";
    assert "+CCLK: \"23/06/15,10:30:" + "00" == "+CCLK: \"23/06/15,10:30:00";
    assert "+CCLK: \"23/06/15,10:30:00" + "\"" == "+CCLK: \"23/06/15,10:30:00\"";
    assert Timestamp(g) == "19" + "23" + "-" + "06" + "-" + "15" + " " + "10" + ":" + "30" + ":" + "00";
    assert "19" + "23" == "1923";
    assert "1923" + "-" == "1923-";
    assert "1923-" + "06" == "1923-06";
    assert "1923-06" + "-" == "1923-06-";
    assert "1923-06-" + "15" == "1923-06-15";
    assert "1923-06-15" + " " == "1923-06-15 ";
    assert "1923-06-15 " + "10" == "1923-06-15 10";
    assert "1923-06-15 10" + ":" == "1923-06-15 10:";
    assert "1923-06-15 10:" + "30" == "1923-06-15 10:30";
    assert "1923-06-15 10:30" + ":" == "1923-06-15 10:30:";
    assert "1923-06-15 10:30:" + "00" == "1923-06-15 10:30:00";
    g
  }

  /** An echo, one data line and `OK`, each read ending in CR/LF. */
  lemma EchoedExchange(input: seq<string>, echo: string, line: string)
    requires echo != "" && line != "" && !EndsInLineEnd(echo) && !EndsInLineEnd(line)
    requires !IsToken(echo) && !IsToken(line)
    requires input == [echo + "\r\n", line + "\r\n", "OK\r\n"]
    ensures StripLineEnd(input[1]) == line
    ensures Respond(ClockQuery, input) == Success(Exchange([echo, line, "OK"], Ok))
  {
    StripLineEndOfCrLf(echo);
    StripLineEndOfCrLf(line);
    StripLineEndOfCrLf("OK");
    assert "OK" + "\r\n" == "OK\r\n";
    var rest := input[1..];
    assert rest[0] == line + "\r\n" && rest[1..] == ["OK\r\n"];
    assert Respond(ClockQuery, rest[1..]) == Success(Exchange(["OK"], Ok));
    assert [line] + ["OK"] == [line, "OK"];
    assert Respond(ClockQuery, rest) == Success(Exchange([line, "OK"], Ok));
    assert [echo] + [line, "OK"] == [echo, line, "OK"];
  }

  class Modem {
    var device: string
    var speed: int
    var debug: bool

    constructor (device: string, speed: int)
      ensures this.device == device && this.speed == speed && !debug
    {
      this.device := device;
      this.speed := speed;
      debug := false;
    }

    method SetDebug(debug: bool)
      modifies this
      ensures this.debug == debug
      ensures device == old(device) && speed == old(speed)
    {
      this.debug := debug;
    }

    /** `_command`: sends `cmd` followed by CR/LF and reads the answer from
        `input` (the raw lines the port yields, "" for a timed-out read).
        Returns the line written and the exchange, or the failure raised on
        an `ERROR` line. */
    method Command(cmd: string, input: seq<string>) returns (sent: string, res: Result<Exchange>)
      ensures sent == cmd + "\r\n"
      ensures res == Respond(cmd, input)
    {
      sent := cmd + "\r\n";
      var inLines: seq<string> := [];
      var i := 0;
      assert input[i..] == input;
      PrefixedNothing(Respond(cmd, input));
      while true
        invariant 0 <= i <= |input|
        invariant Respond(cmd, input) == Prefixed(inLines, Respond(cmd, input[i..]))
        decreases |input| - i
      {
        // Running off the end of the input is a timed-out read.
        var inLine := if i < |input| then input[i] else "";
        if inLine == "" {
          assert inLines + [] == inLines;
          res := Success(Exchange(inLines, StreamEnded));
          break;
        }
        var inLineStr := StripLineEnd(inLine);
        assert input[i..][0] == inLine && input[i..][1..] == input[i + 1..];
        PrefixedTwice(inLines, [inLineStr], Respond(cmd, input[i + 1..]));
        inLines := inLines + [inLineStr];
        i := i + 1;
        if inLineStr == "OK" {
          res := Success(Exchange(inLines, Ok));
          break;
        }
        if inLineStr == "NO CARRIER" {
          res := Success(Exchange(inLines, NoCarrier));
          break;
        }
        if inLineStr == "ERROR" {
          res := Raised(CommandFailed(cmd));
          return;
        }
      }
    }

    /** `get_time`: queries the clock and returns the formatted reading that
        the source prints. */
    method GetTime(input: seq<string>) returns (sent: string, res: Result<string>)
      ensures sent == ClockQuery + "\r\n"
      ensures res == TimeReply(input)
    {
      var lines;
      sent, lines := Command(ClockQuery, input);
      match lines
      case Raised(f) =>
        res := Raised(f);
      case Success(ex) =>
        res := ClockText(ex.lines);
    }
  }
}
