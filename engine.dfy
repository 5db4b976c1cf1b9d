/** The AT command/response exchange of `Modem._command`: the lines the modem
    sends back are read one at a time until a terminal token, an `ERROR`, or
    an empty read (the one-second timeout, or the end of the stream).

    The serial port is an input sequence: the raw lines `readline()` returns,
    already decoded. An empty string is the empty read; a read past the end
    of `input` is an empty read too. */
module Engine {
  import opened LineText
  import opened Results

  /** Why an exchange that did not fail ended. */
  datatype Outcome = Ok | NoCarrier | StreamEnded

  /** The lines of one exchange, CR/LF stripped, and how it ended. */
  datatype Exchange = Exchange(lines: seq<string>, outcome: Outcome)

  /** A line that ends the exchange with a result. */
  predicate IsTerminal(line: string) {
    line == "OK" || line == "NO CARRIER"
  }

  /** A line the loop reacts to: the two terminal tokens and `ERROR`. */
  predicate IsToken(line: string) {
    IsTerminal(line) || line == "ERROR"
  }

  /** A read after which the loop goes on reading. */
  predicate Continues(read: string) {
    read != "" && !IsToken(StripLineEnd(read))
  }

  /** The loop gets past the first `k` reads. */
  predicate Reaches(input: seq<string>, k: nat) {
    k <= |input| && forall i :: 0 <= i < k ==> Continues(input[i])
  }

  /** Puts already accumulated lines in front of a later result. */
  function Prefixed(prefix: seq<string>, r: Result<Exchange>): Result<Exchange> {
    match r
    case Success(ex) => Success(Exchange(prefix + ex.lines, ex.outcome))
    case Raised(f) => Raised(f)
  }

  lemma PrefixedNothing(r: Result<Exchange>)
    ensures Prefixed([], r) == r
  {
    if r.Success? {
      assert [] + r.value.lines == r.value.lines;
    }
  }

  lemma PrefixedTwice(a: seq<string>, b: seq<string>, r: Result<Exchange>)
    ensures Prefixed(a, Prefixed(b, r)) == Prefixed(a + b, r)
  {
    if r.Success? {
      assert a + (b + r.value.lines) == (a + b) + r.value.lines;
    }
  }

  /** The exchange, one read at a time, as the loop performs it. A failure
      always names the command; at most one line is returned per read; an
      exchange that ends on a token returns at least that token. The lemmas
      below say which lines and which outcome. */
  function Respond(cmd: string, input: seq<string>): (r: Result<Exchange>)
    ensures r.Raised? ==> r == Raised(CommandFailed(cmd))
    ensures r.Success? ==> |r.value.lines| <= |input|
    ensures r.Success? && r.value.outcome != StreamEnded ==> |r.value.lines| > 0
    decreases |input|
  {
    if input == [] || input[0] == "" then Success(Exchange([], StreamEnded))
    else
      var line := StripLineEnd(input[0]);
      if line == "OK" then Success(Exchange([line], Ok))
      else if line == "NO CARRIER" then Success(Exchange([line], NoCarrier))
      else if line == "ERROR" then Raised(CommandFailed(cmd))
      else Prefixed([line], Respond(cmd, input[1..]))
  }

  /** The returned lines are, in order, the non-empty reads with their
      trailing CR/LF removed; none of them ends in CR or LF. */
  lemma {:induction false} RespondLines(cmd: string, input: seq<string>)
    requires Respond(cmd, input).Success?
    ensures var lines := Respond(cmd, input).value.lines;
      |lines| <= |input| &&
      forall i :: 0 <= i < |lines| ==>
        input[i] != "" && lines[i] == StripLineEnd(input[i]) && !EndsInLineEnd(lines[i])
    decreases |input|
  {
    if input != [] && input[0] != "" && !IsToken(StripLineEnd(input[0])) {
      RespondLines(cmd, input[1..]);
    }
  }

  /** An exchange ended by a terminal token returns that token as its last
      line; no earlier line is a token. */
  lemma {:induction false} RespondTerminal(cmd: string, input: seq<string>)
    requires Respond(cmd, input).Success?
    requires Respond(cmd, input).value.outcome != StreamEnded
    ensures var ex := Respond(cmd, input).value;
      |ex.lines| > 0 &&
      ex.lines[|ex.lines| - 1] == (if ex.outcome == Ok then "OK" else "NO CARRIER") &&
      forall i :: 0 <= i < |ex.lines| - 1 ==> !IsToken(ex.lines[i])
    decreases |input|
  {
    if input != [] && input[0] != "" && !IsToken(StripLineEnd(input[0])) {
      RespondTerminal(cmd, input[1..]);
    }
  }

  /** An exchange that ran into an empty read (or off the end of the input)
      returns every line before it and no token; the empty read itself is
      not returned. */
  lemma {:induction false} RespondStreamEnded(cmd: string, input: seq<string>)
    requires Respond(cmd, input).Success?
    requires Respond(cmd, input).value.outcome == StreamEnded
    ensures var lines := Respond(cmd, input).value.lines;
      Reaches(input, |lines|) &&
      (|lines| == |input| || input[|lines|] == "") &&
      forall i :: 0 <= i < |lines| ==> !IsToken(lines[i])
    decreases |input|
  {
    if input != [] && input[0] != "" && !IsToken(StripLineEnd(input[0])) {
      RespondStreamEnded(cmd, input[1..]);
      var lines := Respond(cmd, input).value.lines;
      var rest := Respond(cmd, input[1..]).value.lines;
      assert lines == [StripLineEnd(input[0])] + rest;
      forall i | 0 <= i < |lines|
        ensures Continues(input[i]) && !IsToken(lines[i])
      {
        if i > 0 {
          assert input[i] == input[1..][i - 1];
        }
      }
    }
  }

  /** An `ERROR` line the loop reaches fails the whole exchange with the
      command text, whatever lines came before it. */
  lemma {:induction false} ErrorRaises(cmd: string, input: seq<string>, k: nat)
    requires Reaches(input, k) && k < |input|
    requires input[k] != "" && StripLineEnd(input[k]) == "ERROR"
    ensures Respond(cmd, input) == Raised(CommandFailed(cmd))
    decreases k
  {
    if k > 0 {
      assert Reaches(input[1..], k - 1) by {
        forall i | 0 <= i < k - 1
          ensures Continues(input[1..][i])
        {
          assert input[1..][i] == input[i + 1];
        }
      }
      ErrorRaises(cmd, input[1..], k - 1);
    }
  }

  /** Conversely, an exchange fails only with its own command text, and only
      because the loop reached an `ERROR` line. */
  lemma {:induction false} RaisedOnlyOnError(cmd: string, input: seq<string>)
    requires Respond(cmd, input).Raised?
    ensures Respond(cmd, input).failure == CommandFailed(cmd)
    ensures exists k ::
      0 <= k < |input| && Reaches(input, k) && input[k] != "" && StripLineEnd(input[k]) == "ERROR"
    decreases |input|
  {
    if StripLineEnd(input[0]) == "ERROR" {
      assert Reaches(input, 0);
    } else {
      RaisedOnlyOnError(cmd, input[1..]);
      var k :| 0 <= k < |input[1..]| && Reaches(input[1..], k) &&
        input[1..][k] != "" && StripLineEnd(input[1..][k]) == "ERROR";
      assert Reaches(input, k + 1) by {
        forall i | 0 <= i < k + 1
          ensures Continues(input[i])
        {
          if i > 0 {
            assert input[i] == input[1..][i - 1];
          }
        }
      }
      assert input[k + 1] == input[1..][k];
    }
  }

  /** A read made of nothing but CR/LF is not an empty read: it adds an empty
      line and the exchange goes on. */
  lemma CrLfReadContinues(cmd: string, rest: seq<string>)
    ensures Respond(cmd, ["\r\n"] + rest) == Prefixed([""], Respond(cmd, rest))
  {
  }
}
