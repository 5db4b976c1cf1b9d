# gsm-tool: the AT command engine and the clock reply, in Dafny

`gsmtool.py` drives a GSM modem over a serial line. A `Modem` object
(`device`, `speed`, `debug`) sends one AT command per call to `_command`. The
command goes out followed by CR/LF. The call then reads reply lines until the
modem sends `OK` or `NO CARRIER`, or until a read times out. A reply line
`ERROR` raises an exception that names the command. `get_time` sends
`AT+CCLK?`, takes line 1 of the reply and matches it against
`+CCLK: "YY/MM/DD,hh:mm:ss"`. It computes year = 1900 + YY and prints
`YYYY-MM-DD HH:MM:SS`.

The model:

- `text.dfy`, module `LineText`: `rstrip("\r\n")`, ASCII digits, `int()` of
  a digit string, and Python's `%0<width>d`. Module `Results`: the three
  exceptions as a `Failure` value (`CommandFailed`, `MissingLine` for
  `lines[1]` on a short reply, `NoMatch`) and a `Result` type.
- `engine.dfy`, module `Engine`: the reply loop as a step-by-step
  specification function `Respond`, plus lemmas for what the loop promises.
  The serial port is an input `seq<string>` of raw lines as `readline()`
  returns them, already decoded. An empty string is a timed-out read. A read
  past the end of the sequence also counts as a timeout. The result is an
  `Exchange`: the CR/LF-stripped lines plus an outcome (`Ok`, `NoCarrier`
  or `StreamEnded`). An `ERROR` line instead gives `Raised(CommandFailed(cmd))`.
- `clock.dfy`, module `Clock`: the regular expression written out as
  26 slots. Each slot is one literal character or one ASCII digit. A string
  matches when it passes the slots character by character. Python's `$` also
  matches just before a final `"\n"`, so a clock line followed by one newline
  is accepted too. The module also holds the parse (`year = 1900 + YY`), the
  format, and lemmas for acceptance in both directions, the value bounds,
  the round trip and the inverse.
- `modem.dfy`, module `GsmTool`: class `Modem` with its three fields, the
  constructor and `SetDebug`. `Command` is the imperative `_command` loop,
  proved equal to `Respond`. `GetTime` is `get_time`, with the printed text
  returned as the result. The end-to-end lemmas about `get_time` live here.

The year is always 1900 + YY, so the reply `23/06/15,10:30:00` gives
`1923-06-15 10:30:00` (`GsmTool.TimeReplyExample`).

## Model

| member | source | states |
|---|---|---|
| `LineText.StripLineEnd` | gsmtool.py:38 | the stripped line is a prefix of the read, does not end in CR or LF, and only CR/LF characters follow it in the read |
| `LineText.StripLineEndUnique` | gsmtool.py:38 | any prefix with those three properties equals the stripped line, so they define `rstrip("\r\n")` |
| `LineText.StripLineEndOfCrLf` | gsmtool.py:25 | stripping the outgoing `cmd + "\r\n"` gives back the stripped command, and gives back `cmd` itself when `cmd` has no trailing CR/LF |
| `LineText.ValueOf` | gsmtool.py:55-60 | `int()` of a string of ASCII digits; the value has at most as many decimal digits as the string (below 10 to the power of its length); `PadOfPair` gives the two-digit case |
| `LineText.Decimal` | gsmtool.py:61 | `%d` of a non-negative integer is a non-empty digit string with no leading zero whose value is the integer |
| `LineText.PadDecimal` | gsmtool.py:61 | `%0<width>d`: at least `width` characters; for n >= 0 all digits that read back as n, for n < 0 a `-` followed by digits that read back as -n; `PadTwoDigits` and `PadCenturyYear` give the exact text for the values the clock uses |
| `LineText.PadTwoDigits` | gsmtool.py:61 | `%02d` of a value below 100 is its tens digit and then its units digit, and reads back as the value |
| `LineText.PadOfPair` | gsmtool.py:56-61 | `int()` of a two-digit group is 10·first + second, and `%02d` of that value is the group again |
| `LineText.PadCenturyYear` | gsmtool.py:55-61 | `%04d` of `1900 + int(YY)` is `"19"` followed by the group YY |
| `Engine.Respond` | gsmtool.py:32-45 | the read loop as a function of the reads: a failure always carries `CommandFailed(cmd)`, at most one line is returned per read, and an exchange ended by a token returns at least one line; `RespondLines`, `RespondTerminal`, `RespondStreamEnded`, `ErrorRaises` and `RaisedOnlyOnError` say which lines and which outcome |
| `Engine.RespondLines` | gsmtool.py:33-39 | the returned lines are, in order, the first reads, each non-empty, with trailing CR/LF removed; no returned line ends in CR or LF |
| `Engine.RespondTerminal` | gsmtool.py:39-43 | when the exchange ends on a token, the last line is `OK` (outcome Ok) or `NO CARRIER` (outcome NoCarrier), and no earlier line is `OK`, `NO CARRIER` or `ERROR` |
| `Engine.RespondStreamEnded` | gsmtool.py:33-39 | when the exchange ends on an empty read, every read before it was non-empty and not a token, the empty read (or the end of input) is at the position right after the returned lines and is not returned, and no returned line is a token |
| `Engine.ErrorRaises` | gsmtool.py:44-45 | a read that strips to `ERROR`, once the loop reaches it, fails the call with `CommandFailed(cmd)` and returns no lines, whatever came before |
| `Engine.RaisedOnlyOnError` | gsmtool.py:39-45 | a failed exchange carries its own command text, and some reached read stripped to `ERROR` |
| `Engine.CrLfReadContinues` | gsmtool.py:36-39 | a read of just `"\r\n"` is not an empty read: it adds the line `""` and reading goes on |
| `Clock.MatchSlots` | gsmtool.py:51-52 | the character-by-character matcher accepts exactly the strings as long as the pattern whose every character fits its slot |
| `Clock.Matches` | gsmtool.py:51-52 | `p.match` with `^` and Python's `$`: a matching line is 26 characters, or 27 ending in one newline, opens with `+CCLK: "` and closes its quote at position 25; `ClockLineMatches` and `MatchedLineShape` describe exactly which lines match |
| `Clock.ParseClock` | gsmtool.py:51-60 | a line that does not match fails with `NoMatch` carrying that line, and only such a line fails; a parsed year is in 1900..1999 and month, day, hour, minute, second are in 0..99 |
| `Clock.FormatReading` | gsmtool.py:61 | the format expression: every reading the parser can produce comes out as exactly `19YY-MM-DD HH:MM:SS`, 19 characters with digits and separators in place; `FormatReproducesGroups` gives the digits |
| `Clock.ClockLineMatches` | gsmtool.py:51-52 | every `+CCLK: "DD/DD/DD,DD:DD:DD"` line with ASCII digits matches, and the captured groups are its six groups |
| `Clock.MatchedLineShape` | gsmtool.py:51-54 | a matching line is exactly a clock line of its captured groups, or that line followed by one `"\n"`; nothing comes before it and nothing else follows |
| `Clock.ParseClockAccepts` | gsmtool.py:51-60 | the parser accepts a line if and only if it is some clock line, possibly followed by one newline; the reading is then year 1900 + YY with the other groups as integers |
| `Clock.FormatReproducesGroups` | gsmtool.py:55-61 | formatting the reading of six groups gives `"19" + YY + "-" + MM + "-" + DD + " " + hh + ":" + mm + ":" + ss` |
| `Clock.ParseFormatRoundTrip` | gsmtool.py:51-61 | a parsed line formats back to `"19"` and the line's own two-digit groups, in place, at positions 8, 11, 14, 17, 20, 23 |
| `Clock.ParseClockLineFor` | gsmtool.py:51-60 | every reading with year 1900..1999 and other fields in 0..99 is the parse of the clock line built from it (parsing is onto that range) |
| `Clock.ClockText` | gsmtool.py:50-61 | a reply of fewer than two lines fails with `MissingLine` and the line count, as `lines[1]` does; otherwise it fails if and only if line 1 does not match, with `NoMatch(lines[1])`; a result is a `19YY-MM-DD HH:MM:SS` timestamp |
| `Clock.ClockTextOfStrippedLine` | gsmtool.py:50-61 | when line 1 has no trailing CR/LF, it is accepted if and only if it is exactly a clock line, and the text is then that line's timestamp |
| `GsmTool.TimeReply` | gsmtool.py:48-61 | `get_time` as a function of the reads: a failed exchange fails with `CommandFailed("AT+CCLK?")`, a reply of fewer than two lines fails with `MissingLine`, and any result is a `19YY-MM-DD HH:MM:SS` timestamp; `TimeReplyAccepts` and `TimeReplyOfClockLine` say exactly when it succeeds |
| `GsmTool.TimeReplyAccepts` | gsmtool.py:48-61 | if `get_time` succeeds, there were at least two reads, and the second read stripped of CR/LF is exactly a clock line whose timestamp is the result |
| `GsmTool.TimeReplyOfClockLine` | gsmtool.py:48-61 | if the exchange returns at least two lines and the second read strips to a clock line, `get_time` yields that line's timestamp, whichever way the exchange ended |
| `GsmTool.TimeReplyOnError` | gsmtool.py:44-49 | an `ERROR` reached during the clock query makes `get_time` fail with `CommandFailed("AT+CCLK?")` |
| `GsmTool.EchoedExchange` | gsmtool.py:32-43 | an echo, one data line and `OK\r\n` give the exchange `[echo, line, "OK"]` with outcome Ok |
| `GsmTool.TimeReplyExample` | gsmtool.py:48-61 | the reply echo, `+CCLK: "23/06/15,10:30:00"`, `OK` gives `1923-06-15 10:30:00` |
| `GsmTool.Modem.constructor` | gsmtool.py:10-13 | a new modem keeps its device and speed, with debug off |
| `GsmTool.Modem.SetDebug` | gsmtool.py:15-16 | sets the debug flag and leaves device and speed unchanged |
| `GsmTool.Modem.Command` | gsmtool.py:24-46 | the line written is `cmd + "\r\n"`; the loop over the reads returns exactly the exchange (or failure) that `Respond` defines, so the `Engine` lemmas apply to it |
| `GsmTool.Modem.GetTime` | gsmtool.py:48-61 | sends `AT+CCLK?\r\n` and returns the exchange's failure or the clock text of its lines, so the `TimeReply` lemmas apply to it |

## Left out

- Serial transport (gsmtool.py:27-33): opening the port with the device, the speed and the one-second timeout, writing, and `readline()`. The reads are an input sequence, and a timeout is an empty string in it. The `device` and `speed` fields are stored but not used.
- Byte decoding (gsmtool.py:28, 38): lines are already text, and a `UnicodeDecodeError` is not modelled.
- Debug output to stderr (gsmtool.py:29-30, 34-35). It does not change the lines returned. The `print` at gsmtool.py:61 becomes the returned string.
- `reset` and `noop` (gsmtool.py:18-22), and argument parsing and dispatch (gsmtool.py:63-77): these are calls of `_command` with constant strings, plus command-line glue.
- Unicode digits: Python's `\d` and `int()` accept any Unicode decimal digit. The model accepts only ASCII `'0'..'9'`.
- Python's `"%0<width>d"` is modelled for all integers, but only non-negative values reach it.
