/** The LED console (`BLEConnect.py`).

    Once connected, the client reads one command per line: `q` (either
    case) leaves the loop, `00` and `01` are written to the characteristic
    as their ASCII bytes, and every other line is refused and the loop goes
    on. The operator's lines are a parameter and the characteristic writes
    are collected in order. */
module BleConnect {
  import opened Bytes

  /** `str.lower` on one character, for the ASCII letters. */
  function LowerChar(c: char): char
  {
    if 'A' <= c <= 'Z' then (c as int + 32) as char else c
  }

  /** `str.lower`, character by character. */
  function Lower(s: string): (t: string)
    ensures |t| == |s| && forall i :: 0 <= i < |s| ==> t[i] == LowerChar(s[i])
  {
    seq(|s|, i requires 0 <= i < |s| => LowerChar(s[i]))
  }

  /** `command.lower() == 'q'`: the line is a quit exactly when it is "q" or
      "Q". */
  function IsQuit(command: string): (quit: bool)
    ensures quit <==> Lower(command) == "q"
  {
    command == "q" || command == "Q"
  }

  /** `command in ['00', '01']`: exact match, no trimming, so an LED command
      is two ASCII characters, a '0' then a '0' or a '1'. */
  function IsLedCommand(command: string): (led: bool)
    ensures led ==> IsAscii(command)
    ensures led <==> |command| == 2 && command[0] == '0' && (command[1] == '0' || command[1] == '1')
  {
    command == "00" || command == "01"
  }

  /** How the loop ended: at the quit line with this index, or because the
      input ran out first (where `input()` raises `EOFError`). */
  datatype Ending = Quit(line: nat) | InputExhausted

  /** `command.encode()` for an LED command: "00" is sent as 0x30 0x30 and
      "01" as 0x30 0x31. */
  function LedPayload(command: string): (p: seq<Byte>)
    requires IsLedCommand(command)
    ensures p == if command == "00" then [0x30, 0x30] else [0x30, 0x31]
  {
    EncodeAscii(command)
  }

  /** The reference definition: the payloads written for a run of lines. */
  function Written(lines: seq<string>): seq<seq<Byte>>
  {
    if lines == [] || IsQuit(lines[0]) then []
    else if IsLedCommand(lines[0]) then [LedPayload(lines[0])] + Written(lines[1..])
    else Written(lines[1..])
  }

  /** Index of the first quit line, or the number of lines if there is none. */
  function FirstQuit(lines: seq<string>): (k: nat)
    ensures k <= |lines|
    ensures forall i :: 0 <= i < k ==> !IsQuit(lines[i])
    ensures k < |lines| ==> IsQuit(lines[k])
  {
    if lines == [] || IsQuit(lines[0]) then 0 else 1 + FirstQuit(lines[1..])
  }

  /** The LED commands among the lines, in input order. */
  function LedCommands(lines: seq<string>): (cs: seq<string>)
    ensures |cs| <= |lines|
    ensures forall i :: 0 <= i < |cs| ==> IsLedCommand(cs[i])
    ensures forall c :: c in cs <==> c in lines && IsLedCommand(c)
  {
    if lines == [] then []
    else if IsLedCommand(lines[0]) then [lines[0]] + LedCommands(lines[1..])
    else LedCommands(lines[1..])
  }

  /** Selecting from a concatenation selects from each part and keeps them
      in order, so the commands keep their input order. */
  lemma {:induction false} LedCommandsAppend(a: seq<string>, b: seq<string>)
    ensures LedCommands(a + b) == LedCommands(a) + LedCommands(b)
  {
    if a != [] {
      assert (a + b)[1..] == a[1..] + b;
      LedCommandsAppend(a[1..], b);
    } else {
      assert a + b == b;
    }
  }

  /** The payloads of a run of LED commands, in order. */
  function EncodeEach(commands: seq<string>): (ws: seq<seq<Byte>>)
    requires forall i :: 0 <= i < |commands| ==> IsLedCommand(commands[i])
    ensures |ws| == |commands|
    ensures forall i :: 0 <= i < |commands| ==> ws[i] == LedPayload(commands[i])
  {
    seq(|commands|, i requires 0 <= i < |commands| => LedPayload(commands[i]))
  }

  /** The writes are exactly the LED commands that come before the first
      quit line, encoded, in input order. */
  lemma {:induction false} WrittenBeforeQuit(lines: seq<string>)
    ensures Written(lines) == EncodeEach(LedCommands(lines[..FirstQuit(lines)]))
  {
    if lines != [] && !IsQuit(lines[0]) {
      var rest := lines[1..];
      var k := FirstQuit(lines);
      WrittenBeforeQuit(rest);
      assert k == 1 + FirstQuit(rest);
      assert lines[..k] == [lines[0]] + rest[..k - 1];
      var tail := LedCommands(rest[..k - 1]);
      assert EncodeEach(tail) == Written(rest);
      if IsLedCommand(lines[0]) {
        assert LedCommands(lines[..k]) == [lines[0]] + tail;
        assert EncodeEach([lines[0]] + tail) == [LedPayload(lines[0])] + EncodeEach(tail);
      } else {
        assert LedCommands(lines[..k]) == tail;
      }
    }
  }

  /** Nothing but the two LED payloads is ever written. */
  lemma {:induction false} OnlyLedPayloads(lines: seq<string>)
    ensures forall i :: 0 <= i < |Written(lines)| ==>
              Written(lines)[i] == [0x30, 0x30] || Written(lines)[i] == [0x30, 0x31]
  {
    if lines != [] && !IsQuit(lines[0]) {
      OnlyLedPayloads(lines[1..]);
    }
  }

  /** Lines that are neither a quit nor an LED command, such as " 01" or
      "1", change nothing; lines after a quit are never read. */
  lemma RefusedLinesIgnored(line: string, rest: seq<string>)
    ensures !IsQuit(line) && !IsLedCommand(line) ==> Written([line] + rest) == Written(rest)
    ensures IsQuit(line) ==> Written([line] + rest) == []
    ensures !IsLedCommand(" 01") && !IsLedCommand("1") && !IsQuit(" q")
  {
    assert ([line] + rest)[1..] == rest;
  }

  /** The `while True` loop of `main`, after the connection is up. */
  method CommandLoop(lines: seq<string>) returns (writes: seq<seq<Byte>>, ending: Ending)
    ensures writes == Written(lines)
    ensures ending == if FirstQuit(lines) < |lines| then Quit(FirstQuit(lines)) else InputExhausted
    ensures forall i :: 0 <= i < |writes| ==> writes[i] == [0x30, 0x30] || writes[i] == [0x30, 0x31]
  {
    writes := [];
    ending := InputExhausted;
    var i := 0;
    while i < |lines|
      invariant 0 <= i <= |lines|
      invariant forall j :: 0 <= j < i ==> !IsQuit(lines[j])
      invariant writes + Written(lines[i..]) == Written(lines)
      invariant forall j :: 0 <= j < |writes| ==> writes[j] == [0x30, 0x30] || writes[j] == [0x30, 0x31]
    {
      var command := lines[i];
      if IsQuit(command) {
        ending := Quit(i);
        break;
      } else if IsLedCommand(command) {
        writes := writes + [LedPayload(command)];
      }
      assert lines[i..][1..] == lines[i + 1..];
      i := i + 1;
    }
    assert FirstQuit(lines) == i;
  }
}
