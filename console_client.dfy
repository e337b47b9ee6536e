/**
 * The admin console client (voudp-console/src/main.rs): a bounded log of
 * lines shown on screen, an input line edited key by key, and the packets
 * sent to the server when a line is entered or the console quits.
 */
module ConsoleClient {
  import opened Wrappers
  import opened Bytes
  import opened Text
  import opened Utf8

  /** The log keeps at most this many lines. */
  const MAX_LOGS: nat := 10000

  const COMMAND_TAG: byte := 0x0d
  const EOF_TAG: byte := 0x03
  const KEEP_ALIVE_TAG: byte := 0x04
  const EOF_PACKET: seq<byte> := [EOF_TAG]

  /** The last `n` entries of `s`, or all of them when there are fewer. */
  function KeepLast<T>(s: seq<T>, n: nat): seq<T> {
    if |s| > n then s[|s| - n..] else s
  }

  /**
   * Trimming to the last `n` entries keeps at most `n`, drops only the
   * oldest (what is left is a suffix, so in order) and, for `n > 0`, keeps
   * the newest.
   */
  lemma KeepLastBounds<T>(s: seq<T>, n: nat)
    ensures var r := KeepLast(s, n);
      && |r| <= n && |r| <= |s|
      && r == s[|s| - |r|..]
      && (|s| <= n ==> r == s)
      && (|s| > n ==> |r| == n)
      && (n > 0 && s != [] ==> r[|r| - 1] == s[|s| - 1])
  {
  }

  datatype KeyCode = Char(c: char) | Backspace | Enter | OtherKey

  /** A key press: its code and whether Control was held. */
  datatype KeyEvent = KeyEvent(code: KeyCode, control: bool)

  /** Ctrl+C, which the key loop checks before any other arm. */
  predicate IsInterrupt(k: KeyEvent) {
    k.code == Char('c') && k.control
  }

  /** How a key changes the input line, other than Enter and Ctrl+C. */
  function EditInput(input: string, k: KeyEvent): (r: string)
    requires !IsInterrupt(k) && k.code != Enter
    ensures k.code.Char? ==> r == input + [k.code.c]
    ensures k.code == Backspace && input != [] ==> r == input[..|input| - 1]
    ensures k.code == Backspace && input == [] ==> r == []
    ensures k.code == OtherKey ==> r == input
  {
    match k.code
    case Char(c) => input + [c]
    case Backspace => if input == [] then [] else input[..|input| - 1]
    case OtherKey => input
  }

  /** Backspace removes exactly the character just typed. */
  lemma BackspaceUndoesChar(input: string, c: char, control: bool)
    requires !(c == 'c' && control)
    ensures EditInput(EditInput(input, KeyEvent(Char(c), control)), KeyEvent(Backspace, false)) == input
  {
    assert (input + [c])[..|input|] == input;
  }

  /** The line logged when a command is entered. */
  function EchoLine(cmd: string): string {
    "Executing '" + cmd + "' as console"
  }

  /** The command packet: the tag, then the line's UTF-8 bytes. */
  function CommandPacket(cmd: string): (p: seq<byte>)
    ensures |p| >= 1 && p[0] == COMMAND_TAG
  {
    [COMMAND_TAG] + Encode(cmd)
  }

  /** The server reads the entered line back from the packet unchanged. */
  lemma CommandPacketDecodes(cmd: string)
    ensures Decode(CommandPacket(cmd)[1..]) == Some(cmd)
  {
    assert CommandPacket(cmd)[1..] == Encode(cmd);
    DecodeEncode(cmd);
  }

  /** Whether an entered line quits the console. */
  predicate IsQuit(cmd: string) {
    Trim(cmd) == "quit"
  }

  /** What entering `cmd` sends: the command, then EOF when it is `quit`. */
  function EnterPackets(cmd: string): (r: seq<seq<byte>>)
    ensures |r| == (if IsQuit(cmd) then 2 else 1)
    ensures r[0] == CommandPacket(cmd)
    ensures IsQuit(cmd) ==> r[1] == EOF_PACKET
  {
    [CommandPacket(cmd)] + (if IsQuit(cmd) then [EOF_PACKET] else [])
  }

  class Console {
    var logs: seq<string>
    var input: string
    /** The datagrams sent to the server, in order. */
    var sent: seq<seq<byte>>
    var running: bool

    /** `Console::new`, with the key loop running. */
    constructor ()
      ensures logs == [] && input == [] && sent == [] && running
    {
      logs := [];
      input := [];
      sent := [];
      running := true;
    }

    /** `push_log`: append, then drain the oldest lines beyond the cap. */
    method PushLog(line: string)
      modifies this`logs
      ensures logs == KeepLast(old(logs) + [line], MAX_LOGS)
    {
      logs := logs + [line];
      if |logs| > MAX_LOGS {
        logs := logs[|logs| - MAX_LOGS..];
      }
    }

    /** A line from the receiving thread, logged with both addresses; `Shutdown` stops the loop. */
    method Receive(msg: Option<string>, serverAddr: string, localAddr: string)
      modifies this`logs, this`running
      ensures msg.Some? ==>
        running == old(running)
        && logs == KeepLast(old(logs) + ["voudp-aux [" + serverAddr + "] <-> [" + localAddr + "] recv: " + msg.value], MAX_LOGS)
      ensures msg.None? ==> !running && logs == old(logs)
    {
      if msg.Some? {
        PushLog("voudp-aux [" + serverAddr + "] <-> [" + localAddr + "] recv: " + msg.value);
      } else {
        running := false;
      }
    }

    /** The once-a-second keep-alive. */
    method KeepAlive()
      modifies this`sent
      ensures sent == old(sent) + [[KEEP_ALIVE_TAG]]
    {
      sent := sent + [[KEEP_ALIVE_TAG]];
    }

    /**
     * One key press. Ctrl+C sends EOF and stops; a character is appended;
     * Backspace drops the last character; Enter takes the whole line,
     * echoes it to the log, sends it as a command and, for `quit`, also
     * sends EOF and stops.
     */
    method HandleKey(k: KeyEvent)
      modifies this`logs, this`input, this`sent, this`running
      ensures IsInterrupt(k) ==>
        sent == old(sent) + [EOF_PACKET] && !running && input == old(input) && logs == old(logs)
      ensures !IsInterrupt(k) && k.code != Enter ==>
        input == EditInput(old(input), k) && sent == old(sent) && running == old(running) && logs == old(logs)
      ensures !IsInterrupt(k) && k.code == Enter ==>
        && input == []
        && logs == KeepLast(old(logs) + [EchoLine(old(input))], MAX_LOGS)
        && sent == old(sent) + EnterPackets(old(input))
        && running == (old(running) && !IsQuit(old(input)))
    {
      if IsInterrupt(k) {
        sent := sent + [EOF_PACKET];
        running := false;
        return;
      }
      if k.code == Enter {
        EnterLine();
      } else {
        input := EditInput(input, k);
      }
    }

    /** Enter: take the line, echo it, send it, and quit on `quit`. */
    method EnterLine()
      modifies this`logs, this`input, this`sent, this`running
      ensures input == []
      ensures logs == KeepLast(old(logs) + [EchoLine(old(input))], MAX_LOGS)
      ensures sent == old(sent) + EnterPackets(old(input))
      ensures running == (old(running) && !IsQuit(old(input)))
    {
      var cmd := input;
      input := [];
      PushLog(EchoLine(cmd));
      sent := sent + [CommandPacket(cmd)];
      var quit := IsQuit(cmd);
      if quit {
        sent := sent + [EOF_PACKET];
        running := false;
      }
      assert running == (old(running) && !quit);
      assert sent == old(sent) + EnterPackets(cmd);
    }
  }

  /** The log never grows past its cap, whatever was pushed. */
  lemma LogStaysBounded(logs: seq<string>, line: string)
    requires |logs| <= MAX_LOGS
    ensures |KeepLast(logs + [line], MAX_LOGS)| <= MAX_LOGS
    ensures KeepLast(logs + [line], MAX_LOGS)[|KeepLast(logs + [line], MAX_LOGS)| - 1] == line
    ensures |logs| < MAX_LOGS ==> KeepLast(logs + [line], MAX_LOGS) == logs + [line]
    ensures |logs| == MAX_LOGS ==> KeepLast(logs + [line], MAX_LOGS) == logs[1..] + [line]
  {
    KeepLastBounds(logs + [line], MAX_LOGS);
    if |logs| == MAX_LOGS {
      assert (logs + [line])[1..] == logs[1..] + [line];
    }
  }
}
