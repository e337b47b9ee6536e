/**
 * The command-line helpers of the desktop client (voudp-gui/src/main.rs):
 * reading the `.voudp` connection file, filtering the server's slash
 * commands as the user types, tab completion, arrow-key navigation of the
 * suggestion list, and sending a chat line or a command.
 */
module GuiClient {
  import opened Wrappers
  import opened Bytes
  import opened Text
  import opened Utf8
  import opened Commands

  // ---------------------------------------------------------------- config

  const DEFAULT_ADDRESS := "127.0.0.1:37549"
  const DEFAULT_PHRASE := ""
  const DEFAULT_CHANNEL := "1"

  /** The connection settings: address, pass phrase and channel id text. */
  datatype Settings = Settings(address: string, phrase: string, channel: string)

  const DEFAULT_SETTINGS := Settings(DEFAULT_ADDRESS, DEFAULT_PHRASE, DEFAULT_CHANNEL)

  /**
   * `GuiClientApp::default`, given the contents of `.voudp` (None when the
   * file cannot be opened): the first three whitespace-separated words of a
   * non-empty file, and the built-in settings otherwise.
   */
  function LoadSettings(file: Option<string>): (r: Settings)
    ensures file.None? || file.value == [] || |SplitWhitespace(file.value)| < 3 ==> r == DEFAULT_SETTINGS
    ensures file.Some? && |SplitWhitespace(file.value)| >= 3 ==>
      var words := SplitWhitespace(file.value);
      r == Settings(words[0], words[1], words[2])
  {
    if file.Some? && file.value != [] then
      var words := SplitWhitespace(file.value);
      if |words| >= 3 then Settings(words[0], words[1], words[2]) else DEFAULT_SETTINGS
    else DEFAULT_SETTINGS
  }

  /** Settings read from a file are three words, none empty and none holding whitespace. */
  lemma LoadedSettingsAreWords(data: string)
    requires |SplitWhitespace(data)| >= 3
    ensures var r := LoadSettings(Some(data));
      IsToken(r.address) && IsToken(r.phrase) && IsToken(r.channel)
  {
    SplitWhitespaceTokens(data);
  }

  /** A file holding three words separated by single spaces is read back as those words. */
  lemma SettingsRoundTrip(address: string, phrase: string, channel: string)
    requires IsToken(address) && IsToken(phrase) && IsToken(channel)
    ensures LoadSettings(Some(Join([address, phrase, channel], " "))) == Settings(address, phrase, channel)
  {
    SplitJoin([address, phrase, channel]);
  }

  // -------------------------------------------------------------- filtering

  /**
   * `s[1..]` on a Rust string slices at byte 1, which is a character
   * boundary only when the first character is ASCII; any other name panics.
   */
  predicate Sliceable(s: string) {
    s != [] && IsAscii(s[0])
  }

  predicate WellFormed(c: ServerCommand) {
    Sliceable(c.name) && forall i :: 0 <= i < |c.aliases| ==> Sliceable(c.aliases[i])
  }

  predicate AllWellFormed(cmds: seq<ServerCommand>) {
    forall i :: 0 <= i < |cmds| ==> WellFormed(cmds[i])
  }

  /** A name without its leading `/`. */
  function Stripped(s: string): (r: string)
    requires Sliceable(s)
    ensures [s[0]] + r == s
  {
    s[1..]
  }

  /** `char::to_ascii_lowercase`. */
  function LowerChar(c: char): (r: char)
    ensures 'A' <= c <= 'Z' ==> r as int == c as int + 32
    ensures !('A' <= c <= 'Z') ==> r == c
  {
    if 'A' <= c <= 'Z' then (c as int + 32) as char else c
  }

  /** `to_lowercase`, on the ASCII letters. */
  function Lower(s: string): (r: string)
    ensures |r| == |s|
    ensures forall i :: 0 <= i < |s| ==> r[i] == LowerChar(s[i])
  {
    if s == [] then [] else [LowerChar(s[0])] + Lower(s[1..])
  }

  /** The name, or one alias, without its first character starts with the filter, ignoring case. */
  predicate Matches(c: ServerCommand, filter: string)
    requires WellFormed(c)
  {
    StartsWith(Lower(Stripped(c.name)), Lower(filter))
    || exists i :: 0 <= i < |c.aliases| && StartsWith(Lower(Stripped(c.aliases[i])), Lower(filter))
  }

  /** The commands that match, in list order. */
  function FilterMatching(cmds: seq<ServerCommand>, filter: string): (r: seq<ServerCommand>)
    requires AllWellFormed(cmds)
    ensures |r| <= |cmds|
    ensures AllWellFormed(r)
    ensures forall c :: c in r <==> c in cmds && Matches(c, filter)
  {
    if cmds == [] then []
    else
      var rest := FilterMatching(cmds[1..], filter);
      assert forall c :: c in cmds <==> c == cmds[0] || c in cmds[1..];
      if Matches(cmds[0], filter) then [cmds[0]] + rest else rest
  }

  /** `get_filtered_commands`: an empty filter lists every command. */
  function FilteredCommands(cmds: seq<ServerCommand>, filter: string): (r: seq<ServerCommand>)
    requires AllWellFormed(cmds)
    ensures AllWellFormed(r)
    ensures forall c :: c in r <==> c in cmds && Matches(c, filter)
  {
    if filter == [] then
      FilterEmptyKeepsAll(cmds);
      cmds
    else FilterMatching(cmds, filter)
  }

  /** The empty filter matches every command, so the shortcut for it agrees with filtering. */
  lemma {:induction false} FilterEmptyKeepsAll(cmds: seq<ServerCommand>)
    requires AllWellFormed(cmds)
    ensures FilterMatching(cmds, []) == cmds
  {
    if cmds != [] {
      FilterEmptyKeepsAll(cmds[1..]);
      assert StartsWith(Lower(Stripped(cmds[0].name)), Lower([]));
      assert [cmds[0]] + cmds[1..] == cmds;
    }
  }

  /** Filtering keeps list order: it distributes over concatenation. */
  lemma {:induction false} FilterAppend(a: seq<ServerCommand>, b: seq<ServerCommand>, filter: string)
    requires AllWellFormed(a) && AllWellFormed(b)
    ensures AllWellFormed(a + b)
    ensures FilterMatching(a + b, filter) == FilterMatching(a, filter) + FilterMatching(b, filter)
  {
    WellFormedAppend(a, b);
    if a == [] {
      assert a + b == b;
    } else {
      assert (a + b)[0] == a[0] && (a + b)[1..] == a[1..] + b;
      FilterAppend(a[1..], b, filter);
      var head := if Matches(a[0], filter) then [a[0]] else [];
      assert FilterMatching(a, filter) == head + FilterMatching(a[1..], filter);
      assert FilterMatching(a + b, filter) == head + FilterMatching(a[1..] + b, filter);
      assert head + (FilterMatching(a[1..], filter) + FilterMatching(b, filter))
          == (head + FilterMatching(a[1..], filter)) + FilterMatching(b, filter);
    }
  }

  lemma WellFormedAppend(a: seq<ServerCommand>, b: seq<ServerCommand>)
    requires AllWellFormed(a) && AllWellFormed(b)
    ensures AllWellFormed(a + b)
  {
    forall i | 0 <= i < |a + b| ensures WellFormed((a + b)[i]) {
      if i >= |a| {
        assert (a + b)[i] == b[i - |a|];
      }
    }
  }

  /** Lower-casing keeps a prefix a prefix. */
  lemma LowerPrefix(s: string, p: string)
    requires StartsWith(s, p)
    ensures StartsWith(Lower(s), Lower(p))
  {
    assert Lower(s)[..|p|] == Lower(p);
  }

  // ---------------------------------------------------------- common prefix

  /** Every other name has the first name's character at index `k`. */
  predicate AgreeAt(first: string, others: seq<string>, k: nat)
    requires k < |first|
  {
    forall j :: 0 <= j < |others| ==> k < |others[j]| && others[j][k] == first[k]
  }

  /** The length of the longest prefix of `first` shared by every other name, counting from `k`. */
  function SharedLen(first: string, others: seq<string>, k: nat): (n: nat)
    requires k <= |first|
    ensures k <= n <= |first|
    ensures forall i :: k <= i < n ==> AgreeAt(first, others, i)
    ensures n < |first| ==> !AgreeAt(first, others, n)
    decreases |first| - k
  {
    if k < |first| && AgreeAt(first, others, k) then SharedLen(first, others, k + 1) else k
  }

  /** The longest common prefix of a list of names; empty for no names. */
  function CommonPrefix(names: seq<string>): (r: string)
    ensures names != [] ==> StartsWith(names[0], r)
  {
    if names == [] then [] else names[0][..SharedLen(names[0], names[1..], 0)]
  }

  /** The common prefix is a prefix of every name, and no longer one exists. */
  lemma CommonPrefixIsLongest(names: seq<string>)
    requires names != []
    ensures forall j :: 0 <= j < |names| ==> StartsWith(names[j], CommonPrefix(names))
    ensures var p := CommonPrefix(names);
      |p| == |names[0]| || exists j :: 0 <= j < |names| && (|names[j]| <= |p| || names[j][|p|] != names[0][|p|])
  {
    var first, others := names[0], names[1..];
    var n := SharedLen(first, others, 0);
    var p := first[..n];
    forall j | 0 <= j < |names|
      ensures StartsWith(names[j], p)
    {
      if j > 0 {
        assert others[j - 1] == names[j];
        forall i | 0 <= i < n
          ensures i < |names[j]| && names[j][i] == p[i]
        {
          assert AgreeAt(first, others, i);
        }
        if n > 0 {
          assert AgreeAt(first, others, n - 1);
        }
        assert names[j][..n] == p;
      }
    }
    if n < |first| {
      assert !AgreeAt(first, others, n);
      var j :| 0 <= j < |others| && !(n < |others[j]| && others[j][n] == first[n]);
      assert others[j] == names[j + 1];
      assert StartsWith(names[j + 1], p);
    }
  }

  /** One more name checked at index `k`. */
  lemma AgreeAtExtend(first: string, others: seq<string>, k: nat, j: nat)
    requires k < |first| && j < |others|
    requires AgreeAt(first, others[..j], k)
    requires k < |others[j]| && others[j][k] == first[k]
    ensures AgreeAt(first, others[..j + 1], k)
  {
    assert others[..j + 1] == others[..j] + [others[j]];
  }

  /** The stripped names of the listed commands. */
  function StrippedNames(cmds: seq<ServerCommand>): (r: seq<string>)
    requires AllWellFormed(cmds)
    ensures |r| == |cmds|
    ensures forall i :: 0 <= i < |cmds| ==> r[i] == Stripped(cmds[i].name)
  {
    if cmds == [] then [] else [Stripped(cmds[0].name)] + StrippedNames(cmds[1..])
  }

  /**
   * `find_common_prefix`: walk the first name's characters, stop at the first
   * position some other name lacks or differs at, and return what was
   * collected. The source indexes the other names by the position's byte
   * offset in the first name, not its character index; this loop uses the
   * character index, which is what the two agree on for ASCII names (see
   * `CommonPrefixAsWritten`).
   */
  method FindCommonPrefix(cmds: seq<ServerCommand>) returns (prefix: string)
    requires AllWellFormed(cmds)
    ensures prefix == CommonPrefix(StrippedNames(cmds))
  {
    if cmds == [] {
      return [];
    }
    var names := StrippedNames(cmds);
    var first, others := names[0], names[1..];
    prefix := [];
    for i := 0 to |first|
      invariant prefix == first[..i]
      invariant SharedLen(first, others, 0) == SharedLen(first, others, i)
    {
      for j := 0 to |others|
        invariant AgreeAt(first, others[..j], i)
      {
        if i >= |others[j]| || others[j][i] != first[i] {
          assert !AgreeAt(first, others, i);
          assert SharedLen(first, others, i) == i;
          return prefix;
        }
        AgreeAtExtend(first, others, i, j);
      }
      assert others[..|others|] == others;
      assert SharedLen(first, others, i) == SharedLen(first, others, i + 1);
      assert first[..i + 1] == first[..i] + [first[i]];
      prefix := prefix + [first[i]];
    }
  }

  /** The byte offset of character `k` of `s` in its UTF-8 encoding: what `char_indices` yields. */
  function ByteOffset(s: string, k: nat): (i: nat)
    requires k <= |s|
    ensures i >= k
  {
    |Encode(s[..k])|
  }

  /** The source's test at character `k`: the other names are indexed at its byte offset. */
  predicate AgreeAtAsWritten(first: string, others: seq<string>, k: nat)
    requires k < |first|
  {
    var i := ByteOffset(first, k);
    forall j :: 0 <= j < |others| ==> i < |others[j]| && others[j][i] == first[k]
  }

  function SharedLenAsWritten(first: string, others: seq<string>, k: nat): (n: nat)
    requires k <= |first|
    ensures k <= n <= |first|
    decreases |first| - k
  {
    if k < |first| && AgreeAtAsWritten(first, others, k) then SharedLenAsWritten(first, others, k + 1) else k
  }

  /** `find_common_prefix` as written: `name.chars().nth(i)` with `i` a byte offset. */
  function CommonPrefixAsWritten(names: seq<string>): (r: string)
    ensures names != [] ==> StartsWith(names[0], r)
  {
    if names == [] then [] else names[0][..SharedLenAsWritten(names[0], names[1..], 0)]
  }

  /** On a first name of ASCII characters, byte offsets are character indices and the two agree. */
  lemma AsWrittenAgreesOnAscii(names: seq<string>)
    requires names != [] && AllAscii(names[0])
    ensures CommonPrefixAsWritten(names) == CommonPrefix(names)
  {
    var first, others := names[0], names[1..];
    forall k | 0 <= k < |first|
      ensures AgreeAtAsWritten(first, others, k) == AgreeAt(first, others, k)
    {
      EncodeAscii(first[..k]);
    }
    SharedLenAgree(first, others, 0);
  }

  lemma {:induction false} SharedLenAgree(first: string, others: seq<string>, k: nat)
    requires k <= |first|
    requires forall i :: 0 <= i < |first| ==> AgreeAtAsWritten(first, others, i) == AgreeAt(first, others, i)
    ensures SharedLenAsWritten(first, others, k) == SharedLen(first, others, k)
    decreases |first| - k
  {
    if k < |first| && AgreeAt(first, others, k) {
      SharedLenAgree(first, others, k + 1);
    }
  }

  /**
   * With a two-byte first character the as-written loop compares `a` at
   * character 1 of `éab` with character 2 of `éxa`, so it returns `éa`,
   * which does not begin `éxa`.
   */
  lemma AsWrittenNotCommon()
    ensures CommonPrefixAsWritten(["éab", "éxa"]) == "éa"
    ensures !StartsWith("éxa", CommonPrefixAsWritten(["éab", "éxa"]))
  {
    var first, others := "éab", ["éxa"];
    assert EncodeChar('é') == [0xC3, 0xA9];
    assert Encode("é") == [0xC3, 0xA9] by {
      assert "é"[1..] == [];
    }
    assert first[..1] == "é";
    assert ByteOffset(first, 0) == 0 by {
      assert first[..0] == [];
    }
    assert ByteOffset(first, 1) == 2;
    assert ByteOffset(first, 2) >= 2 + 1 by {
      assert first[..2] == "é" + "a";
      EncodeConcat("é", "a");
    }
    assert AgreeAtAsWritten(first, others, 0);
    assert AgreeAtAsWritten(first, others, 1);
    assert |others[0]| == 3;
    assert !AgreeAtAsWritten(first, others, 2);
    assert SharedLenAsWritten(first, others, 0) == 2;
    assert first[..2] == "éa";
  }

  // ------------------------------------------------------------ navigation

  /** Arrow down: the next suggestion, wrapping to the first. */
  function NavDown(sel: nat, n: nat): (r: nat)
    requires n > 0
    ensures r < n
  {
    (sel + 1) % n
  }

  /** Arrow up: the previous suggestion, wrapping from the first to the last. */
  function NavUp(sel: nat, n: nat): (r: nat)
    requires n > 0
    ensures sel < n ==> r < n
  {
    if sel == 0 then n - 1 else sel - 1
  }

  /** The selection after one frame: up wins over down when both are pressed. */
  function Navigate(sel: nat, n: nat, down: bool, up: bool): (r: nat)
    requires n > 0
    ensures sel < n || (down && !up) ==> r < n
    ensures !down && !up ==> r == sel
  {
    if up then NavUp(sel, n) else if down then NavDown(sel, n) else sel
  }

  /** Up undoes down and down undoes up on a selection inside the list. */
  lemma NavInverse(sel: nat, n: nat)
    requires sel < n
    ensures NavUp(NavDown(sel, n), n) == sel
    ensures NavDown(NavUp(sel, n), n) == sel
  {
    if sel + 1 < n {
      assert NavDown(sel, n) == sel + 1;
    } else {
      assert NavDown(sel, n) == 0;
    }
  }

  // ------------------------------------------------------------------ state

  /** Packet tags the client sends: a chat line and a slash command. */
  const CHAT_TAG: byte := 0x06
  const COMMAND_TAG: byte := 0x0d
  const NICK_FIRST := "You need to set" + " a nickname first!"
  const NOT_CONNECTED := "Not connected"

  /** The fields of `GuiClientApp` the command line works on. */
  class GuiClient {
    var input: string
    var filterText: string
    var selected: nat
    var showSuggestions: bool
    var commandList: seq<ServerCommand>
    var nicked: bool
    var showMaskScreen: bool
    var errorMessage: string
    /** Whether a socket exists; datagrams handed to it are appended to `sent`. */
    var connected: bool
    var sent: seq<seq<byte>>
    var logs: seq<string>

    predicate Valid()
      reads this
    {
      AllWellFormed(commandList)
    }

    function Filtered(): (r: seq<ServerCommand>)
      reads this
      requires Valid()
      ensures forall c :: c in r <==> c in commandList && Matches(c, filterText)
    {
      FilteredCommands(commandList, filterText)
    }

    /** Hands a datagram to the socket, or logs that there is none. */
    method Send(msg: seq<byte>)
      modifies this`sent, this`logs
      ensures connected ==> sent == old(sent) + [msg] && logs == old(logs)
      ensures !connected ==> sent == old(sent) && logs == old(logs) + [NOT_CONNECTED]
    {
      if connected {
        sent := sent + [msg];
      } else {
        logs := logs + [NOT_CONNECTED];
      }
    }

    /** `send_message`: a non-empty line goes out as a chat packet once a nickname is set. */
    method SendMessage()
      modifies this`input, this`showMaskScreen, this`sent, this`logs
      ensures old(input) == [] ==> unchanged(this)
      ensures old(input) != [] && !nicked ==>
        showMaskScreen && input == old(input) && sent == old(sent) && logs == old(logs)
      ensures old(input) != [] && nicked ==>
        && input == [] && showMaskScreen == old(showMaskScreen)
        && (connected ==> sent == old(sent) + [[CHAT_TAG] + Encode(old(input))] && logs == old(logs))
        && (!connected ==> sent == old(sent) && logs == old(logs) + [NOT_CONNECTED])
    {
      if input == [] {
        return;
      }
      if !nicked {
        showMaskScreen := true;
        return;
      }
      Send([CHAT_TAG] + Encode(input));
      input := [];
    }

    /** `execute_command`: a line starting with `/` goes out as a command packet. */
    method ExecuteCommand()
      modifies this`input, this`showSuggestions, this`selected, this`sent, this`logs
      ensures !StartsWith(old(input), "/") ==> unchanged(this)
      ensures StartsWith(old(input), "/") ==>
        && input == [] && !showSuggestions && selected == 0
        && (connected ==> sent == old(sent) + [[COMMAND_TAG] + Encode(old(input))] && logs == old(logs))
        && (!connected ==> sent == old(sent) && logs == old(logs) + [NOT_CONNECTED])
    {
      if input == [] || !StartsWith(input, "/") {
        return;
      }
      showSuggestions := false;
      selected := 0;
      Send([COMMAND_TAG] + Encode(input));
      input := [];
    }

    /**
     * `tab_complete`: a single match is completed with a trailing space; with
     * several, the input grows to their common prefix when that is new.
     */
    method TabComplete()
      requires Valid()
      modifies this`input, this`filterText, this`showSuggestions
      ensures var f := FilteredCommands(commandList, old(filterText));
        && (f == [] ==> unchanged(this))
        && (|f| == 1 ==> input == f[0].name + " " && !showSuggestions && filterText == old(filterText))
        && (|f| > 1 ==>
              var p := CommonPrefix(StrippedNames(f));
              showSuggestions == old(showSuggestions)
              && if p != [] && p != old(filterText) then input == "/" + p && filterText == p
                 else input == old(input) && filterText == old(filterText))
    {
      var f := FilteredCommands(commandList, filterText);
      if f == [] {
        return;
      }
      if |f| == 1 {
        input := f[0].name + " ";
        showSuggestions := false;
        return;
      }
      var p := FindCommonPrefix(f);
      if p != [] && p != filterText {
        input := "/" + p;
        filterText := p;
      }
    }

    /**
     * `handle_command_nav` for one frame, given which of the arrow, Enter and
     * Escape keys were pressed: arrows move the selection, Enter completes
     * the selected command (or asks for a nickname first) and Escape closes
     * the list.
     */
    method HandleCommandNav(down: bool, up: bool, enter: bool, escape: bool) returns (handled: bool)
      requires Valid()
      modifies this`selected, this`showSuggestions, this`input, this`showMaskScreen, this`errorMessage
      ensures var f := FilteredCommands(commandList, filterText);
        !old(showSuggestions) || commandList == [] || f == [] ==> !handled && unchanged(this)
      ensures var f := FilteredCommands(commandList, filterText);
        old(showSuggestions) && commandList != [] && f != [] ==>
          var picked := enter && selected < |f|;
          var refused := picked && f[selected].requiresAuth && !nicked;
          && handled == (down || up || enter || escape)
          && selected == Navigate(old(selected), |f|, down, up)
          && showSuggestions == !(escape || picked)
          && input == (if picked && !refused then f[selected].name + " " else old(input))
          && showMaskScreen == (old(showMaskScreen) || refused)
          && errorMessage == (if refused then NICK_FIRST else old(errorMessage))
    {
      if !showSuggestions || commandList == [] {
        return false;
      }
      var f := FilteredCommands(commandList, filterText);
      var n := |f|;
      if n == 0 {
        return false;
      }
      var current := selected;
      MoveSelection(n, down, up);
      handled := down || up;
      if enter {
        var choice := if handled && (down || up) then selected else current;
        if choice < n {
          ChooseSuggestion(f[choice]);
        }
        handled := true;
      }
      if escape {
        showSuggestions := false;
        handled := true;
      }
    }

    /** The arrow keys: down moves to the next suggestion, then up, read against the same start, to the previous. */
    method MoveSelection(n: nat, down: bool, up: bool)
      requires n > 0
      modifies this`selected
      ensures selected == Navigate(old(selected), n, down, up)
    {
      var current := selected;
      if down {
        selected := NavDown(current, n);
      }
      if up {
        selected := NavUp(current, n);
      }
    }

    /**
     * Enter on a suggestion: a command that needs a nickname, while none is
     * set, opens the nickname screen; any other fills the input with its
     * name. The list closes either way.
     */
    method ChooseSuggestion(command: ServerCommand)
      modifies this`input, this`showMaskScreen, this`errorMessage, this`showSuggestions
      ensures !showSuggestions
      ensures command.requiresAuth && !nicked ==>
        showMaskScreen && errorMessage == NICK_FIRST && input == old(input)
      ensures !(command.requiresAuth && !nicked) ==>
        input == command.name + " " && showMaskScreen == old(showMaskScreen) && errorMessage == old(errorMessage)
    {
      if command.requiresAuth && !nicked {
        showMaskScreen := true;
        errorMessage := NICK_FIRST;
      } else {
        input := command.name + " ";
      }
      showSuggestions := false;
    }
  }

  /**
   * After a completion to the common prefix, every command that matched the
   * old filter still matches the new one: completion never hides a candidate.
   */
  lemma CompletionKeepsCandidates(cmds: seq<ServerCommand>, filter: string)
    requires AllWellFormed(cmds)
    requires |FilteredCommands(cmds, filter)| > 1
    ensures var f := FilteredCommands(cmds, filter);
      forall c :: c in f ==> c in FilteredCommands(cmds, CommonPrefix(StrippedNames(f)))
  {
    var f := FilteredCommands(cmds, filter);
    var names := StrippedNames(f);
    var p := CommonPrefix(names);
    CommonPrefixIsLongest(names);
    forall c | c in f
      ensures Matches(c, p)
    {
      var j :| 0 <= j < |f| && f[j] == c;
      LowerPrefix(names[j], p);
    }
  }
}
