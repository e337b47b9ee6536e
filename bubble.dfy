/**
 * The GUI's chat-log line parsers (voudp-gui/src/bubble.rs). The log holds
 * lines the client formatted itself: chat lines `[#{channel}] {name}: {content}`
 * and system lines `[{source}] {text}`. The parsers take such a line apart
 * again to draw it as a bubble.
 */
module Bubble {
  import opened Wrappers
  import opened Text

  const CHAT_OPEN := "[#"
  const SYSTEM_OPEN := "["
  const SOURCE_END := "] "
  const NAME_END := ": "

  /** The chat line the GUI logs for a received message (voudp-gui/src/main.rs). */
  function FormatChat(channel: string, name: string, content: string): string {
    CHAT_OPEN + channel + SOURCE_END + name + NAME_END + content
  }

  /**
   * `parse_chat_message`: after `[#`, the channel runs to the first `] `,
   * the name to the next `: `, and the content is the rest.
   */
  function ParseChatMessage(msg: string): (r: Option<(string, string, string)>)
    ensures !StartsWith(msg, CHAT_OPEN) ==> r.None?
    ensures r.Some? ==> msg == FormatChat(r.value.0, r.value.1, r.value.2)
    ensures r.Some? ==> !Contains(r.value.0, SOURCE_END) && !Contains(r.value.1, NAME_END)
  {
    if !StartsWith(msg, CHAT_OPEN) then None
    else
      var body := msg[|CHAT_OPEN|..];
      match SplitOnce(body, SOURCE_END)
      case None => None
      case Some((channel, rest)) =>
        match SplitOnce(rest, NAME_END)
        case None => None
        case Some((name, content)) =>
          ChatParts(msg, body, channel, rest, name, content);
          NoPrefixOccurrence(body, SOURCE_END, channel, rest);
          NoPrefixOccurrence(rest, NAME_END, name, content);
          Some((channel, name, content))
  }

  /** `parse_system_message`: after `[`, the source runs to the first `] ` and the text is the rest. */
  function ParseSystemMessage(msg: string): (r: Option<(string, string)>)
    ensures !StartsWith(msg, SYSTEM_OPEN) ==> r.None?
    ensures r.Some? ==> msg == SYSTEM_OPEN + r.value.0 + SOURCE_END + r.value.1
    ensures r.Some? ==> !Contains(r.value.0, SOURCE_END)
  {
    if !StartsWith(msg, SYSTEM_OPEN) then None
    else
      var body := msg[|SYSTEM_OPEN|..];
      match SplitOnce(body, SOURCE_END)
      case None => None
      case Some((source, rest)) =>
        SystemParts(msg, body, source, rest);
        NoPrefixOccurrence(body, SOURCE_END, source, rest);
        Some((source, rest))
  }

  lemma ChatParts(msg: string, body: string, channel: string, rest: string, name: string, content: string)
    requires StartsWith(msg, CHAT_OPEN) && body == msg[|CHAT_OPEN|..]
    requires body == channel + SOURCE_END + rest && rest == name + NAME_END + content
    ensures msg == FormatChat(channel, name, content)
  {
    calc {
      msg;
      CHAT_OPEN + body;
      CHAT_OPEN + (channel + SOURCE_END + (name + NAME_END + content));
      CHAT_OPEN + channel + SOURCE_END + name + NAME_END + content;
    }
  }

  lemma SystemParts(msg: string, body: string, source: string, rest: string)
    requires StartsWith(msg, SYSTEM_OPEN) && body == msg[|SYSTEM_OPEN|..]
    requires body == source + SOURCE_END + rest
    ensures msg == SYSTEM_OPEN + source + SOURCE_END + rest
  {
    calc {
      msg;
      SYSTEM_OPEN + body;
      SYSTEM_OPEN + (source + SOURCE_END + rest);
    }
  }

  /** A chat line read as a system line: its source is `#` and the channel. */
  lemma ChatAsSystem(channel: string, name: string, content: string)
    ensures FormatChat(channel, name, content) == SYSTEM_OPEN + (("#" + channel) + SOURCE_END + (name + NAME_END + content))
  {
    assert CHAT_OPEN == SYSTEM_OPEN + "#";
    calc {
      FormatChat(channel, name, content);
      CHAT_OPEN + channel + SOURCE_END + name + NAME_END + content;
      SYSTEM_OPEN + (("#" + channel) + SOURCE_END + (name + NAME_END + content));
    }
  }

  /** The part before a first occurrence does not itself contain the pattern. */
  lemma NoPrefixOccurrence(s: string, pat: string, a: string, b: string)
    requires pat != []
    requires s == a + pat + b
    requires forall j :: 0 <= j < |a| ==> !OccursAt(s, pat, j)
    ensures !Contains(a, pat)
  {
    if Contains(a, pat) {
      var j :| OccursAt(a, pat, j);
      assert s[j..j + |pat|] == a[j..j + |pat|];
      assert OccursAt(s, pat, j);
    }
  }

  /** A chat line fails to parse exactly when a separator is missing after the `[#`. */
  lemma ChatNoneIff(msg: string)
    ensures ParseChatMessage(msg).None? <==>
      !StartsWith(msg, CHAT_OPEN)
      || SplitOnce(msg[|CHAT_OPEN|..], SOURCE_END).None?
      || SplitOnce(SplitOnce(msg[|CHAT_OPEN|..], SOURCE_END).value.1, NAME_END).None?
  {
  }

  /** Parsing what the GUI formatted gives back its three parts when the separators cannot occur early. */
  lemma ChatRoundTrip(channel: string, name: string, content: string)
    requires !Contains(channel, SOURCE_END) && !Contains(name, NAME_END)
    ensures ParseChatMessage(FormatChat(channel, name, content)) == Some((channel, name, content))
  {
    var msg := FormatChat(channel, name, content);
    var rest := name + NAME_END + content;
    assert msg[..|CHAT_OPEN|] == CHAT_OPEN;
    assert msg[|CHAT_OPEN|..] == channel + SOURCE_END + rest;
    NoEarlyOccurrence(channel, SOURCE_END, rest);
    SplitOnceAt(channel + SOURCE_END + rest, SOURCE_END, channel, rest);
    NoEarlyOccurrence(name, NAME_END, content);
    SplitOnceAt(rest, NAME_END, name, content);
  }

  /** A string without a `:` has no `: ` in it. */
  lemma NoColon(s: string)
    requires forall j :: 0 <= j < |s| ==> s[j] != ':'
    ensures !Contains(s, NAME_END)
  {
    forall j
      ensures !OccursAt(s, NAME_END, j)
    {
      if 0 <= j && j + 2 <= |s| {
        assert s[j..j + 2][0] == s[j];
      }
    }
  }

  /** The round trip fails when the channel holds a `] `: the parser splits at the earlier one. */
  lemma ChatRoundTripNeedsPlainChannel()
    ensures ParseChatMessage(FormatChat("a] b", "n", "c")) == Some(("a", "b] n", "c"))
  {
    assert FormatChat("a] b", "n", "c") == FormatChat("a", "b] n", "c");
    NoColon("b] n");
    ChatRoundTrip("a", "b] n", "c");
  }

  /** A leading `#` cannot start a `] `. */
  lemma HashKeepsNoSourceEnd(channel: string)
    requires !Contains(channel, SOURCE_END)
    ensures !Contains("#" + channel, SOURCE_END)
  {
    var source := "#" + channel;
    forall j | OccursAt(source, SOURCE_END, j)
      ensures false
    {
      assert source[j] == ']';
      assert channel[j - 1..j + 1] == source[j..j + 2];
      assert OccursAt(channel, SOURCE_END, j - 1);
    }
  }

  /** Every chat line is also a system line whose source is `#` and the channel. */
  lemma ChatIsSystem(msg: string)
    requires ParseChatMessage(msg).Some?
    ensures var (channel, name, content) := ParseChatMessage(msg).value;
      ParseSystemMessage(msg) == Some(("#" + channel, name + NAME_END + content))
  {
    var (channel, name, content) := ParseChatMessage(msg).value;
    assert msg == FormatChat(channel, name, content);
    var source := "#" + channel;
    var rest := name + NAME_END + content;
    ChatAsSystem(channel, name, content);
    HashKeepsNoSourceEnd(channel);
    SystemOfParts(msg, source, rest);
  }

  /** A system line assembled from a source without `] ` parses back to its parts. */
  lemma SystemOfParts(msg: string, source: string, rest: string)
    requires msg == SYSTEM_OPEN + (source + SOURCE_END + rest)
    requires !Contains(source, SOURCE_END)
    ensures ParseSystemMessage(msg) == Some((source, rest))
  {
    var body := source + SOURCE_END + rest;
    assert msg[..|SYSTEM_OPEN|] == SYSTEM_OPEN && msg[|SYSTEM_OPEN|..] == body;
    NoEarlyOccurrence(source, SOURCE_END, rest);
    SplitOnceAt(body, SOURCE_END, source, rest);
  }
}
