/**
 * Commands an admin console sends to the server (voudp/src/console_cmd.rs):
 * fixed replies, and rename, create and delete on the channel table.
 */
module ConsoleCmd {
  import opened Wrappers
  import opened Bytes
  import opened Text
  import opened Iteration
  import opened Registry

  // Replies longer than a word are written as two joined halves, so that
  // the verifier does not expand their UTF-8 encoding character by character
  // wherever a reply is sent; the text is exactly the source's.
  const HELP_REPLY := "you are connected to" + " a voudp 0.1 server"
  const PING_REPLY := "pong"
  const LIST_REPLY := "global list cannot be displayed" + " with crossterm"
  const UNKNOWN_REPLY := "unknown command. read the manual" + " on executing remote commands"
  const RENAME_USAGE := "usage: rename <channel>" + " <new-name>"
  const CREATE_USAGE := "usage: create" + " <channel_name>"
  const DEL_USAGE := "usage: del" + " <channel_id|channel_name>"
  const DEL_DEFAULT_REPLY := "cannot delete the default channel" + " defined by the voudp protocol"
  const NOT_FOUND_REPLY := "channel not" + " found"

  /** The commands whose reply is a constant and which touch nothing. */
  predicate IsFixed(cmd: string) {
    cmd != "rename" && cmd != "chans" && cmd != "create" && cmd != "del"
  }

  function FixedReply(cmd: string): (r: string)
    requires IsFixed(cmd)
    ensures cmd == "help" ==> r == HELP_REPLY
    ensures cmd == "ping" ==> r == PING_REPLY
    ensures cmd == "list" ==> r == LIST_REPLY
    ensures cmd != "help" && cmd != "ping" && cmd != "list" ==> r == UNKNOWN_REPLY
  {
    if cmd == "help" then HELP_REPLY
    else if cmd == "ping" then PING_REPLY
    else if cmd == "list" then LIST_REPLY
    else UNKNOWN_REPLY
  }

  function NameOr(name: Option<string>, fallback: string): string {
    if name.Some? then name.value else fallback
  }

  /** Some channel carries this name. */
  ghost predicate Named(channels: map<u32, Channel>, name: string) {
    exists id :: id in channels && channels[id].name == Some(name)
  }

  /**
   * What `rename <channel> <new-name…>` does: with fewer than three words a
   * usage reply; for a name no channel carries a not-found reply; otherwise
   * one channel carrying that name takes the joined rest as its name.
   */
  ghost predicate RenamePost(parts: seq<string>, channels: map<u32, Channel>, reply: string, updated: map<u32, Channel>) {
    if |parts| < 3 then reply == RENAME_USAGE && updated == channels
    else if !Named(channels, parts[1]) then reply == "channel '" + parts[1] + "' not found" && updated == channels
    else exists id :: (
      && id in channels && channels[id].name == Some(parts[1])
      && updated == channels[id := channels[id].(name := Some(Join(parts[2..], " ")))]
      && reply == "renamed channel '" + parts[1] + "' -> '" + Join(parts[2..], " ") + "'")
  }

  /** `rename`: the first channel found with that name takes the joined rest as its name. */
  method Rename(parts: seq<string>, channels: map<u32, Channel>) returns (reply: string, updated: map<u32, Channel>)
    ensures RenamePost(parts, channels, reply, updated)
  {
    if |parts| < 3 {
      return RENAME_USAGE, channels;
    }
    var ident := parts[1];
    var newName := Join(parts[2..], " ");
    var order := Enumerate(channels.Keys);
    var i := 0;
    while i < |order| && channels[order[i]].name != Some(ident)
      invariant 0 <= i <= |order|
      invariant forall j :: 0 <= j < i ==> channels[order[j]].name != Some(ident)
    {
      i := i + 1;
    }
    if i == |order| {
      assert !Named(channels, ident) by {
        forall id | id in channels ensures channels[id].name != Some(ident) {
          var j :| 0 <= j < |order| && order[j] == id;
        }
      }
      return "channel '" + ident + "' not found", channels;
    }
    var id := order[i];
    var oldName := NameOr(channels[id].name, "unnamed");
    updated := channels[id := channels[id].(name := Some(newName))];
    reply := "renamed channel '" + oldName + "' -> '" + newName + "'";
  }

  /** One `chans` entry: `name (id)`, with `unnamed` for a channel without a name. */
  function ChanEntry(channels: map<u32, Channel>, id: u32): string
    requires id in channels
  {
    NameOr(channels[id].name, "unnamed") + " (" + NatToString(id) + ")"
  }

  function ChanEntries(channels: map<u32, Channel>, order: seq<u32>): (r: seq<string>)
    requires forall i :: 0 <= i < |order| ==> order[i] in channels
    ensures |r| == |order|
    ensures forall i :: 0 <= i < |order| ==> r[i] == ChanEntry(channels, order[i])
  {
    if order == [] then [] else [ChanEntry(channels, order[0])] + ChanEntries(channels, order[1..])
  }

  /** The `chans` reply for the channels visited in `order`: one entry per channel, joined by ", ". */
  function ChansReply(channels: map<u32, Channel>, order: seq<u32>): (r: string)
    requires IsEnumeration(order, channels.Keys)
  {
    Join(ChanEntries(channels, order), ", ")
  }

  /** The reply lists one entry per channel. */
  lemma ChansReplyCount(channels: map<u32, Channel>, order: seq<u32>)
    requires IsEnumeration(order, channels.Keys)
    ensures |ChanEntries(channels, order)| == |channels|
    ensures forall id :: id in channels ==> ChanEntry(channels, id) in ChanEntries(channels, order)
  {
    EnumerationSize(order, channels.Keys);
    forall id | id in channels ensures ChanEntry(channels, id) in ChanEntries(channels, order) {
      var j :| 0 <= j < |order| && order[j] == id;
      assert ChanEntries(channels, order)[j] == ChanEntry(channels, id);
    }
  }

  /** The largest key of a non-empty key set. */
  ghost function MaxKey(keys: set<u32>): (m: u32)
    requires keys != {}
    ensures m in keys && forall k :: k in keys ==> k <= m
    decreases |keys|
  {
    var x :| x in keys;
    if keys == {x} then x
    else
      var m := MaxKey(keys - {x});
      assert forall k :: k in keys ==> k == x || k in keys - {x};
      if x > m then x else m
  }

  /**
   * `keys().max().map_or(1, |id| id + 1)`, with the addition wrapping at
   * 2^32 as it does in a release build.
   */
  ghost function NextId(keys: set<u32>): u32 {
    if keys == {} then 1 else (MaxKey(keys) + 1) % 0x1_0000_0000
  }

  /** Below the top of the `u32` range the new id is fresh. */
  lemma NextIdFresh(keys: set<u32>)
    requires keys == {} || MaxKey(keys) < U32_MAX
    ensures NextId(keys) !in keys
    ensures NextId(keys) != 1 || keys == {} || keys == {0}
  {
  }

  /** Once `u32::MAX` is a key the addition wraps and the new id is 0. */
  lemma NextIdWraps(keys: set<u32>)
    requires U32_MAX in keys
    ensures NextId(keys) == 0
  {
  }

  /** The sample rate as `{}` prints `rate as f64 / 1000.0`: trailing fraction zeros dropped. */
  function KhzText(rate: u32): string {
    var whole := NatToString(rate / 1000);
    var f := rate % 1000;
    if f == 0 then whole
    else if f % 10 != 0 then whole + "." + [Digit(f / 100), Digit(f / 10 % 10), Digit(f % 10)]
    else if f % 100 != 0 then whole + "." + [Digit(f / 100), Digit(f / 10 % 10)]
    else whole + "." + [Digit(f / 100)]
  }

  /** `keys().max()`: a pass over the keys keeping the largest seen. */
  method LargestKey(keys: set<u32>) returns (max: u32)
    requires keys != {}
    ensures max == MaxKey(keys)
  {
    var order := Enumerate(keys);
    max := order[0];
    for i := 1 to |order|
      invariant max in keys
      invariant forall j :: 0 <= j < i ==> order[j] <= max
    {
      if order[i] > max {
        max := order[i];
      }
    }
    ghost var m := MaxKey(keys);
    ghost var j :| 0 <= j < |order| && order[j] == m;
  }

  /**
   * What `create <name…>` does: with fewer than two words a usage reply;
   * otherwise a channel named by the joined rest under the id after the
   * largest, and a reply naming it, its id and the sample rate in kHz.
   */
  ghost predicate CreatePost(parts: seq<string>, channels: map<u32, Channel>, config: ServerConfig,
                             reply: string, updated: map<u32, Channel>) {
    if |parts| < 2 then reply == CREATE_USAGE && updated == channels
    else
      var name := Join(parts[1..], " ");
      var id := NextId(channels.Keys);
      && updated == channels[id := NewChannel(name, id)]
      && reply == "created channel '" + name + "' with id " + NatToString(id)
                  + " (" + KhzText(config.sampleRate) + "kHz)"
  }

  /** `create`: the new channel goes under the id after the largest. */
  method Create(parts: seq<string>, channels: map<u32, Channel>, config: ServerConfig)
    returns (reply: string, updated: map<u32, Channel>)
    ensures CreatePost(parts, channels, config, reply, updated)
  {
    if |parts| < 2 {
      return CREATE_USAGE, channels;
    }
    var name := Join(parts[1..], " ");
    var newId: u32 := 1;
    if channels.Keys != {} {
      var max := LargestKey(channels.Keys);
      newId := if max == U32_MAX then 0 else max + 1;
    }
    updated := channels[newId := NewChannel(name, newId)];
    reply := "created channel '" + name + "' with id " + NatToString(newId)
             + " (" + KhzText(config.sampleRate) + "kHz)";
  }

  function DeletedReply(name: Option<string>, id: u32): string {
    "deleted channel '" + NameOr(name, "unknown") + "' (id " + NatToString(id) + ") and moved users to default"
  }

  /**
   * What `del <id|name>` does: with fewer than two words a usage reply. A
   * numeric target is an id, where 1 is refused as not found and any other
   * existing id is removed. Any other target is the name of a channel; one
   * channel carrying it is removed, unless that channel is 1, which is
   * refused as the default.
   */
  ghost predicate DeletePost(parts: seq<string>, channels: map<u32, Channel>, reply: string, updated: map<u32, Channel>) {
    if |parts| < 2 then reply == DEL_USAGE && updated == channels
    else if ParseU32(parts[1]).Some? then
      var id := ParseU32(parts[1]).value;
      if id == 1 || id !in channels then reply == NOT_FOUND_REPLY && updated == channels
      else reply == DeletedReply(channels[id].name, id) && updated == channels - {id}
    else if !Named(channels, parts[1]) then reply == NOT_FOUND_REPLY && updated == channels
    else exists id :: (
      && id in channels && channels[id].name == Some(parts[1])
      && if id == 1 then reply == DEL_DEFAULT_REPLY && updated == channels
         else reply == DeletedReply(channels[id].name, id) && updated == channels - {id})
  }

  /** `del`: looks the target up by id or by name and removes it, never channel 1. */
  method Delete(parts: seq<string>, channels: map<u32, Channel>) returns (reply: string, updated: map<u32, Channel>)
    ensures DeletePost(parts, channels, reply, updated)
    ensures 1 in channels ==> 1 in updated && updated[1] == channels[1]
    ensures updated.Keys <= channels.Keys
    ensures forall id :: id in updated ==> updated[id] == channels[id]
  {
    if |parts| < 2 {
      return DEL_USAGE, channels;
    }
    var target := parts[1];
    var toDelete: Option<u32>;
    var parsed := ParseU32(target);
    if parsed.Some? {
      toDelete := if parsed.value == 1 then None else Some(parsed.value);
    } else {
      var order := Enumerate(channels.Keys);
      var i := 0;
      while i < |order| && channels[order[i]].name != Some(target)
        invariant 0 <= i <= |order|
        invariant forall j :: 0 <= j < i ==> channels[order[j]].name != Some(target)
      {
        i := i + 1;
      }
      if i == |order| {
        assert !Named(channels, target) by {
          forall id | id in channels ensures channels[id].name != Some(target) {
            var j :| 0 <= j < |order| && order[j] == id;
          }
        }
        toDelete := None;
      } else {
        toDelete := Some(order[i]);
      }
    }
    if toDelete.None? {
      return NOT_FOUND_REPLY, channels;
    }
    var id := toDelete.value;
    if id == 1 {
      return DEL_DEFAULT_REPLY, channels;
    }
    if id in channels {
      reply := DeletedReply(channels[id].name, id);
      updated := channels - {id};
    } else {
      reply := NOT_FOUND_REPLY;
      updated := channels;
    }
  }

  /** What a console line does, by its first word. */
  ghost predicate CommandPost(cmd: string, parts: seq<string>, channels: map<u32, Channel>, config: ServerConfig,
                              reply: string, updated: map<u32, Channel>) {
    if cmd == "rename" then RenamePost(parts, channels, reply, updated)
    else if cmd == "chans" then
      updated == channels && exists order :: IsEnumeration(order, channels.Keys) && reply == ChansReply(channels, order)
    else if cmd == "create" then CreatePost(parts, channels, config, reply, updated)
    else if cmd == "del" then DeletePost(parts, channels, reply, updated)
    else reply == FixedReply(cmd) && updated == channels
  }

  /** `handle_command`: dispatch on the first word of the console line. */
  method HandleCommand(cmd: string, parts: seq<string>, channels: map<u32, Channel>, config: ServerConfig)
    returns (reply: string, updated: map<u32, Channel>)
    ensures CommandPost(cmd, parts, channels, config, reply, updated)
    ensures 1 in channels ==> 1 in updated
    ensures forall id :: id in updated ==>
      updated[id].members == [] || (id in channels && updated[id].members == channels[id].members)
  {
    if cmd == "rename" {
      reply, updated := Rename(parts, channels);
      RenameKeeps(parts, channels, reply, updated);
    } else if cmd == "chans" {
      var order := Enumerate(channels.Keys);
      reply, updated := ChansReply(channels, order), channels;
    } else if cmd == "create" {
      reply, updated := Create(parts, channels, config);
      if |parts| >= 2 && 1 in channels {
        assert NextId(channels.Keys) != 1;
      }
    } else if cmd == "del" {
      reply, updated := Delete(parts, channels);
      DeleteKeeps(parts, channels, reply, updated);
    } else {
      reply, updated := FixedReply(cmd), channels;
    }
  }

  /** A rename keeps every id and every channel's members. */
  lemma RenameKeeps(parts: seq<string>, channels: map<u32, Channel>, reply: string, updated: map<u32, Channel>)
    requires RenamePost(parts, channels, reply, updated)
    ensures updated.Keys == channels.Keys
    ensures forall id :: id in updated ==> updated[id].members == channels[id].members
  {
    if |parts| >= 3 && Named(channels, parts[1]) {
      var id :| id in channels && channels[id].name == Some(parts[1])
        && updated == channels[id := channels[id].(name := Some(Join(parts[2..], " ")))];
    }
  }

  /** A deletion only removes ids, never channel 1, and leaves the rest as they were. */
  lemma DeleteKeeps(parts: seq<string>, channels: map<u32, Channel>, reply: string, updated: map<u32, Channel>)
    requires DeletePost(parts, channels, reply, updated)
    ensures updated.Keys <= channels.Keys
    ensures 1 in channels ==> 1 in updated
    ensures forall id :: id in updated ==> updated[id] == channels[id]
  {
    if |parts| >= 2 && ParseU32(parts[1]).None? && Named(channels, parts[1]) {
      var id :| id in channels && channels[id].name == Some(parts[1]) &&
        if id == 1 then reply == DEL_DEFAULT_REPLY && updated == channels
        else reply == DeletedReply(channels[id].name, id) && updated == channels - {id};
    }
  }

  /** Below the top of the `u32` range, creating adds one fresh id and keeps every existing channel. */
  lemma CreateAdds(parts: seq<string>, channels: map<u32, Channel>, config: ServerConfig, reply: string, updated: map<u32, Channel>)
    requires CreatePost(parts, channels, config, reply, updated)
    requires |parts| >= 2 && (channels.Keys == {} || MaxKey(channels.Keys) < U32_MAX)
    ensures updated.Keys == channels.Keys + {NextId(channels.Keys)} && NextId(channels.Keys) !in channels
    ensures forall id :: id in channels ==> updated[id] == channels[id]
    ensures updated[NextId(channels.Keys)].name == Some(Join(parts[1..], " ")) && updated[NextId(channels.Keys)].members == []
  {
    NextIdFresh(channels.Keys);
  }
}
