/**
 * The plaintexts the server builds (voudp/src/server.rs): direct messages,
 * flow notices, chat fan-out, the channel list and the command catalogue.
 */
module ServerPackets {
  import opened Wrappers
  import opened Bytes
  import opened Net
  import opened Utf8
  import opened Protocol
  import opened Registry
  import Commands
  import opened Iteration

  /** What the server hands to its socket: a plaintext for `send_to`, or a bad-packet notice whose bytes are not part of this model. */
  datatype Outbound = Packet(to: SocketAddr, payload: seq<byte>) | BadPacketNotice(to: SocketAddr)

  /** A string behind its byte length, truncated to one byte as `len() as u8` does. */
  function LenPrefixed(s: string): (r: seq<byte>)
    ensures |r| == 1 + |Encode(s)| && r[1..] == Encode(s)
  {
    [TruncU8(|Encode(s)|)] + Encode(s)
  }

  /** Reads one length-prefixed UTF-8 string off the front of `b`. */
  function ReadLenPrefixed(b: seq<byte>): Option<(string, seq<byte>)> {
    if b == [] || |b| < 1 + b[0] as int then None
    else match Decode(b[1..1 + b[0] as int])
      case None => None
      case Some(s) => Some((s, b[1 + b[0] as int..]))
  }

  /** Strings under 256 bytes read back from their length-prefixed form. */
  lemma ReadLenPrefixedRoundTrip(s: string, rest: seq<byte>)
    requires |Encode(s)| < 256
    ensures ReadLenPrefixed(LenPrefixed(s) + rest) == Some((s, rest))
  {
    var b := LenPrefixed(s) + rest;
    var n := |Encode(s)|;
    assert b[0] as int == n;
    assert b[1..1 + n] == Encode(s);
    assert b[1 + n..] == rest;
    DecodeEncode(s);
  }

  /** `dm`: tag 0x11 and the message. */
  function DmPacket(msg: string): seq<byte> {
    [ClientTag(Dm)] + Encode(msg)
  }

  /** The packet `broadcast_join_masked` sends: FlowRenick for a renamed user, FlowJoin otherwise. */
  function MaskPacket(newMask: string, oldMask: Option<string>): (r: seq<byte>)
    ensures |r| >= 1
    ensures oldMask.None? ==> ClientPacketTypeFrom(r[0]) == Ok(FlowJoin) && r[1..] == Encode(newMask)
    ensures oldMask.Some? ==> ClientPacketTypeFrom(r[0]) == Ok(FlowRenick) && r[1..] == LenPrefixed(oldMask.value) + LenPrefixed(newMask)
  {
    if oldMask.Some? then [ClientTag(FlowRenick)] + LenPrefixed(oldMask.value) + LenPrefixed(newMask)
    else [ClientTag(FlowJoin)] + Encode(newMask)
  }

  /** Both names of a FlowRenick read back when each is under 256 bytes. */
  lemma RenickRoundTrip(oldMask: string, newMask: string)
    requires |Encode(oldMask)| < 256 && |Encode(newMask)| < 256
    ensures var r := MaskPacket(newMask, Some(oldMask))[1..];
      ReadLenPrefixed(r) == Some((oldMask, LenPrefixed(newMask)))
      && ReadLenPrefixed(LenPrefixed(newMask)) == Some((newMask, []))
  {
    ReadLenPrefixedRoundTrip(oldMask, LenPrefixed(newMask));
    ReadLenPrefixedRoundTrip(newMask, []);
    assert LenPrefixed(newMask) + [] == LenPrefixed(newMask);
  }

  /** FlowLeave: tag 0x0b and the nickname. */
  function LeavePacket(nick: string): seq<byte> {
    [ClientTag(FlowLeave)] + Encode(nick)
  }

  /** One chat line as relayed: tag, sender mask, 0x01, whether the receiver is the sender, the raw text. */
  function ChatPacket(mask: string, isSelf: bool, data: seq<byte>): (r: seq<byte>)
    ensures |r| == |Encode(mask)| + 3 + |data|
    ensures r[0] == ClientTag(Chat) && r[1..1 + |Encode(mask)|] == Encode(mask)
    ensures r[1 + |Encode(mask)|] == 0x01
    ensures r[2 + |Encode(mask)|] == (if isSelf then 1 else 0)
    ensures r[3 + |Encode(mask)|..] == data
  {
    [ClientTag(Chat)] + Encode(mask) + [0x01, if isSelf then 1 else 0] + data
  }

  /** The lone byte an unmasked sender gets back for a chat line. */
  const NOT_MASKED: seq<byte> := [0x07]

  /** The same packet to every peer, in order. */
  function Fanout(peers: seq<SocketAddr>, packet: seq<byte>): (r: seq<Outbound>)
    ensures |r| == |peers|
    ensures forall i :: 0 <= i < |peers| ==> r[i] == Packet(peers[i], packet)
  {
    if peers == [] then [] else [Packet(peers[0], packet)] + Fanout(peers[1..], packet)
  }

  /** A chat line to every peer, flagged for the one that is the sender. */
  function ChatFanout(peers: seq<SocketAddr>, sender: SocketAddr, mask: string, data: seq<byte>): (r: seq<Outbound>)
    ensures |r| == |peers|
    ensures forall i :: 0 <= i < |peers| ==> r[i] == Packet(peers[i], ChatPacket(mask, peers[i] == sender, data))
  {
    if peers == [] then []
    else [Packet(peers[0], ChatPacket(mask, peers[0] == sender, data))] + ChatFanout(peers[1..], sender, mask, data)
  }

  /** `send_to` of `packet` to each peer in turn. */
  method SendAll(peers: seq<SocketAddr>, packet: seq<byte>) returns (out: seq<Outbound>)
    ensures out == Fanout(peers, packet)
  {
    out := [];
    for i := 0 to |peers|
      invariant |out| == i
      invariant forall j :: 0 <= j < i ==> out[j] == Packet(peers[j], packet)
    {
      out := out + [Packet(peers[i], packet)];
    }
  }

  /** The chat relay loop over the channel's peers. */
  method SendChat(peers: seq<SocketAddr>, sender: SocketAddr, mask: string, data: seq<byte>) returns (out: seq<Outbound>)
    ensures out == ChatFanout(peers, sender, mask, data)
  {
    out := [];
    for i := 0 to |peers|
      invariant |out| == i
      invariant forall j :: 0 <= j < i ==> out[j] == Packet(peers[j], ChatPacket(mask, peers[j] == sender, data))
    {
      var isSelf := peers[i] == sender;
      out := out + [Packet(peers[i], ChatPacket(mask, isSelf, data))];
    }
  }

  /** Addresses of the members, read through their shared records. */
  function Addrs(members: seq<Cell>, cells: map<Cell, Remote>): (r: seq<SocketAddr>)
    requires forall i :: 0 <= i < |members| ==> members[i] in cells
    ensures |r| == |members|
    ensures forall i :: 0 <= i < |members| ==> r[i] == cells[members[i]].addr
  {
    if members == [] then [] else [cells[members[0]].addr] + Addrs(members[1..], cells)
  }

  // ----- the channel list -----

  /** `(muted as u8) | ((deafened as u8) << 1)`. */
  function StatusFlags(mute: bool, deaf: bool): (r: byte)
    ensures r < 4
    ensures (r % 2 == 1) == mute && (r / 2 == 1) == deaf
  {
    (if mute then 1 else 0) + (if deaf then 2 else 0)
  }

  /** The masked members of a channel, in member order, with their mute and deaf flags. */
  function MaskedUsers(members: seq<Cell>, cells: map<Cell, Remote>): seq<(string, bool, bool)>
    requires forall i :: 0 <= i < |members| ==> members[i] in cells
  {
    if members == [] then []
    else
      var r := cells[members[|members| - 1]];
      MaskedUsers(members[..|members| - 1], cells)
        + (if r.mask.Some? then [(r.mask.value, r.status.mute, r.status.deaf)] else [])
  }

  /** How many members have no mask. */
  function UnmaskedCount(members: seq<Cell>, cells: map<Cell, Remote>): nat
    requires forall i :: 0 <= i < |members| ==> members[i] in cells
  {
    if members == [] then 0
    else
      UnmaskedCount(members[..|members| - 1], cells)
        + (if cells[members[|members| - 1]].mask.None? then 1 else 0)
  }

  /** Every member is counted once: either unmasked or listed. */
  lemma {:induction false} MaskedPlusUnmasked(members: seq<Cell>, cells: map<Cell, Remote>)
    requires forall i :: 0 <= i < |members| ==> members[i] in cells
    ensures |MaskedUsers(members, cells)| + UnmaskedCount(members, cells) == |members|
  {
    if members != [] {
      MaskedPlusUnmasked(members[..|members| - 1], cells);
    }
  }

  /** One masked entry: the mask, 0x01, the status flags. */
  function MaskEntry(u: (string, bool, bool)): seq<byte> {
    Encode(u.0) + [0x01, StatusFlags(u.1, u.2)]
  }

  function MaskEntries(users: seq<(string, bool, bool)>): seq<byte> {
    if users == [] then [] else MaskEntries(users[..|users| - 1]) + MaskEntry(users[|users| - 1])
  }

  /** The name field of a channel entry: length byte and name, or a lone 0. */
  function NameField(name: Option<string>): seq<byte> {
    if name.Some? then LenPrefixed(name.value) else [0x0]
  }

  /** One channel of the list: name, id, unmasked count, masked count, masked entries. */
  function ChannelInfo(id: u32, c: Channel, cells: map<Cell, Remote>): seq<byte>
    requires MembersIn(c, cells)
  {
    var masked := MaskedUsers(c.members, cells);
    NameField(c.name) + BE32(id) + BE32(TruncU32(UnmaskedCount(c.members, cells)))
      + BE32(TruncU32(|masked|)) + MaskEntries(masked)
  }

  /** For a name under 256 bytes the entry reads: length, name, then id and counts as big-endian words. */
  lemma ChannelInfoLayout(id: u32, c: Channel, cells: map<Cell, Remote>)
    requires MembersIn(c, cells) && c.name.Some? && |Encode(c.name.value)| < 256
    ensures var info := ChannelInfo(id, c, cells); var n := |Encode(c.name.value)|;
      && |info| >= n + 13
      && info[0] as int == n
      && Decode(info[1..1 + n]) == Some(c.name.value)
      && FromBE32(info[1 + n..5 + n]) == id
      && FromBE32(info[5 + n..9 + n]) == TruncU32(UnmaskedCount(c.members, cells))
      && FromBE32(info[9 + n..13 + n]) == TruncU32(|MaskedUsers(c.members, cells)|)
      && info[13 + n..] == MaskEntries(MaskedUsers(c.members, cells))
  {
    var info := ChannelInfo(id, c, cells);
    var n := |Encode(c.name.value)|;
    var masked := MaskedUsers(c.members, cells);
    var u := TruncU32(UnmaskedCount(c.members, cells));
    var m := TruncU32(|masked|);
    assert info == [n as byte] + Encode(c.name.value) + BE32(id) + BE32(u) + BE32(m) + MaskEntries(masked);
    assert info[1..1 + n] == Encode(c.name.value);
    assert info[1 + n..5 + n] == BE32(id);
    assert info[5 + n..9 + n] == BE32(u);
    assert info[9 + n..13 + n] == BE32(m);
    DecodeEncode(c.name.value);
    FromBE32OfBE32(id);
    FromBE32OfBE32(u);
    FromBE32OfBE32(m);
  }

  function Concat(parts: seq<seq<byte>>): seq<byte> {
    if parts == [] then [] else Concat(parts[..|parts| - 1]) + parts[|parts| - 1]
  }

  /** The channel entries in the order the table was visited. */
  function ChannelInfos(order: seq<u32>, channels: map<u32, Channel>, cells: map<Cell, Remote>): (r: seq<seq<byte>>)
    requires forall i :: 0 <= i < |order| ==> order[i] in channels && MembersIn(channels[order[i]], cells)
    ensures |r| == |order|
    ensures forall i :: 0 <= i < |order| ==> r[i] == ChannelInfo(order[i], channels[order[i]], cells)
  {
    if order == [] then []
    else
      var init := order[..|order| - 1];
      var last := order[|order| - 1];
      assert forall i :: 0 <= i < |init| ==> init[i] == order[i];
      ChannelInfos(init, channels, cells) + [ChannelInfo(last, channels[last], cells)]
  }

  /** The list reply: tag 0x05, the asker's channel, the channel count, then every channel entry. */
  function ListReply(remoteChan: u32, order: seq<u32>, channels: map<u32, Channel>, cells: map<Cell, Remote>): seq<byte>
    requires forall i :: 0 <= i < |order| ==> order[i] in channels && MembersIn(channels[order[i]], cells)
  {
    [ClientTag(List)] + BE32(remoteChan) + BE32(TruncU32(|order|)) + Concat(ChannelInfos(order, channels, cells))
  }

  /** The header of the list reply names the asker's channel and counts every channel once. */
  lemma ListReplyHeader(remoteChan: u32, order: seq<u32>, channels: map<u32, Channel>, cells: map<Cell, Remote>)
    requires IsEnumeration(order, channels.Keys)
    requires forall id :: id in channels ==> MembersIn(channels[id], cells)
    requires |channels| <= U32_MAX
    ensures var p := ListReply(remoteChan, order, channels, cells);
      |p| >= 9 && p[0] == 0x05 && FromBE32(p[1..5]) == remoteChan && FromBE32(p[5..9]) == |channels|
  {
    var p := ListReply(remoteChan, order, channels, cells);
    EnumerationSize(order, channels.Keys);
    var a := BE32(remoteChan);
    var b := BE32(TruncU32(|order|));
    var rest := Concat(ChannelInfos(order, channels, cells));
    assert p == [0x05] + a + b + rest;
    HeaderFields(0x05, a, b, rest);
    FromBE32OfBE32(remoteChan);
    FromBE32OfBE32(TruncU32(|order|));
  }

  /** The two four-byte fields after a tag byte are found at offsets 1 and 5. */
  lemma HeaderFields(tag: byte, a: seq<byte>, b: seq<byte>, rest: seq<byte>)
    requires |a| == 4 && |b| == 4
    ensures ([tag] + a + b + rest)[1..5] == a && ([tag] + a + b + rest)[5..9] == b
  {
    var p := [tag] + a + b + rest;
    assert p[1..5] == a;
    assert p[5..9] == b;
  }

  /** The fold over a channel's members and the loop writing its entry. */
  method BuildChannelInfo(id: u32, c: Channel, cells: map<Cell, Remote>) returns (info: seq<byte>)
    requires MembersIn(c, cells)
    ensures info == ChannelInfo(id, c, cells)
  {
    var ms := c.members;
    var masked: seq<(string, bool, bool)> := [];
    var count: nat := 0;
    for i := 0 to |ms|
      invariant masked == MaskedUsers(ms[..i], cells)
      invariant count == UnmaskedCount(ms[..i], cells)
    {
      PrefixStep(ms, i);
      var r := cells[ms[i]];
      if r.mask.Some? {
        masked := masked + [(r.mask.value, r.status.mute, r.status.deaf)];
      } else {
        count := count + 1;
      }
    }
    assert ms[..|ms|] == ms;
    info := NameField(c.name) + BE32(id) + BE32(TruncU32(count)) + BE32(TruncU32(|masked|));
    ghost var head := info;
    for j := 0 to |masked|
      invariant info == head + MaskEntries(masked[..j])
    {
      PrefixStep(masked, j);
      AppendAssoc(head, MaskEntries(masked[..j]), MaskEntry(masked[j]));
      info := info + MaskEntry(masked[j]);
    }
    assert masked[..|masked|] == masked;
  }

  /** `handle_list`'s loop over the channel table and the final assembly. */
  method BuildListReply(remoteChan: u32, channels: map<u32, Channel>, cells: map<Cell, Remote>)
    returns (packet: seq<byte>, ghost order: seq<u32>)
    requires forall id :: id in channels ==> MembersIn(channels[id], cells)
    ensures IsEnumeration(order, channels.Keys)
    ensures packet == ListReply(remoteChan, order, channels, cells)
  {
    var keys := Enumerate(channels.Keys);
    order := keys;
    var infos := BuildChannelInfos(keys, channels, cells);
    packet := AppendAll([0x05] + BE32(remoteChan) + BE32(TruncU32(|infos|)), infos);
  }

  /** One entry per channel, in the visiting order. */
  method BuildChannelInfos(keys: seq<u32>, channels: map<u32, Channel>, cells: map<Cell, Remote>)
    returns (infos: seq<seq<byte>>)
    requires forall i :: 0 <= i < |keys| ==> keys[i] in channels && MembersIn(channels[keys[i]], cells)
    ensures infos == ChannelInfos(keys, channels, cells)
  {
    infos := [];
    for i := 0 to |keys|
      invariant infos == ChannelInfos(keys[..i], channels, cells)
    {
      PrefixStep(keys, i);
      var info := BuildChannelInfo(keys[i], channels[keys[i]], cells);
      infos := infos + [info];
    }
    assert keys[..|keys|] == keys;
  }

  /** `extend_from_slice` of each part in turn. */
  method AppendAll(head: seq<byte>, parts: seq<seq<byte>>) returns (packet: seq<byte>)
    ensures packet == head + Concat(parts)
  {
    packet := head;
    for j := 0 to |parts|
      invariant packet == head + Concat(parts[..j])
    {
      PrefixStep(parts, j);
      AppendAssoc(head, Concat(parts[..j]), parts[j]);
      packet := packet + parts[j];
    }
    assert parts[..|parts|] == parts;
  }

  lemma PrefixStep<T>(s: seq<T>, i: nat)
    requires i < |s|
    ensures s[..i + 1][..i] == s[..i] && s[..i + 1][i] == s[i] && |s[..i + 1]| == i + 1
  {
  }

  lemma AppendAssoc<T>(a: seq<T>, b: seq<T>, c: seq<T>)
    ensures a + b + c == a + (b + c)
  {
  }

  // ----- the command catalogue -----

  function CategoryByte(c: Commands.CommandCategory): byte {
    match c
    case User => 0
    case Channel => 1
    case Audio => 2
    case Chat => 3
    case Admin => 4
    case Utility => 5
    case Fun => 6
  }

  /** Reads a category byte back. */
  function CategoryFrom(b: byte): Option<Commands.CommandCategory> {
    match b
    case 0 => Some(Commands.User)
    case 1 => Some(Commands.Channel)
    case 2 => Some(Commands.Audio)
    case 3 => Some(Commands.Chat)
    case 4 => Some(Commands.Admin)
    case 5 => Some(Commands.Utility)
    case 6 => Some(Commands.Fun)
    case _ => None
  }

  /** The category byte identifies the category. */
  lemma CategoryRoundTrip(c: Commands.CommandCategory)
    ensures CategoryFrom(CategoryByte(c)) == Some(c)
  {
  }

  /** Bit 0: requires a nickname; bit 1: admin only. */
  function CommandFlags(c: Commands.ServerCommand): (r: byte)
    ensures r < 4
    ensures (r % 2 == 1) == c.requiresAuth && (r / 2 == 1) == c.adminOnly
  {
    (if c.requiresAuth then 1 else 0) + (if c.adminOnly then 2 else 0)
  }

  function AliasBytes(aliases: seq<string>): seq<byte> {
    if aliases == [] then [] else AliasBytes(aliases[..|aliases| - 1]) + LenPrefixed(aliases[|aliases| - 1])
  }

  /** One command of the catalogue. */
  function CommandEntry(c: Commands.ServerCommand): seq<byte> {
    LenPrefixed(c.name) + LenPrefixed(c.description) + LenPrefixed(c.usage)
      + [CategoryByte(c.category), CommandFlags(c), TruncU8(|c.aliases|)] + AliasBytes(c.aliases)
  }

  function CommandEntries(cmds: seq<Commands.ServerCommand>): seq<byte> {
    if cmds == [] then [] else CommandEntries(cmds[..|cmds| - 1]) + CommandEntry(cmds[|cmds| - 1])
  }

  /** The catalogue reply: tag 0x0c, the count as a big-endian u16, then each entry. */
  function SyncPacket(cmds: seq<Commands.ServerCommand>): seq<byte> {
    [ClientTag(SyncCommands)] + BE16(TruncU16(|cmds|)) + CommandEntries(cmds)
  }

  /** The first entry of the catalogue reads back its name, description and usage when each is under 256 bytes. */
  lemma CommandEntryHead(c: Commands.ServerCommand, rest: seq<byte>)
    requires |Encode(c.name)| < 256 && |Encode(c.description)| < 256 && |Encode(c.usage)| < 256
    ensures var tail := [CategoryByte(c.category), CommandFlags(c), TruncU8(|c.aliases|)] + AliasBytes(c.aliases) + rest;
      && ReadLenPrefixed(CommandEntry(c) + rest) == Some((c.name, LenPrefixed(c.description) + LenPrefixed(c.usage) + tail))
      && ReadLenPrefixed(LenPrefixed(c.description) + LenPrefixed(c.usage) + tail) == Some((c.description, LenPrefixed(c.usage) + tail))
      && ReadLenPrefixed(LenPrefixed(c.usage) + tail) == Some((c.usage, tail))
  {
    var tail := [CategoryByte(c.category), CommandFlags(c), TruncU8(|c.aliases|)] + AliasBytes(c.aliases) + rest;
    assert CommandEntry(c) + rest == LenPrefixed(c.name) + (LenPrefixed(c.description) + LenPrefixed(c.usage) + tail);
    assert LenPrefixed(c.description) + LenPrefixed(c.usage) + tail == LenPrefixed(c.description) + (LenPrefixed(c.usage) + tail);
    ReadLenPrefixedRoundTrip(c.name, LenPrefixed(c.description) + LenPrefixed(c.usage) + tail);
    ReadLenPrefixedRoundTrip(c.description, LenPrefixed(c.usage) + tail);
    ReadLenPrefixedRoundTrip(c.usage, tail);
  }

  /** One command's bytes as the push/extend sequence writes them. */
  method BuildCommandEntry(c: Commands.ServerCommand) returns (entry: seq<byte>)
    ensures entry == CommandEntry(c)
  {
    entry := LenPrefixed(c.name) + LenPrefixed(c.description) + LenPrefixed(c.usage);
    entry := entry + [CategoryByte(c.category), CommandFlags(c), TruncU8(|c.aliases|)];
    ghost var head := entry;
    var aliases := c.aliases;
    for i := 0 to |aliases|
      invariant entry == head + AliasBytes(aliases[..i])
    {
      PrefixStep(aliases, i);
      AppendAssoc(head, AliasBytes(aliases[..i]), LenPrefixed(aliases[i]));
      entry := entry + LenPrefixed(aliases[i]);
    }
    assert aliases[..|aliases|] == aliases;
  }

  /** `handle_sync_commands`' loop over the commands. */
  method BuildSyncPacket(cmds: seq<Commands.ServerCommand>) returns (packet: seq<byte>)
    ensures packet == SyncPacket(cmds)
  {
    packet := [0x0c] + BE16(TruncU16(|cmds|));
    ghost var head := packet;
    for i := 0 to |cmds|
      invariant packet == head + CommandEntries(cmds[..i])
    {
      PrefixStep(cmds, i);
      var entry := BuildCommandEntry(cmds[i]);
      AppendAssoc(head, CommandEntries(cmds[..i]), entry);
      packet := packet + entry;
    }
    assert cmds[..|cmds|] == cmds;
  }
}
