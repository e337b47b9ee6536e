# VoUDP relay core in Dafny

VoUDP relays voice and text between clients over UDP. Clients join numbered channels. Server-side audio is mixed. Chat, direct messages and slash-commands travel as tagged datagrams. Each datagram is sealed by a symmetric cipher, and a small reliable layer sits beneath them. This project models the parts of VoUDP that decide what is sent where and what a byte sequence means. It proves what those parts promise about the model.

- **Wire protocol** (`voudp/src/protocol.rs`):
  - the three tag tables and their decoders;
  - the request builders;
  - the two packet classifications.
- **List-reply reader** (`voudp/src/util.rs`): `parse_list_packet`, with a round trip against the reply layout.
- **Secure socket** (`voudp/src/socket.rs`):
  - nonce-prefixed sealing under an abstract cipher;
  - reliable frames and acknowledgements;
  - the retransmission sweep with its retry limit;
  - the sequence counters.
- **Command registry** (`voudp/src/commands.rs`):
  - registration with aliases;
  - lookup, the admin filter and parsing of `/name args`.
- **Admin console commands** (`voudp/src/console_cmd.rs`):
  - the fixed replies and renaming;
  - channel creation with the next free id;
  - deletion and the channel list.
- **Relay server** (`voudp/src/server.rs`), as a class holding the peers, channels and consoles:
  - every packet handler (join, audio, EOF, mask, list, chat, control, command, sync, console, bad packet);
  - the notices they emit;
  - channel switching, timeout expiry and the cleanup pass;
  - the byte layout of every reply.
- **Plugin hooks** (`voudp/src/plugin.rs`):
  - hooks run in registration order;
  - a cancelling hook stops the chain;
  - each hook's effects are gathered into the verbs the server carries out.
- **First relay** (`src/server.rs`): its join, audio, EOF and mask handlers and its idle sweep.
- **Desktop client helpers** (`voudp-gui/src/main.rs`, `voudp-gui/src/bubble.rs`):
  - the settings file;
  - suggestion filtering, keyboard navigation and tab completion with its common prefix;
  - chat and command sending;
  - the chat-line parsers.
- **Console client** (`voudp-console/src/main.rs`):
  - the bounded log;
  - key handling;
  - the packets an entered line produces.

Strings are Rust `String`s, that is sequences of Unicode scalar values. Bytes on the wire are their UTF-8 encoding (module `Utf8`). The helper modules model the standard-library operations the code relies on:
- `Bytes`: fixed-width integers, `to_be_bytes` and `from_be_bytes`, and `as` truncation;
- `Utf8`: `String::from_utf8` and `as_bytes`, with both round trips proved;
- `Text`: `trim`, `split_whitespace`, `split_once`, `join`, decimal formatting and `parse::<u32>`;
- `Iteration`: iteration over a `HashMap` in an unspecified order.

Packets the server sends are recorded in order in an outbox of (address, plaintext) pairs. The clock is an integer number of milliseconds passed in by the caller.

## Model

| member | source | states |
|---|---|---|
| Protocol.ClientPacketTypeFrom | voudp/src/protocol.rs:55-77 | accepts exactly the declared tags (never 0x0e or a reserved byte), inverts `as u8`, and returns the rejected byte as its error |
| Protocol.ClientPacketTypeRoundTrip | voudp/src/protocol.rs:15-35 | decoding a variant's discriminant gives it back for every variant but `CommandResponse`, whose 0x0e is rejected |
| Protocol.ConsolePacketTypeFrom | voudp/src/protocol.rs:79-90 | accepts exactly 0x03, 0x04 and 0x0d and inverts the discriminants |
| Protocol.ConsolePacketTypeRoundTrip | voudp/src/protocol.rs:37-43 | decoding inverts every console discriminant |
| Protocol.ControlRequestFrom | voudp/src/protocol.rs:92-104 | accepts exactly 0x01 to 0x04 and inverts the discriminants |
| Protocol.ControlRequestRoundTrip | voudp/src/protocol.rs:45-53 | decoding inverts every control discriminant |
| Protocol.FlagsAreNotTags | voudp/src/protocol.rs:9-11 | the reliable flag 0x80 and the ack flag 0x81 are rejected by all three decoders |
| Protocol.ToBytes | voudp/src/protocol.rs:110-114 | serialising a type gives the single tag byte |
| Protocol.CreateAudioPacket | voudp/src/protocol.rs:116-120 | the packet is one byte longer than the frame, decodes as Audio, and carries the frame unchanged after the tag |
| Protocol.CreateListRequest | voudp/src/protocol.rs:122-124 | the list request is the single byte 0x05 |
| Protocol.CreateSyncCommandsRequest | voudp/src/protocol.rs:126-128 | the sync request is the single byte 0x0c |
| Protocol.FlowAndClientOnlyDisjoint | voudp/src/protocol.rs:130-148 | no type is both a flow packet and client-to-server only |
| ListPacket.FirstSeparator | voudp/src/util.rs:26 | finds the first 0x01 byte, or reports that there is none |
| ListPacket.SegmentsJoin | voudp/src/util.rs:26 | splitting on 0x01 loses no byte (the pieces rejoin to the input), gives at least one piece, and no piece holds a separator |
| ListPacket.ParseListPacket | voudp/src/util.rs:15-35 | the loop over the pieces computes exactly the reference `ListPacket` |
| ListPacket.ListPacketNone | voudp/src/util.rs:16-18 | the packet is refused if and only if it is shorter than 9 bytes or not tagged 0x05 |
| ListPacket.ListPacketCounts | voudp/src/util.rs:20-21 | the two counts are the big-endian words at bytes 1..5 and 5..9 |
| ListPacket.ListPacketMasks | voudp/src/util.rs:26-32 | every mask returned is non-empty and free of the separator |
| ListPacket.KeepMasks | voudp/src/util.rs:27-31 | keeping the non-empty UTF-8 pieces yields only non-empty, separator-free masks |
| ListPacket.ListPacketHeaderOnly | voudp/src/util.rs:23-34 | a bare 9-byte header parses with no masks |
| ListPacket.EncodeAll | voudp/src/util.rs:28 | encodes each mask, position by position |
| ListPacket.SegmentsOfJoin | voudp/src/util.rs:26 | splitting separator-free pieces joined by 0x01 gives back the pieces |
| ListPacket.KeepOneEncode | voudp/src/util.rs:27-30 | a non-empty mask's bytes decode back to that mask |
| ListPacket.KeepEncoded | voudp/src/util.rs:26-32 | the UTF-8 bytes of non-empty masks are all kept, in order |
| ListPacket.ListPacketRoundTrip | voudp/src/util.rs:15-35 | a header with two counts and masks (non-empty, without U+0001) joined by 0x01 parses back to exactly those counts and masks |
| Socket.Nonce | voudp/src/socket.rs:112-116 | the 12-byte nonce is the 4-byte random prefix followed by the big-endian 8-byte counter |
| Socket.NonceInjective | voudp/src/socket.rs:112-116 | under one prefix, two counters give the same nonce if and only if they are equal |
| Socket.OpenSeal | voudp/src/socket.rs:110-131 | a datagram sealed by `send_to` opens again (the first half of `recv_from`) to its plaintext, for any cipher whose decryption inverts encryption |
| Socket.ReliableFrame | voudp/src/socket.rs:133-138 | a reliable frame is five bytes longer than its payload |
| Socket.AckFrame | voudp/src/socket.rs:155-161 | an ACK frame is five bytes |
| Socket.ParseFrame | voudp/src/socket.rs:192-223 | a plaintext that is neither an ACK nor a reliable frame is delivered unchanged |
| Socket.ParseAckFrame | voudp/src/socket.rs:193-197 | an ACK frame is read back as the ACK of the same sequence number |
| Socket.ParseReliableFrame | voudp/src/socket.rs:200-213 | a reliable frame with a payload is read back as that sequence number and payload; with an empty payload it is five bytes long and is delivered verbatim |
| Socket.TaggedPacketIsPlain | voudp/src/socket.rs:192-223 | a packet starting with a valid tag is never taken for an ACK or a reliable frame |
| Socket.TickAllEffect | voudp/src/socket.rs:226-245 | a sweep drops exactly the entries with five retries, keeps every other entry's frame and address, counts one more retry and restamps each due entry, leaves the others alone, and keeps every count at most five |
| Socket.SweepCountsRetries | voudp/src/socket.rs:229-241 | with nothing sent after `now`, n sweeps one timeout apart leave only original entries, each with at least n more retries |
| Socket.SweepDrains | voudp/src/socket.rs:230-234 | six sweeps one timeout apart empty the table: an unacknowledged frame is resent at most five times |
| Socket.SecureUdpSocket.Create | voudp/src/socket.rs:52-71 | a new socket has sequence counter 1, nonce counter 0, no pending frames and no peer |
| Socket.SecureUdpSocket.Connect | voudp/src/socket.rs:77-88 | succeeds if and only if some resolved address is IPv4, then connects to the first such address; otherwise fails with InvalidInput and changes nothing |
| Socket.SecureUdpSocket.SendTo | voudp/src/socket.rs:110-131 | uses the next nonce counter (wrapping at 2^64); fails with EncryptionFailure when sealing fails and with SendFailure when the operating system refuses the datagram, emitting nothing; otherwise emits nonce++ciphertext and returns its length |
| Socket.SecureUdpSocket.SendReliable | voudp/src/socket.rs:133-153 | takes the next sequence number (wrapping at 2^32) and seals the framed payload; records it as pending (its frame, the address, retries 0, stamped now) only when sealing succeeded and the datagram was sent, and otherwise leaves the pending table and the sent datagrams as they were |
| Socket.SecureUdpSocket.SendAck | voudp/src/socket.rs:155-161 | seals the five-byte ACK frame for the sequence number and emits it unless sealing fails or the operating system refuses it |
| Socket.SecureUdpSocket.Send | voudp/src/socket.rs:90-108 | fails with NotConnected without a peer and with InvalidInput on an empty buffer. Otherwise the first byte is classified, unknown bytes counting as Audio. A reliable type sends the sealed reliable frame under the old sequence number, records that frame as pending for the peer (retries 0, stamped now) and reports the input length. Any other type sends the sealed buffer and reports the datagram length. On a sealing or send failure nothing is emitted or recorded |
| Socket.SecureUdpSocket.RecvFrom | voudp/src/socket.rs:163-224 | truncates to the buffer, refuses short or undecryptable datagrams, drops the pending entry of an ACK, answers a reliable frame with an ACK (emitted when sealing succeeds and the operating system takes it) and delivers its payload, delivers any other plaintext, and reports an oversized result |
| Socket.SecureUdpSocket.TickReliable | voudp/src/socket.rs:226-245 | the new table is `TickAll` of the old one, and the due entries are resent once each, as stored, to their own addresses |
| Socket.RetainPending | voudp/src/socket.rs:232-244 | the loop over the keys builds `TickAll` and the resends in visiting order |
| Socket.Resends | voudp/src/socket.rs:237-238 | one datagram per resent key, carrying the stored frame to the stored address |
| Socket.SendType | voudp/src/socket.rs:100 | the decoded type of a valid tag, Audio otherwise |
| Socket.CountersIncrease | voudp/src/socket.rs:112 | within the first 2^64 sends the nonce counters used strictly increase, so no nonce repeats |
| Registry.FrameSize | voudp/src/server.rs:65-69 | the frame size is the integer quotient of the sample rate by the tick rate (bounded on both sides) |
| Registry.DefaultFrameSize | voudp/src/server.rs:47-63 | with the default configuration a tick carries 960 samples per channel |
| Registry.NewRemote | voudp/src/server.rs:88-107 | a new remote sits in channel 0, unmasked, neither deaf nor muted, active now |
| Registry.NewChannel | voudp/src/server.rs:136-146 | a new channel has its name and id, no members, no buffers and no filter states |
| Registry.Retain | voudp/src/server.rs:158 | keeps exactly the members whose address differs, and no more of them than before |
| Registry.RemoveRemote | voudp/src/server.rs:157-161 | no member with the address is left, every other member stays, and its buffer and filter state are gone |
| Registry.RetainAppend | voudp/src/server.rs:158 | retaining distributes over concatenation |
| Registry.RemoveAfterAdd | voudp/src/server.rs:148-161 | adding a remote and then removing its address is the same as removing the address alone |
| Registry.AddRemoteBuffered | voudp/src/server.rs:148-155 | adding keeps every member's buffer and filter state present |
| Registry.RemoveRemoteBuffered | voudp/src/server.rs:157-161 | removing keeps every remaining member's buffer and filter state present |
| Commands.TestHandler | voudp/src/commands.rs:35-44 | `/test` answers "Good name" if and only if the sender's mask is `spixa`, and "Bad name" otherwise; it needs a mask, which the handler unwraps |
| Commands.CommandSystem.constructor | voudp/src/commands.rs:14-34 | the new registry holds exactly `/test`, with `/` as its only alias |
| Commands.CommandSystem.RegisterCommand | voudp/src/commands.rs:181-195 | the command is stored under its name, replacing any earlier one; each alias is mapped to the name; every alias then resolves to the command |
| Commands.CommandSystem.AllCommands | voudp/src/commands.rs:209-211 | one entry per stored command, and every stored command appears |
| Commands.CommandSystem.Values | voudp/src/commands.rs:210 | the stored commands under the enumerated keys, position by position |
| Commands.CommandSystem.CommandsForUser | voudp/src/commands.rs:213-219 | a stored command is listed if and only if it is not admin-only or the user is an admin; only such commands are listed, each taken from the table and in the order the keys are visited |
| Commands.AliasShadowsName | voudp/src/commands.rs:197-207 | an alias resolves to its target, or to nothing, even when a command has the alias's name |
| Commands.DirectLookup | voudp/src/commands.rs:197-207 | a name that is no alias resolves if and only if a command is stored under it |
| Commands.AdminSeesAll | voudp/src/commands.rs:209-219 | for an admin, the filtered list equals the full list, in the same order |
| Commands.ForUserAll | voudp/src/commands.rs:213-219 | with the admin flag, filtering keeps every command in order |
| Commands.ParseNeedsSlash | voudp/src/commands.rs:222-225 | input that does not start with '/' once trimmed is never a command |
| Commands.ParseTokens | voudp/src/commands.rs:221-237 | `/name arg1 … argN` parses if and only if `name` resolves, to that command with exactly those arguments |
| Commands.ParseOf | voudp/src/commands.rs:227-236 | a trimmed line starting with '/' parses to the command its first token names, with the remaining tokens as arguments |
| Commands.SlashIsTest | voudp/src/commands.rs:24-34 | in a fresh registry the input `/` runs `/test` through its alias, with no arguments |
| ConsoleCmd.FixedReply | voudp/src/console_cmd.rs:16-21 | `help`, `ping` and `list` give their fixed replies; any other command that is not rename, chans, create or del gives the unknown-command reply (line 125-127) |
| ConsoleCmd.Rename | voudp/src/console_cmd.rs:22-49 | `RenamePost`: fewer than three words give the usage; an unknown name gives "channel '…' not found" and changes nothing; otherwise one channel carrying the name takes the joined rest as its new name, nothing else changes, and the reply names the old and new names |
| ConsoleCmd.ChanEntries | voudp/src/console_cmd.rs:53-59 | one `name (id)` entry per enumerated channel, `unnamed` standing in for a missing name |
| ConsoleCmd.ChansReplyCount | voudp/src/console_cmd.rs:50-63 | the `chans` reply lists exactly one entry per channel, and every channel's entry appears |
| ConsoleCmd.MaxKey | voudp/src/console_cmd.rs:69 | the largest id is an id of the table and no id exceeds it |
| ConsoleCmd.NextIdFresh | voudp/src/console_cmd.rs:69 | below the top of the u32 range the id chosen by `create` is not in use, and it is 1 only for an empty table or one holding only id 0 |
| ConsoleCmd.NextIdWraps | voudp/src/console_cmd.rs:69 | once `u32::MAX` is in use, `id + 1` wraps and `create` picks id 0 |
| ConsoleCmd.LargestKey | voudp/src/console_cmd.rs:69 | the pass over the keys returns the largest key |
| ConsoleCmd.Create | voudp/src/console_cmd.rs:64-78 | `CreatePost`: fewer than two words give the usage; otherwise a new empty channel named by the joined rest is stored under the id after the largest (1 for an empty table), and the reply states its name, id and rate in kHz |
| ConsoleCmd.Delete | voudp/src/console_cmd.rs:79-124 | `DeletePost`: a numeric target is an id, with 1 refused as not found; any other target is the name of some channel, and channel 1 found by name is refused as the default; an existing channel is removed with a reply naming it; a missing one gives "channel not found"; channel 1 is never removed and no other channel changes |
| ConsoleCmd.HandleCommand | voudp/src/console_cmd.rs:9-129 | `CommandPost`: `rename`, `create` and `del` do exactly what `RenamePost`, `CreatePost` and `DeletePost` say; `chans` replies with every channel in some iteration order and changes nothing; any other word gets its fixed reply and changes nothing. Channel 1 survives every command, and a channel's members are either kept or the channel is new and empty |
| ConsoleCmd.RenameKeeps | voudp/src/console_cmd.rs:22-49 | a rename keeps every id and every channel's members |
| ConsoleCmd.DeleteKeeps | voudp/src/console_cmd.rs:79-124 | a deletion only removes ids, never channel 1, and leaves every remaining channel as it was |
| ConsoleCmd.CreateAdds | voudp/src/console_cmd.rs:64-78 | below the top of the `u32` range, create adds exactly one fresh id, holding an empty channel with the new name, and keeps every existing channel |
| Server.ConsoleNeverExpires | voudp/src/server.rs:914-925 | the console timeout measures `last_active.duration_since(now)`, which saturates to zero, so a console seen before now is never dropped for inactivity |
| Server.ControlSetsOneFlag | voudp/src/server.rs:668-676 | each control request sets one status flag to a fixed value, keeps the other, and repeating it changes nothing |
| Server.CommandReply | voudp/src/server.rs:705-717 | a success goes back tagged 0x0e, an error tagged 0x0f, each followed by the message's bytes; a silent result sends nothing |
| Server.TargetChannel | voudp/src/server.rs:424-427 | a join lands in the existing channel, or in a new one named `general-{id}` |
| Server.JoinChannels | voudp/src/server.rs:413-439 | after a join the table has the old ids plus the target id, and every member is still a known record |
| Server.JoinMoves | voudp/src/server.rs:413-439 | the joiner is appended as the last member of its target, after the target's old members, with a buffer and filter state; it is gone from an old channel that is neither 0 nor the target; other channels are untouched |
| Server.JoinFromZeroKeepsMembership | voudp/src/server.rs:413-418 | leaving channel 0 is skipped, so a remote listed in channel 0 stays listed there after moving on |
| Server.RejoinDuplicates | voudp/src/server.rs:413-439 | rejoining one's own channel adds a second membership entry |
| Server.JoinNoticeRecipients | voudp/src/server.rs:420-422 | a masked joiner's FlowJoin reaches exactly the members listed before it was added |
| Server.Leave | voudp/src/server.rs:460-486 | a leaver's channel loses every member with its address and gains no member; other channels and the set of ids are untouched |
| Server.LeaveNotifiesLeaver | voudp/src/server.rs:467-481 | a masked leaver listed in its channel is itself sent the FlowLeave, and its address leaves the channel |
| Server.ExpireAll | voudp/src/server.rs:927-958 | the sweep keeps the set of channel ids and only ever removes members |
| Server.ExpireAllStep | voudp/src/server.rs:927-958 | the sweep handles the remotes one after another in the table's order |
| Server.ExpireAllRemoves | voudp/src/server.rs:932-954 | after the sweep no expired remote is still listed in the channel its record names |
| Server.MembersKeptKeepsTables | voudp/src/server.rs:304 | a console command that keeps or empties each channel's members keeps every member a known record |
| Server.RegisterKeepsTables | voudp/src/server.rs:398-403 | storing a record for an address, in its own cell or a fresh one, keeps the address table consistent |
| Server.ServerState.constructor | voudp/src/server.rs:256-282 | a new server has no remotes or consoles, the three default channels general (1), music (2) and test (3), an empty ring buffer, and a command registry holding `/test` |
| Server.ServerState.BroadcastJoinMasked | voudp/src/server.rs:872-909 | a FlowRenick (with an old mask) or a FlowJoin goes to every member of the channel, and to no one when the channel does not exist |
| Server.ServerState.Enrol | voudp/src/server.rs:398-411 | a new address gets a fresh record, a known one keeps its own; either way the record now names the target channel |
| Server.ServerState.MoveTo | voudp/src/server.rs:413-435 | the channel table becomes `JoinChannels`; a masked joiner is announced to the target's old members, and a named target produces the move notice |
| Server.ServerState.SwitchChannel | voudp/src/server.rs:413-439 | the channel table becomes `JoinChannels` |
| Server.ServerState.HandleJoin | voudp/src/server.rs:373-440 | short data changes nothing; otherwise the big-endian id is joined (the guard at line 380 never holds, so no id is refused); a new sender is registered and welcomed; the record names the id; the channels become `JoinChannels`; the outbox gains exactly the join notices |
| Server.ServerState.HandleAudio | voudp/src/server.rs:442-457 | an unknown sender changes nothing; a known one is marked active now, and its frame is queued unless the ring buffer holds `max_users` frames |
| Server.ServerState.HandleEof | voudp/src/server.rs:459-487 | an unknown sender changes nothing; a known one is removed from the registry and leaves its channel as `Leave` says |
| Server.ServerState.HandleMask | voudp/src/server.rs:490-526 | an unknown sender, non-UTF-8 data or an empty name changes nothing; otherwise the name becomes the mask, and a FlowRenick (if there was a mask) or a FlowJoin goes to the channel's members |
| Server.ServerState.HandleList | voudp/src/server.rs:528-603 | an unknown sender changes nothing; a known one is marked active now and sent the list reply for its channel over all channels in the table's order |
| Server.ServerState.HandleChat | voudp/src/server.rs:605-656 | an unknown sender or one without a channel sends nothing; an unmasked sender is sent 0x07; non-UTF-8 text sends nothing; otherwise every member of the channel, the sender included, gets the chat packet with its own is-self flag |
| Server.ServerState.HandleCtrl | voudp/src/server.rs:658-681 | a parsed request from a known sender updates only that sender's status; anything else changes nothing |
| Server.ServerState.ExecuteCommand | voudp/src/server.rs:781-823 | never a success; an unknown command is exactly the unknown-command error; the result is silent if and only if the command parses, has a nickname when it needs one and is allowed for the sender |
| Server.ServerState.HandleCmd | voudp/src/server.rs:683-718 | non-UTF-8 data or an unknown sender sends nothing; otherwise the command runs without admin rights, and its reply, if any, goes back to the sender |
| Server.ServerState.HandleSyncCommands | voudp/src/server.rs:720-768 | the sender gets one sync packet listing the commands a non-admin may run, in the table's order |
| Server.ServerState.HandleBad | voudp/src/server.rs:770-773 | a bad-packet notice goes to the sender |
| Server.ServerState.RegisterConsole | voudp/src/server.rs:358-371 | non-UTF-8 data changes nothing; the right password logs the sender in as a console, active now; a wrong one draws a bad-packet notice |
| Server.ServerState.HandleConsoleCommand | voudp/src/server.rs:297-317 | `ConsoleCommandEffect`: non-UTF-8 data changes nothing; a blank line draws "server received your empty message"; any other line changes the channel table as `CommandPost` says for its first word and sends exactly that command's reply to the console; nothing else changes and channel 1 survives |
| Server.ServerState.RunConsoleCommand | voudp/src/server.rs:301-306 | the reply and the new channel table are as `CommandPost` says for the first word; channel 1 survives, and every channel's members are kept or emptied, never invented |
| Server.ServerState.HandleConsoleEof | voudp/src/server.rs:319-327 | the console is logged out |
| Server.ServerState.HandleConsole | voudp/src/server.rs:284-295 | `ConsoleEffect`: a command tag acts as `ConsoleCommandEffect` on the rest of the packet; an EOF logs the console out and changes nothing else; a keepalive or an unknown tag changes nothing |
| Server.ServerState.HandlePacket | voudp/src/server.rs:329-356 | empty data changes nothing; a logged-in console's packet acts as `ConsoleEffect`, whatever its tag. From anyone else each handled tag acts as its handler's effect on the rest of the packet: Join, Audio, Eof, Mask, List, Chat, Ctrl, SyncCommands, Cmd and RegisterConsole. Every other tag changes nothing |
| Server.ServerState.ExpireConsoles | voudp/src/server.rs:914-925 | keeps exactly the consoles whose measured inactivity does not exceed the timeout |
| Server.ServerState.ExpireIdle | voudp/src/server.rs:927-958 | keeps exactly the remotes active within the timeout; the channels and outbox become what `ExpireAll` gives for the table's order |
| Server.ServerState.Cleanup | voudp/src/server.rs:911-959 | both sweeps: idle consoles and idle remotes are dropped, and expired remotes leave their channels with FlowLeave notices |
| Server.ExpireRemotes | voudp/src/server.rs:927-958 | the loop over the remotes computes exactly `ExpireAll` |
| ServerPackets.LenPrefixed | voudp/src/server.rs:891-895 | a length-prefixed string is its UTF-8 bytes behind one length byte (the length truncated as `len() as u8`) |
| ServerPackets.ReadLenPrefixedRoundTrip | voudp/src/server.rs:891-895 | a string under 256 bytes reads back from its length-prefixed form, leaving what follows untouched |
| ServerPackets.MaskPacket | voudp/src/server.rs:889-902 | without an old mask the packet is FlowJoin and the new mask's bytes; with one it is FlowRenick and both masks length-prefixed |
| ServerPackets.RenickRoundTrip | voudp/src/server.rs:889-897 | both names of a FlowRenick read back when each is under 256 bytes |
| ServerPackets.ChatPacket | voudp/src/server.rs:639-643 | the chat packet is the Chat tag, the sender's mask, 0x01, the is-self byte and the raw text, at those offsets |
| ServerPackets.Fanout | voudp/src/server.rs:904-908 | one packet per peer, in the peers' order, each addressed to its peer |
| ServerPackets.ChatFanout | voudp/src/server.rs:635-646 | one chat packet per member, in order, flagged as the sender's own exactly for the sender's address |
| ServerPackets.SendAll | voudp/src/server.rs:904-908 | the send loop emits exactly the fan-out |
| ServerPackets.SendChat | voudp/src/server.rs:635-646 | the chat relay loop emits exactly the chat fan-out |
| ServerPackets.Addrs | voudp/src/server.rs:878-884 | each member's address, read through its shared record, in member order |
| ServerPackets.StatusFlags | voudp/src/server.rs:585 | bit 0 is mute and bit 1 is deaf, and no other bit is set |
| ServerPackets.MaskedPlusUnmasked | voudp/src/server.rs:550-567 | the fold counts every member exactly once: either as unmasked or in the masked list |
| ServerPackets.ChannelInfoLayout | voudp/src/server.rs:569-589 | for a name under 256 bytes a channel entry is the name length, the name, then the id, the unmasked count and the masked count as big-endian words, then the masked entries |
| ServerPackets.ChannelInfos | voudp/src/server.rs:545-590 | one entry per channel, in the order the table was visited |
| ServerPackets.ListReplyHeader | voudp/src/server.rs:592-598 | the list reply starts with 0x05, the asker's channel id and the number of channels |
| ServerPackets.BuildChannelInfo | voudp/src/server.rs:550-589 | the fold and the writing loop produce exactly the reference channel entry |
| ServerPackets.BuildListReply | voudp/src/server.rs:543-598 | the loop over the table produces exactly the reference list reply for the order visited |
| ServerPackets.BuildChannelInfos | voudp/src/server.rs:545-590 | the loop produces one reference entry per channel, in order |
| ServerPackets.AppendAll | voudp/src/server.rs:596-598 | appending each part in turn gives the head followed by the concatenation |
| ServerPackets.CategoryRoundTrip | voudp/src/server.rs:737-747 | the category byte (0 to 6) identifies the category |
| ServerPackets.CommandFlags | voudp/src/server.rs:749-756 | bit 0 is requires-auth and bit 1 is admin-only, and no other bit is set |
| ServerPackets.CommandEntryHead | voudp/src/server.rs:727-735 | a catalogue entry reads back its name, description and usage, in that order, when each is under 256 bytes |
| ServerPackets.BuildCommandEntry | voudp/src/server.rs:727-762 | the push/extend sequence writes exactly the reference command entry |
| ServerPackets.BuildSyncPacket | voudp/src/server.rs:724-763 | the loop writes 0x0c, the count as a big-endian u16, then each reference entry |
| Plugin.JoinVerbEffect | voudp/src/plugin.rs:50-68 | a join context's `reply` queues a reply to the joining address, `cancel` sets the flag, and nothing is printed |
| Plugin.MessageVerbEffect | voudp/src/plugin.rs:77-113 | a message context's `reply` answers the sender by name, `kick` kicks the sender with the reason, `cancel` sets the flag, and `broadcast` does nothing |
| Plugin.LeaveVerbEffect | voudp/src/plugin.rs:119-126 | a leave context's `broadcast` prints `[broadcast] {msg}` and neither queues nor cancels |
| Plugin.RunCancelsIff | voudp/src/plugin.rs:63-66 | a hook cancels if and only if one of its calls is `cancel` |
| Plugin.DispatchFrom | voudp/src/plugin.rs:292-317 | one step of the loop: a plugin without a resolving hook is skipped; a cancelling hook ends the dispatch with its own effects kept; otherwise its effects come before the rest of the dispatch |
| Plugin.DispatchAllowedIff | voudp/src/plugin.rs:289-319 | a dispatch lets the event through if and only if no plugin's hook cancels |
| Plugin.DispatchAppend | voudp/src/plugin.rs:292-317 | over two runs of plugins, the second runs only if the first let the event through, and then its effects follow the first's |
| Plugin.DispatchEmitsOnly | voudp/src/plugin.rs:292-317 | every action a dispatch queues is one some single call could queue |
| Plugin.RunEmitsOnly | voudp/src/plugin.rs:309 | every action a hook queues is one some single call could queue |
| Plugin.DispatchQuiet | voudp/src/plugin.rs:355-375 | when no call can cancel or queue, the dispatch lets the event through and queues nothing |
| Plugin.RunQuiet | voudp/src/plugin.rs:370 | when no call can cancel or queue, neither can a hook |
| Plugin.JoinEmitsRepliesToJoiner | voudp/src/plugin.rs:52-57 | a join dispatch only ever queues replies to the joining address |
| Plugin.MessageEmitsToSender | voudp/src/plugin.rs:82-101 | a message dispatch only ever replies to the sender or kicks the sender with a reason |
| Plugin.LeaveRunsAll | voudp/src/plugin.rs:355-375 | a leave dispatch is never cut short and queues no action |
| Plugin.PluginManager.constructor | voudp/src/plugin.rs:240-245 | a new manager has no plugins and nothing queued or printed |
| Plugin.PluginManager.LoadPlugin | voudp/src/plugin.rs:259-287 | a loaded plugin is appended after the earlier ones; a failure changes nothing |
| Plugin.PluginManager.RunHook | voudp/src/plugin.rs:302-315 | after one hook call the shared flag is set if it was already set or the hook cancelled; its actions and lines are appended in order |
| Plugin.PluginManager.DispatchHooks | voudp/src/plugin.rs:292-318 | the loop's verdict, queued actions and printed lines are exactly those of `Dispatch` |
| Plugin.PluginManager.DispatchJoin | voudp/src/plugin.rs:289-319 | `dispatch_join` is `Dispatch` over the `on_join` hooks |
| Plugin.PluginManager.DispatchMessage | voudp/src/plugin.rs:321-353 | `dispatch_message` is `Dispatch` over the `on_message` hooks |
| Plugin.PluginManager.DispatchLeave | voudp/src/plugin.rs:355-375 | every `on_leave` hook runs; nothing is queued and their lines are printed in order |
| LegacyServer.NewRemote | src/server.rs:33-52 | a new remote has the sender's address, channel 0, no mask and is active now |
| LegacyServer.AddRemote | src/server.rs:76-82 | the address is appended to the members and gains a mix buffer and a filter state; a buffered, duplicate-free channel stays so when the address is new |
| LegacyServer.Retain | src/server.rs:85 | exactly the members with a different address are kept |
| LegacyServer.RetainDistinct | src/server.rs:85 | filtering keeps a duplicate-free member list duplicate-free |
| LegacyServer.RemoveRemote | src/server.rs:84-88 | the address is no longer a member and loses its buffer and filter state; every other member stays |
| LegacyServer.JoinChannels | src/server.rs:216-229 | a join adds channel `id` to the table when it is missing and removes no channel |
| LegacyServer.Joined | src/server.rs:209-224 | the joiner's record, new or existing, now names channel `id` and otherwise keeps its fields |
| LegacyServer.OtherChannelAfterJoin | src/server.rs:223 | a channel that did not list the joiner stays well formed when the joiner's record changes |
| LegacyServer.JoinKeepsTables | src/server.rs:200-230 | a join keeps every channel listing only registered remotes that name it, once each, with buffers for exactly its members |
| LegacyServer.JoinPlacesOnce | src/server.rs:216-229 | after a join the address is the last member of channel `id`, listed once, and in no other channel |
| LegacyServer.Drop | src/server.rs:249-261 | dropping a remote takes it out of the registry and keeps the set of channels |
| LegacyServer.DropKeepsTables | src/server.rs:249-261 | dropping keeps the tables well formed and each channel keeps exactly its members other than the dropped one |
| LegacyServer.NoStaleMembers | src/server.rs:249-261 | under the invariant no channel lists an unregistered address |
| LegacyServer.TouchKeepsTables | src/server.rs:238 | changing a record without changing its channel keeps the tables well formed |
| LegacyServer.JoinKeepsPlaced | src/server.rs:200-230 | after a join every registered remote is still a member of the channel it names |
| LegacyServer.DropKeepsPlaced | src/server.rs:249-261 | after a drop every remaining remote is still a member of the channel it names |
| LegacyServer.LegacyState.constructor | src/server.rs:169-184 | a new server has no remotes, no channels and an empty ring buffer |
| LegacyServer.LegacyState.HandleJoin | src/server.rs:200-230 | the join with the record's lock released before the former channel is left (`JoinEffect`): fewer than four bytes change nothing; otherwise the big-endian channel id is joined as `JoinChannels` and `Joined` say, keeping the invariant |
| LegacyServer.LegacyState.HandleJoinAsWritten | src/server.rs:200-230 | the join as written hangs exactly when it has at least four bytes and the sender is already registered, changing nothing; otherwise it acts as `JoinEffect` |
| LegacyServer.RejoinFindsOwnRecord | src/server.rs:217-224 | under the invariant, the former channel lists the joiner's own record exactly when the joiner is already registered |
| LegacyServer.RejoinHangs | src/server.rs:217-224 | joining channel 1 and then channel 2 from one address: the first join completes and the second hangs |
| LegacyServer.RejoinMoves | src/server.rs:200-230 | the same two joins with the lock released first leave the remote naming channel 2, listed in channel 2 and not in channel 1 |
| LegacyServer.LegacyState.HandleAudio | src/server.rs:232-247 | `AudioEffect`: an unknown sender changes nothing; a known one is marked active now and its frame is queued unless the ring buffer already holds `RB_CAP` frames |
| LegacyServer.LegacyState.HandleEof | src/server.rs:249-261 | the sender leaves its channel and the registry and no channel lists it afterwards |
| LegacyServer.LegacyState.HandleMask | src/server.rs:263-291 | `MaskEffect`: a known sender's mask becomes the decoded UTF-8 text; an unknown sender or invalid UTF-8 changes nothing |
| LegacyServer.LegacyState.HandlePacket | src/server.rs:186-198 | empty data and unknown tags change nothing; tag 1 acts as `JoinEffect` (the corrected join), tag 2 as `AudioEffect`, tag 3 as `Drop` and tag 4 as `MaskEffect`, each on the rest of the packet |
| LegacyServer.LegacyState.Cleanup | src/server.rs:334-352 | exactly the remotes idle for more than five seconds are removed from the registry and from their channels; the others are unchanged |
| LegacyServer.SweepStep | src/server.rs:337-351 | visiting one more remote, and dropping it when idle, extends the sweep by that remote |
| LegacyServer.NextKey | src/server.rs:337 | the next key of the map's enumeration has not been visited yet |
| LegacyServer.SweepIdle | src/server.rs:337-351 | the retain loop, in any enumeration order, drops exactly the idle remotes and keeps the tables well formed |
| LegacyServer.SweptAll | src/server.rs:337-351 | a sweep that visited every key has dropped exactly the idle remotes from registry and channels |
| Bubble.ParseChatMessage | voudp-gui/src/bubble.rs:4-12 | a line without `[#` is refused; a parsed line is exactly `[#channel] name: content`, with no `] ` in the channel and no `: ` in the name |
| Bubble.ParseSystemMessage | voudp-gui/src/bubble.rs:14-21 | a line without `[` is refused; a parsed line is exactly `[source] text`, with no `] ` in the source |
| Bubble.ChatNoneIff | voudp-gui/src/bubble.rs:4-12 | a chat line is refused if and only if the `[#` or one of the two separators is missing |
| Bubble.ChatRoundTrip | voudp-gui/src/main.rs:1086 | a chat line the GUI formats parses back to its channel, name and content when the channel holds no `] ` and the name no `: ` |
| Bubble.ChatRoundTripNeedsPlainChannel | voudp-gui/src/bubble.rs:9 | a channel holding `] ` is split at the earlier separator, so the round trip fails without that condition |
| Bubble.NoColon | voudp-gui/src/bubble.rs:10 | a name without `:` cannot hold the name separator |
| Bubble.HashKeepsNoSourceEnd | voudp-gui/src/bubble.rs:15-19 | putting `#` before a channel without `] ` creates no `] ` |
| Bubble.ChatIsSystem | voudp-gui/src/bubble.rs:4-21 | every chat line also parses as a system line whose source is `#` and the channel and whose text is `name: content` |
| Bubble.SystemOfParts | voudp-gui/src/bubble.rs:14-21 | a system line built from a source without `] ` parses back to its source and text |
| GuiClient.LoadSettings | voudp-gui/src/main.rs:88-118 | a missing or empty settings file, or one with fewer than three words, gives the built-in settings; otherwise the first three words |
| GuiClient.LoadedSettingsAreWords | voudp-gui/src/main.rs:94-97 | settings read from a file are three non-empty words without whitespace |
| GuiClient.SettingsRoundTrip | voudp-gui/src/main.rs:94-97 | three words written with single spaces are read back as those words |
| GuiClient.Stripped | voudp-gui/src/main.rs:1498 | a name is its first character followed by the stripped name |
| GuiClient.LowerChar | voudp-gui/src/main.rs:1331-1333 | upper-case ASCII letters are mapped 32 code points down and every other character is kept |
| GuiClient.Lower | voudp-gui/src/main.rs:1331-1333 | lower-casing keeps the length and lower-cases each character |
| GuiClient.FilterMatching | voudp-gui/src/main.rs:1328-1341 | the matching commands are exactly the listed ones whose stripped name or alias starts with the filter, ignoring ASCII case, and no more than the list |
| GuiClient.FilteredCommands | voudp-gui/src/main.rs:1323-1342 | `get_filtered_commands` returns exactly the matching commands, the empty-filter shortcut included |
| GuiClient.FilterEmptyKeepsAll | voudp-gui/src/main.rs:1324-1326 | the empty filter matches every command, so the shortcut returns what filtering would |
| GuiClient.FilterAppend | voudp-gui/src/main.rs:1328-1341 | filtering keeps list order: filtering a concatenation concatenates the filtered parts |
| GuiClient.LowerPrefix | voudp-gui/src/main.rs:1331-1333 | lower-casing both sides keeps a prefix a prefix |
| GuiClient.SharedLen | voudp-gui/src/main.rs:1503-1510 | every other name agrees with the first at each position below the result, and disagrees or ends at the result itself |
| GuiClient.CommonPrefix | voudp-gui/src/main.rs:1493-1513 | the common prefix is a prefix of the first name |
| GuiClient.CommonPrefixIsLongest | voudp-gui/src/main.rs:1493-1513 | the common prefix is a prefix of every name and no longer string is |
| GuiClient.StrippedNames | voudp-gui/src/main.rs:1498 | one stripped name per command, in order |
| GuiClient.FindCommonPrefix | voudp-gui/src/main.rs:1493-1513 | the loop, indexing every name by character, returns the longest common prefix of the stripped names |
| GuiClient.ByteOffset | voudp-gui/src/main.rs:1503 | the byte offset `char_indices` yields for character `k` is at least `k` |
| GuiClient.SharedLenAsWritten | voudp-gui/src/main.rs:1503-1510 | the as-written scan stops between position `k` and the end of the first name |
| GuiClient.CommonPrefixAsWritten | voudp-gui/src/main.rs:1493-1513 | the as-written result, comparing character `n` of the other names against the character at byte offset `n`, is a prefix of the first name |
| GuiClient.AsWrittenAgreesOnAscii | voudp-gui/src/main.rs:1503-1507 | when the first name is ASCII the as-written loop returns the longest common prefix |
| GuiClient.AsWrittenNotCommon | voudp-gui/src/main.rs:1503-1507 | for the names `éab` and `éxa` the as-written loop returns `éa`, which is not a prefix of `éxa` |
| GuiClient.NavDown | voudp-gui/src/main.rs:1253-1256 | arrow down always lands inside the list |
| GuiClient.NavUp | voudp-gui/src/main.rs:1259-1266 | arrow up from inside the list stays inside it |
| GuiClient.Navigate | voudp-gui/src/main.rs:1252-1266 | no arrow keeps the selection; a single down, or any move from inside the list, lands inside it |
| GuiClient.NavInverse | voudp-gui/src/main.rs:1252-1266 | up undoes down and down undoes up, wrap-around included |
| GuiClient.GuiClient.Filtered | voudp-gui/src/main.rs:1323-1342 | the client's suggestions are exactly its listed commands that match its filter |
| GuiClient.GuiClient.Send | voudp-gui/src/main.rs:1526-1535 | with a socket the datagram is sent; without one `Not connected` is logged and nothing is sent |
| GuiClient.GuiClient.SendMessage | voudp-gui/src/main.rs:1540-1565 | an empty line does nothing; without a nickname the nickname screen opens; otherwise the line goes out tagged 0x06 and the input is cleared |
| GuiClient.GuiClient.ExecuteCommand | voudp-gui/src/main.rs:1515-1538 | a line not starting with `/` does nothing; otherwise the suggestions close, the selection resets, the line goes out tagged 0x0d and the input is cleared |
| GuiClient.GuiClient.TabComplete | voudp-gui/src/main.rs:1472-1491 | no match does nothing; one match completes its name and a space; several extend input and filter to their longest common prefix when it is new and non-empty |
| GuiClient.GuiClient.HandleCommandNav | voudp-gui/src/main.rs:1220-1320 | with no open list or no match nothing happens; otherwise the arrows move the selection, Enter fills in the selected command or asks for a nickname, Escape closes the list, and the key press is reported as handled |
| GuiClient.GuiClient.MoveSelection | voudp-gui/src/main.rs:1252-1266 | the new selection is `Navigate` of the old one |
| GuiClient.GuiClient.ChooseSuggestion | voudp-gui/src/main.rs:1297-1310 | a command needing a nickname, with none set, opens the nickname screen with its message; any other fills the input; the list closes |
| GuiClient.CompletionKeepsCandidates | voudp-gui/src/main.rs:1484-1490 | completing to the common prefix keeps every candidate of the old filter among the new suggestions |
| ConsoleClient.KeepLastBounds | voudp-console/src/main.rs:41-48 | trimming keeps at most the cap, keeps the newest entries in order, and changes nothing when under the cap |
| ConsoleClient.EditInput | voudp-console/src/main.rs:221-224 | a character is appended, Backspace drops the last character if there is one, and other keys change nothing |
| ConsoleClient.BackspaceUndoesChar | voudp-console/src/main.rs:221-224 | Backspace right after typing a character restores the line |
| ConsoleClient.CommandPacket | voudp-console/src/main.rs:231-234 | a command packet starts with tag 0x0d |
| ConsoleClient.CommandPacketDecodes | voudp-console/src/main.rs:231-234 | the bytes after the tag decode as UTF-8 to the entered line |
| ConsoleClient.EnterPackets | voudp-console/src/main.rs:225-240 | Enter sends the command packet, then EOF exactly when the trimmed line is `quit` |
| ConsoleClient.Console.constructor | voudp-console/src/main.rs:34-39 | a new console has no log lines and an empty input |
| ConsoleClient.Console.PushLog | voudp-console/src/main.rs:41-48 | the log becomes the last 10000 lines of the old log with the new line appended |
| ConsoleClient.Console.Receive | voudp-console/src/main.rs:197-205 | a received line is logged with both addresses; a shutdown stops the loop |
| ConsoleClient.Console.KeepAlive | voudp-console/src/main.rs:207-210 | a keep-alive sends the single byte 0x04 |
| ConsoleClient.Console.HandleKey | voudp-console/src/main.rs:214-242 | Ctrl+C sends EOF and stops; Enter logs, sends and maybe quits as `EnterLine` says; other keys edit the input as `EditInput` says |
| ConsoleClient.Console.EnterLine | voudp-console/src/main.rs:225-240 | the input is taken and cleared, echoed to the log, and `EnterPackets` of it is sent; the loop stops on `quit` |
| ConsoleClient.LogStaysBounded | voudp-console/src/main.rs:41-48 | a log within the cap stays within it, ends with the new line, and drops its oldest line only when full |
| Bytes.FromBE32OfBE32 | voudp/src/util.rs:20-21 | reading back four big-endian bytes written from a `u32` gives the number |
| Bytes.BE32OfFromBE32 | voudp/src/server.rs:378 | writing back a `u32` read from four big-endian bytes gives the bytes |
| Utf8.DecodeEncode | voudp/src/server.rs:629 | `String::from_utf8` accepts the bytes `as_bytes` gives for any string and returns the string |
| Utf8.EncodeDecode | voudp/src/util.rs:28 | bytes that `String::from_utf8` accepts are the encoding of the string it returns |

## Left out

- Audio processing is floating-point signal work in foreign codecs, so it is not modelled: `Channel::mix`, `process_audio_tick`, the jitter buffers, the Opus encoder and decoder, and the mixer modules. Audio frames are opaque byte sequences queued in the ring buffer.
- `voudp/src/music.rs`, `voudp/src/client.rs` and the `voudp-cli` front end are streams, threads and terminal I/O outside the relay core.
- ChaCha20-Poly1305 (RFC 8439 section 2.8) and PBKDF2-HMAC-SHA256 key derivation (RFC 8018 section 5.2) are not modelled. The cipher is a pair of arbitrary functions where either direction may fail, and the random nonce prefix is any fixed four bytes.
- The operating system is replaced by values:
  - sockets become a sequence of outgoing datagrams (`outbox`, `sent`);
  - receiving becomes a parameter, and so does whether the operating system accepts an outgoing datagram;
  - DNS resolution in `connect` is a list of already resolved addresses;
  - threads, `mpsc` channels, `thread::sleep` and the `run` loops are left out.
- `Instant::now` is an integer millisecond parameter. `duration_since` is modelled as saturating at zero, as Rust's does. `Local::now` formatting is an opaque clock string.
- `util::parse_control_packet`, `ClientPacketType::is_reliable` and `send_bad_packet_notice` are used by the server and socket, but their definitions are not part of this model. The first two are function parameters. The third is a notice whose bytes are not given.
- `Plugin::load` and everything in mlua are left out:
  - a hook is an arbitrary function from its context to the verbs it calls;
  - a registry key that no longer resolves is a `Broken` slot, skipped as the source skips it;
  - hook runtime errors are only logged by the source and are not modelled.
- `PluginManager::log_loaded` only logs. The `JoinContext` getters only feed data to the hook.
- `is_client_ready` is `todo!()` in the source and has no model.
- `HashMap` iteration order is unspecified. Wherever it matters (the channel order in `handle_list` and `chans`, the channel `rename` or `del` picks when names collide, the order of the cleanup sweeps) the model takes an arbitrary enumeration of the keys, and every contract holds for all of them.
- LegacyServer.LegacyState.HandlePacket: routes a join to the corrected `HandleJoin` of the Findings table, so a rejoining remote does not hang the relay as the source's does (`HandleJoinAsWritten`).
- The first relay keeps channel members as `Arc` handles. The model keys them by address. Its invariant proves each registered address is listed once, in the channel its record names, so the two coincide.
- `ServerConfig`'s floating-point audio-shaping settings are dropped. The kHz figure in the `create` reply is rendered from the integer sample rate as Rust prints `rate as f64 / 1000.0`.
- The desktop client's egui drawing, fonts, colours and focus handling are left out, along with `bubble_ui`, the socket-error log line and the command-list refresh. So are the console client's `render` and event polling and the stdin prompt helper `ask`.
- GuiClient.GuiClient.TabComplete: completes to the longest common prefix (`GuiClient.FindCommonPrefix`), the corrected function of the Findings table. The source's `tab_complete` calls `find_common_prefix` as written, so on stripped names with non-ASCII characters it may complete to a string that is not a prefix of every match (`GuiClient.AsWrittenNotCommon`).
- GuiClient.Lower: only ASCII letters are lower-cased, as `to_ascii_lowercase` does; the source's `to_lowercase` also folds other alphabets.
- GuiClient.FilterMatching: requires every command name and alias to be non-empty with an ASCII first character, because the source's `name[1..]` panics otherwise. The same precondition holds for the other members that take a command list.
- Commands.TestHandler: requires the sender to have a mask, because the source unwraps it and panics otherwise.
- Registry.FrameSize: requires a non-zero tick rate, because the source's integer division panics on zero.
- ConsoleCmd.NextIdFresh: the fresh-id guarantee requires the largest key to be below `u32::MAX`. At the maximum, `id + 1` wraps to 0 as in a release build, which `ConsoleCmd.NextIdWraps` states; a debug build would panic instead.
- Quirks of the source are modelled as written and stated as lemmas:
  - the unreachable channel-id guard in `handle_join`;
  - the duplicate membership on rejoining the same channel (`Server.RejoinDuplicates`);
  - the console timeout that never fires because `duration_since` saturates (`Server.ConsoleNeverExpires`);
  - the retransmission of stored frames without re-encryption (`Socket.SecureUdpSocket.TickReliable`).

## Findings

| source | as written | input that shows it | evidently intended | confidence | as-written member | corrected member |
|---|---|---|---|---|---|---|
| voudp-gui/src/main.rs:1503-1507 | `find_common_prefix` takes `i` from `char_indices`, which is a byte offset, then compares it with `name.len()` (bytes) and with `name.chars().nth(i)` (a character index) | stripped names `éab` and `éxa`: the loop returns `éa`, which is not a prefix of `éxa` | the longest prefix common to every stripped name | not executed | GuiClient.AsWrittenNotCommon | GuiClient.FindCommonPrefix |
| src/server.rs:217-224 | `handle_join` holds the joiner's record locked while `remove_remote` (src/server.rs:84-88) locks every record of the former channel, the joiner's own included | a remote joins channel 1 and then channel 2 from the same address: the second join locks a mutex its own thread already holds and never returns | release the record before leaving the former channel, as `handle_eof` does | not executed | LegacyServer.LegacyState.HandleJoinAsWritten | LegacyServer.LegacyState.HandleJoin |
