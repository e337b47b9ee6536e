/**
 * The relay's session and channel registry (voudp/src/server.rs,
 * `ServerState`): who is connected, which channel each remote sits in, which
 * consoles are logged in, and what each incoming plaintext makes the server
 * send. Receiving, the envelope and the audio tick are outside this module;
 * the clock arrives as a millisecond parameter and every `send_to` lands in
 * `outbox`.
 */
module Server {
  import opened Wrappers
  import opened Bytes
  import opened Net
  import opened Utf8
  import opened Text
  import opened Iteration
  import opened Protocol
  import opened Registry
  import opened ServerPackets
  import Commands
  import ConsoleCmd

  const WELCOME := "Welcome to this server. Server time is "
  const MOVED := "You have been moved to #"
  // Replies longer than a word are written as two joined halves, so that
  // the verifier does not expand their UTF-8 encoding character by character
  // wherever a reply is sent; the text is exactly the source's.
  const EMPTY_CONSOLE_REPLY := "server received your" + " empty message"
  const UNKNOWN_COMMAND := "Unknown command. Type /help" + " for available commands."
  const NEEDS_NICK := "You need to set a nickname" + " first with /nick"
  const NOT_PERMITTED := "You don't have permission" + " to use this command."

  /** The three channels every server starts with. */
  function DefaultChannels(): map<u32, Channel> {
    map[1 := NewChannel("general", 1), 2 := NewChannel("music", 2), 3 := NewChannel("test", 3)]
  }

  /** `later.duration_since(earlier)`, which saturates at zero. */
  function Since(later: int, earlier: int): nat {
    if later > earlier then later - earlier else 0
  }

  /** An elapsed time strictly longer than `timeout_secs` seconds. */
  predicate Expired(elapsed: nat, timeoutSecs: u64) {
    elapsed > timeoutSecs as int * 1000
  }

  /** The cleanup test for consoles measures `last_active.duration_since(now)`, which is zero whenever the console was seen before now. */
  lemma ConsoleNeverExpires(lastActive: int, now: int, timeoutSecs: u64)
    requires lastActive <= now
    ensures !Expired(Since(lastActive, now), timeoutSecs)
  {
  }

  /** The effect of one control request on a remote's status. */
  function ApplyControl(s: RemoteStatus, req: ControlRequest): RemoteStatus {
    match req
    case SetDeafen => s.(deaf := true)
    case SetUndeafen => s.(deaf := false)
    case SetMute => s.(mute := true)
    case SetUnmute => s.(mute := false)
  }

  /** A request sets one flag to a fixed value: the other flag is kept, and repeating it changes nothing. */
  lemma ControlSetsOneFlag(s: RemoteStatus, req: ControlRequest)
    ensures var r := ApplyControl(s, req);
      && (req == SetDeafen || req == SetUndeafen ==> r.mute == s.mute && r.deaf == (req == SetDeafen))
      && (req == SetMute || req == SetUnmute ==> r.deaf == s.deaf && r.mute == (req == SetMute))
      && ApplyControl(r, req) == r
  {
  }

  /** What the reply to a command result is: tag 0x0e for success, 0x0f for an error, nothing when silent. */
  function CommandReply(result: Commands.CommandResult): (r: Option<seq<byte>>)
    ensures result.Silent? <==> r.None?
    ensures result.Success? ==> r == Some([0x0e] + Encode(result.msg))
    ensures result.Error? ==> r == Some([0x0f] + Encode(result.msg))
  {
    match result
    case Success(msg) => Some([0x0e] + Encode(msg))
    case Error(msg) => Some([0x0f] + Encode(msg))
    case Silent => None
  }

  predicate AllMembersIn(channels: map<u32, Channel>, cells: map<Cell, Remote>) {
    forall id :: id in channels ==> MembersIn(channels[id], cells)
  }

  /** The channel a join lands in: the existing one, or a new `general-{id}`. */
  function TargetChannel(channels: map<u32, Channel>, id: u32): (c: Channel)
    ensures id in channels ==> c == channels[id]
    ensures id !in channels ==> c == NewChannel("general-" + NatToString(id), id)
  {
    if id in channels then channels[id] else NewChannel("general-" + NatToString(id), id)
  }

  /**
   * The channel table after `addr` (record `cell`) moves from `oldId` to
   * `id`: it leaves the old channel only when that id is neither 0 nor the
   * new one, then it is appended to the target channel.
   */
  function JoinChannels(channels: map<u32, Channel>, cells: map<Cell, Remote>, addr: SocketAddr,
                        cell: Cell, oldId: u32, id: u32): (r: map<u32, Channel>)
    requires AllMembersIn(channels, cells) && cell in cells
    ensures AllMembersIn(r, cells)
    ensures r.Keys == channels.Keys + {id}
  {
    var left := if oldId != id && oldId != 0 && oldId in channels
      then channels[oldId := RemoveRemote(channels[oldId], addr, cells)] else channels;
    left[id := AddRemote(TargetChannel(channels, id), cell, cells)]
  }

  /** The joiner is the last member of its new channel, and the old channel no longer lists its address. */
  lemma JoinMoves(channels: map<u32, Channel>, cells: map<Cell, Remote>, addr: SocketAddr, cell: Cell, oldId: u32, id: u32)
    requires AllMembersIn(channels, cells) && cell in cells && cells[cell].addr == addr
    ensures var r := JoinChannels(channels, cells, addr, cell, oldId, id);
      && |r[id].members| >= 1 && r[id].members[|r[id].members| - 1] == cell
      && r[id].members[..|r[id].members| - 1] == TargetChannel(channels, id).members
      && addr in r[id].buffers && addr in r[id].filterStates
      && (oldId != id && oldId != 0 && oldId in channels ==>
            forall i :: 0 <= i < |r[oldId].members| ==> cells[r[oldId].members[i]].addr != addr)
      && (forall k :: k in channels && k != id && k != oldId ==> r[k] == channels[k])
  {
  }

  /** Leaving channel 0 is skipped: a remote that joined 0 stays listed there after moving on. */
  lemma JoinFromZeroKeepsMembership(channels: map<u32, Channel>, cells: map<Cell, Remote>, addr: SocketAddr, cell: Cell, id: u32)
    requires AllMembersIn(channels, cells) && cell in cells
    requires 0 in channels && cell in channels[0].members && id != 0
    ensures 0 in JoinChannels(channels, cells, addr, cell, 0, id)
    ensures JoinChannels(channels, cells, addr, cell, 0, id)[0] == channels[0]
  {
  }

  /** Rejoining the channel one is in adds a second membership entry. */
  lemma RejoinDuplicates(channels: map<u32, Channel>, cells: map<Cell, Remote>, addr: SocketAddr, cell: Cell, id: u32)
    requires AllMembersIn(channels, cells) && cell in cells
    requires id in channels && cell in channels[id].members
    ensures multiset(JoinChannels(channels, cells, addr, cell, id, id)[id].members)[cell]
         == multiset(channels[id].members)[cell] + 1
    ensures multiset(JoinChannels(channels, cells, addr, cell, id, id)[id].members)[cell] >= 2
  {
    var ms := channels[id].members;
    assert JoinChannels(channels, cells, addr, cell, id, id)[id].members == ms + [cell];
    assert multiset(ms + [cell]) == multiset(ms) + multiset{cell};
  }

  /** The packets a join sends: a welcome to a new remote, a FlowJoin to the target's current members if masked, then the move notice. */
  function JoinNotices(isNew: bool, addr: SocketAddr, clock: string, mask: Option<string>,
                       peers: seq<SocketAddr>, target: Channel): seq<Outbound>
  {
    (if isNew then [Packet(addr, DmPacket(WELCOME + clock))] else [])
      + (if mask.Some? then Fanout(peers, MaskPacket(mask.value, None)) else [])
      + (if target.name.Some? then [Packet(addr, DmPacket(MOVED + target.name.value))] else [])
  }

  /** The FlowJoin reaches exactly the members listed before the joiner was added. */
  lemma JoinNoticeRecipients(isNew: bool, addr: SocketAddr, clock: string, mask: string,
                             peers: seq<SocketAddr>, target: Channel, to: SocketAddr)
    ensures Packet(to, MaskPacket(mask, None)) in JoinNotices(isNew, addr, clock, Some(mask), peers, target)
        <==> to in peers
  {
    var n := JoinNotices(isNew, addr, clock, Some(mask), peers, target);
    var w: seq<Outbound> := if isNew then [Packet(addr, DmPacket(WELCOME + clock))] else [];
    var f := Fanout(peers, MaskPacket(mask, None));
    var m: seq<Outbound> := if target.name.Some? then [Packet(addr, DmPacket(MOVED + target.name.value))] else [];
    assert n == w + f + m;
    var p := MaskPacket(mask, None);
    assert p[0] == 0x0a;
    if isNew {
      assert DmPacket(WELCOME + clock)[0] == 0x11;
    }
    if target.name.Some? {
      assert DmPacket(MOVED + target.name.value)[0] == 0x11;
    }
    if to in peers {
      var i :| 0 <= i < |peers| && peers[i] == to;
      assert n[|w| + i] == f[i];
    }
  }

  /**
   * What dropping the remote `addr` (record `cell`) does to the channel table
   * and the outbox: a masked remote's FlowLeave goes to every member of its
   * channel, itself included, and it leaves that channel.
   */
  function Leave(addr: SocketAddr, cell: Cell, cells: map<Cell, Remote>, channels: map<u32, Channel>)
    : (r: (map<u32, Channel>, seq<Outbound>))
    requires cell in cells && AllMembersIn(channels, cells)
    ensures AllMembersIn(r.0, cells) && r.0.Keys == channels.Keys
    ensures forall id :: id in channels && id != cells[cell].channelId ==> r.0[id] == channels[id]
    ensures forall id :: id in channels ==> forall i :: 0 <= i < |r.0[id].members| ==> r.0[id].members[i] in channels[id].members
    ensures var id := cells[cell].channelId;
      id in channels ==> forall i :: 0 <= i < |r.0[id].members| ==> cells[r.0[id].members[i]].addr != addr
  {
    var rem := cells[cell];
    if rem.channelId !in channels then (channels, [])
    else
      var c := channels[rem.channelId];
      var notices := if rem.mask.Some? then Fanout(Addrs(c.members, cells), LeavePacket(rem.mask.value)) else [];
      (channels[rem.channelId := RemoveRemote(c, addr, cells)], notices)
  }

  /** A masked leaver listed in its channel is sent its own FlowLeave, and its address leaves the channel. */
  lemma LeaveNotifiesLeaver(addr: SocketAddr, cell: Cell, cells: map<Cell, Remote>, channels: map<u32, Channel>)
    requires cell in cells && AllMembersIn(channels, cells) && cells[cell].addr == addr
    requires cells[cell].channelId in channels && cell in channels[cells[cell].channelId].members
    requires cells[cell].mask.Some?
    ensures Packet(addr, LeavePacket(cells[cell].mask.value)) in Leave(addr, cell, cells, channels).1
    ensures var ms := Leave(addr, cell, cells, channels).0[cells[cell].channelId].members;
      forall i :: 0 <= i < |ms| ==> cells[ms[i]].addr != addr
  {
    var c := channels[cells[cell].channelId];
    var i :| 0 <= i < |c.members| && c.members[i] == cell;
    var peers := Addrs(c.members, cells);
    assert peers[i] == addr;
    assert Fanout(peers, LeavePacket(cells[cell].mask.value))[i] == Packet(addr, LeavePacket(cells[cell].mask.value));
  }

  /** `cleanup`'s sweep over the remotes in `order`: every expired one leaves, one after the other. */
  function ExpireAll(order: seq<SocketAddr>, expired: set<SocketAddr>, remotes: map<SocketAddr, Cell>,
                     cells: map<Cell, Remote>, channels: map<u32, Channel>): (r: (map<u32, Channel>, seq<Outbound>))
    requires forall i :: 0 <= i < |order| ==> order[i] in remotes && remotes[order[i]] in cells
    requires AllMembersIn(channels, cells)
    ensures AllMembersIn(r.0, cells) && r.0.Keys == channels.Keys
    ensures forall id :: id in channels ==> forall i :: 0 <= i < |r.0[id].members| ==> r.0[id].members[i] in channels[id].members
  {
    if order == [] then (channels, [])
    else
      var prev := ExpireAll(order[..|order| - 1], expired, remotes, cells, channels);
      var a := order[|order| - 1];
      if a in expired then
        var step := Leave(a, remotes[a], cells, prev.0);
        (step.0, prev.1 + step.1)
      else prev
  }

  /** No record in `ms` carries the address `a`. */
  predicate Absent(ms: seq<Cell>, cells: map<Cell, Remote>, a: SocketAddr) {
    forall i :: 0 <= i < |ms| && ms[i] in cells ==> cells[ms[i]].addr != a
  }

  lemma AbsentInSubset(ms: seq<Cell>, sub: seq<Cell>, cells: map<Cell, Remote>, a: SocketAddr)
    requires Absent(ms, cells, a)
    requires forall i :: 0 <= i < |sub| ==> sub[i] in ms
    ensures Absent(sub, cells, a)
  {
    forall i | 0 <= i < |sub| && sub[i] in cells ensures cells[sub[i]].addr != a {
      var j :| 0 <= j < |ms| && ms[j] == sub[i];
    }
  }

  /** One step of the sweep: the prefix's result, then the last remote leaves if it expired. */
  lemma ExpireAllStep(order: seq<SocketAddr>, expired: set<SocketAddr>, remotes: map<SocketAddr, Cell>,
                      cells: map<Cell, Remote>, channels: map<u32, Channel>)
    requires order != []
    requires forall i :: 0 <= i < |order| ==> order[i] in remotes && remotes[order[i]] in cells
    requires AllMembersIn(channels, cells)
    ensures var prev := ExpireAll(order[..|order| - 1], expired, remotes, cells, channels);
      var a := order[|order| - 1];
      ExpireAll(order, expired, remotes, cells, channels)
        == if a in expired then (Leave(a, remotes[a], cells, prev.0).0, prev.1 + Leave(a, remotes[a], cells, prev.0).1) else prev
  {
  }

  /** After the sweep, no expired remote is still listed in the channel it was in. */
  lemma {:induction false} ExpireAllRemoves(order: seq<SocketAddr>, expired: set<SocketAddr>, remotes: map<SocketAddr, Cell>,
                                            cells: map<Cell, Remote>, channels: map<u32, Channel>, a: SocketAddr)
    requires forall i :: 0 <= i < |order| ==> order[i] in remotes && remotes[order[i]] in cells
    requires AllMembersIn(channels, cells)
    requires a in order && a in expired && cells[remotes[a]].channelId in channels
    ensures Absent(ExpireAll(order, expired, remotes, cells, channels).0[cells[remotes[a]].channelId].members, cells, a)
  {
    var n := |order|;
    var prev := ExpireAll(order[..n - 1], expired, remotes, cells, channels);
    var id := cells[remotes[a]].channelId;
    var last := order[n - 1];
    ExpireAllStep(order, expired, remotes, cells, channels);
    if last == a {
      var step := Leave(a, remotes[a], cells, prev.0);
      assert Absent(step.0[id].members, cells, a);
    } else {
      assert a in order[..n - 1] by {
        var j :| 0 <= j < n && order[j] == a;
        assert order[..n - 1][j] == a;
      }
      ExpireAllRemoves(order[..n - 1], expired, remotes, cells, channels, a);
      if last in expired {
        var step := Leave(last, remotes[last], cells, prev.0);
        AbsentInSubset(prev.0[id].members, step.0[id].members, cells, a);
      }
    }
  }

  /** Every address owns a record carrying that address, every member is a record, and records are numbered below `nextCell`. */
  predicate TablesValid(remotes: map<SocketAddr, Cell>, cells: map<Cell, Remote>, nextCell: Cell, channels: map<u32, Channel>) {
    && (forall a :: a in remotes ==> remotes[a] in cells && cells[remotes[a]].addr == a)
    && AllMembersIn(channels, cells)
    && (forall c :: c in cells ==> c < nextCell)
  }

  /** A console command that empties channels or keeps their members keeps the tables consistent. */
  lemma MembersKeptKeepsTables(remotes: map<SocketAddr, Cell>, cells: map<Cell, Remote>, nextCell: Cell,
                               channels: map<u32, Channel>, updated: map<u32, Channel>)
    requires TablesValid(remotes, cells, nextCell, channels)
    requires forall id :: id in updated ==>
      updated[id].members == [] || (id in channels && updated[id].members == channels[id].members)
    ensures TablesValid(remotes, cells, nextCell, updated)
  {
    forall id | id in updated ensures MembersIn(updated[id], cells) {
      assert updated[id].members == [] || MembersIn(channels[id], cells);
    }
  }

  /** Storing a record for `addr`, in its own cell or a fresh one, keeps the tables consistent. */
  lemma RegisterKeepsTables(remotes: map<SocketAddr, Cell>, cells: map<Cell, Remote>, nextCell: Cell,
                            channels: map<u32, Channel>, addr: SocketAddr, cell: Cell, r: Remote)
    requires TablesValid(remotes, cells, nextCell, channels)
    requires if addr in remotes then cell == remotes[addr] else cell == nextCell
    requires r.addr == addr
    ensures TablesValid(remotes[addr := cell], cells[cell := r], if addr in remotes then nextCell else nextCell + 1, channels)
  {
  }

  class ServerState {
    /** Every `Remote` record allocated so far, by number. */
    var cells: map<Cell, Remote>
    var nextCell: Cell
    /** `remotes`: the record each connected address owns. */
    var remotes: map<SocketAddr, Cell>
    /** `consoles`: each logged-in console's last-active time. */
    var consoles: map<SocketAddr, int>
    var channels: map<u32, Channel>
    /** `audio_rb`: Opus frames waiting for the audio tick, at most `max_users` of them. */
    var audioRb: seq<(SocketAddr, seq<byte>)>
    /** Every plaintext handed to the socket, in order. */
    var outbox: seq<Outbound>
    const config: ServerConfig
    const commandSystem: Commands.CommandSystem
    /** `util::parse_control_packet`, which is not part of this model. */
    const parseControl: seq<byte> -> Result<ControlRequest, string>

    predicate Valid()
      reads this
    {
      && TablesValid(remotes, cells, nextCell, channels)
      && |audioRb| <= config.maxUsers
    }

    /** `ServerState::new`, without binding the socket or deriving the key. */
    constructor (config: ServerConfig, parseControl: seq<byte> -> Result<ControlRequest, string>)
      ensures Valid() && fresh(commandSystem)
      ensures this.config == config
      ensures cells == map[] && remotes == map[] && consoles == map[] && channels == DefaultChannels()
      ensures audioRb == [] && outbox == []
      ensures commandSystem.commands.Keys == {"/test"} && commandSystem.aliases == map["/" := "/test"]
    {
      this.config := config;
      this.parseControl := parseControl;
      cells := map[];
      nextCell := 0;
      remotes := map[];
      consoles := map[];
      channels := DefaultChannels();
      audioRb := [];
      outbox := [];
      commandSystem := new Commands.CommandSystem();
    }

    /** Addresses of the members of channel `id`, or none when it does not exist. */
    function Peers(id: u32): seq<SocketAddr>
      reads this
      requires AllMembersIn(channels, cells)
    {
      if id in channels then Addrs(channels[id].members, cells) else []
    }

    /** `broadcast_join_masked`: FlowRenick or FlowJoin to every member of the channel. */
    method BroadcastJoinMasked(id: u32, newMask: string, oldMask: Option<string>)
      requires AllMembersIn(channels, cells)
      modifies this`outbox
      ensures outbox == old(outbox) + Fanout(Peers(id), MaskPacket(newMask, oldMask))
    {
      var out := SendAll(Peers(id), MaskPacket(newMask, oldMask));
      outbox := outbox + out;
    }

    /** The sender's record for a join: the one it owns, or a fresh one; either way it now names channel `id`. */
    method Enrol(addr: SocketAddr, now: int, id: u32) returns (isNew: bool, cell: Cell, before: Remote)
      requires Valid()
      modifies this`cells, this`nextCell, this`remotes
      ensures Valid()
      ensures isNew == (addr !in old(remotes))
      ensures cell == (if isNew then old(nextCell) else old(remotes)[addr])
      ensures before == (if isNew then NewRemote(addr, now) else old(cells)[cell])
      ensures remotes == old(remotes)[addr := cell] && cells == old(cells)[cell := before.(channelId := id)]
      ensures nextCell == (if isNew then old(nextCell) + 1 else old(nextCell))
    {
      isNew := addr !in remotes;
      cell := if isNew then nextCell else remotes[addr];
      before := if isNew then NewRemote(addr, now) else cells[cell];
      RegisterKeepsTables(remotes, cells, nextCell, channels, addr, cell, before.(channelId := id));
      remotes := remotes[addr := cell];
      cells := cells[cell := before.(channelId := id)];
      if isNew {
        nextCell := nextCell + 1;
      }
    }

    /**
     * The channel half of a join: leave `oldId` unless it is 0 or `id`,
     * announce a mask to the members of `id`, create `id` if needed, join it.
     */
    method MoveTo(addr: SocketAddr, cell: Cell, oldId: u32, id: u32, mask: Option<string>)
      returns (joined: seq<Outbound>, moved: seq<Outbound>)
      requires AllMembersIn(channels, cells) && cell in cells
      modifies this`channels
      ensures channels == JoinChannels(old(channels), cells, addr, cell, oldId, id)
      ensures joined == if mask.Some? then Fanout(if id in old(channels) then Addrs(old(channels)[id].members, cells) else [],
                                                 MaskPacket(mask.value, None)) else []
      ensures var target := TargetChannel(old(channels), id);
        moved == if target.name.Some? then [Packet(addr, DmPacket(MOVED + target.name.value))] else []
    {
      // channel `id` is read before the old channel is left; leaving never touches `id`
      var target := TargetChannel(channels, id);
      var peers := if id in channels then Addrs(channels[id].members, cells) else [];
      joined := [];
      if mask.Some? {
        joined := SendAll(peers, MaskPacket(mask.value, None));
      }
      moved := if target.name.Some? then [Packet(addr, DmPacket(MOVED + target.name.value))] else [];
      SwitchChannel(addr, cell, oldId, id);
    }

    /** The channel table half of a join: leave `oldId` unless it is 0 or `id`, then join `id`, creating it if needed. */
    method SwitchChannel(addr: SocketAddr, cell: Cell, oldId: u32, id: u32)
      requires AllMembersIn(channels, cells) && cell in cells
      modifies this`channels
      ensures channels == JoinChannels(old(channels), cells, addr, cell, oldId, id)
    {
      var target := TargetChannel(channels, id);
      var left := channels;
      if oldId != id && oldId != 0 && oldId in left {
        left := left[oldId := RemoveRemote(left[oldId], addr, cells)];
      }
      channels := left[id := AddRemote(target, cell, cells)];
    }

    /** Neither the registry nor the channel table nor the outbox has changed. */
    twostate predicate TablesKept()
      reads this
    {
      && cells == old(cells) && nextCell == old(nextCell) && remotes == old(remotes)
      && channels == old(channels) && outbox == old(outbox)
    }

    /**
     * What `handle_join` leaves behind: under four bytes nothing; otherwise
     * the sender owns a record (a fresh one if it was new) naming channel
     * `id`, it has moved from its former channel to `id`, and the welcome,
     * mask and moved notices are queued.
     */
    twostate predicate JoinEffect(addr: SocketAddr, data: seq<byte>, now: int, clock: string)
      requires old(Valid())
      reads this
    {
      && consoles == old(consoles) && audioRb == old(audioRb)
      && if |data| < 4 then TablesKept()
         else
           var id := FromBE32(data[..4]);
           var isNew := addr !in old(remotes);
           var cell := if isNew then old(nextCell) else old(remotes)[addr];
           var before := if isNew then NewRemote(addr, now) else old(cells)[cell];
           && remotes == old(remotes)[addr := cell]
           && cells == old(cells)[cell := before.(channelId := id)]
           && nextCell == (if isNew then old(nextCell) + 1 else old(nextCell))
           && channels == JoinChannels(old(channels), cells, addr, cell, before.channelId, id)
           && outbox == old(outbox) + JoinNotices(isNew, addr, clock, before.mask,
                if id in old(channels) then Addrs(old(channels)[id].members, cells) else [],
                TargetChannel(old(channels), id))
    }

    /** `handle_join`: register the sender if new, move it to the channel named by the first four bytes. */
    method HandleJoin(addr: SocketAddr, data: seq<byte>, now: int, clock: string)
      requires Valid()
      modifies this`cells, this`nextCell, this`remotes, this`channels, this`outbox
      ensures Valid()
      ensures JoinEffect(addr, data, now, clock)
    {
      if |data| < 4 {
        return;
      }
      var id := FromBE32(data[..4]);
      // the guard `id == 0 && id >= u16::MAX` never holds, so no id is refused
      var isNew, cell, before := Enrol(addr, now, id);
      var welcome: seq<Outbound> := if isNew then [Packet(addr, DmPacket(WELCOME + clock))] else [];
      var joined, moved := MoveTo(addr, cell, before.channelId, id, before.mask);
      outbox := outbox + (welcome + joined + moved);
    }

    /**
     * What `handle_audio` leaves behind: for an unknown sender nothing;
     * otherwise its activity time is `now` and its frame is queued unless the
     * ring buffer already holds `max_users` frames.
     */
    twostate predicate AudioEffect(addr: SocketAddr, data: seq<byte>, now: int)
      requires old(Valid())
      reads this
    {
      && nextCell == old(nextCell) && remotes == old(remotes) && consoles == old(consoles)
      && channels == old(channels) && outbox == old(outbox)
      && if addr !in old(remotes) then cells == old(cells) && audioRb == old(audioRb)
         else
           var cell := old(remotes)[addr];
           && cells == old(cells)[cell := old(cells)[cell].(lastActive := now)]
           && audioRb == (if |old(audioRb)| < config.maxUsers then old(audioRb) + [(addr, data)] else old(audioRb))
    }

    /** `handle_audio`: refresh the sender's activity and queue its frame unless the ring buffer is full. */
    method HandleAudio(addr: SocketAddr, data: seq<byte>, now: int)
      requires Valid()
      modifies this`cells, this`audioRb
      ensures Valid()
      ensures AudioEffect(addr, data, now)
    {
      if addr !in remotes {
        return;
      }
      var cell := remotes[addr];
      cells := cells[cell := cells[cell].(lastActive := now)];
      if |audioRb| >= config.maxUsers {
        return;
      }
      audioRb := audioRb + [(addr, data)];
    }

    /**
     * What `handle_eof` leaves behind: for an unknown sender nothing;
     * otherwise it has left its channel, with a FlowLeave to the members when
     * it was masked, and the registry.
     */
    twostate predicate EofEffect(addr: SocketAddr)
      requires old(Valid())
      reads this
    {
      && cells == old(cells) && nextCell == old(nextCell) && consoles == old(consoles) && audioRb == old(audioRb)
      && if addr !in old(remotes) then TablesKept()
         else
           var step := Leave(addr, old(remotes)[addr], old(cells), old(channels));
           && remotes == old(remotes) - {addr}
           && channels == step.0 && outbox == old(outbox) + step.1
    }

    /** `handle_eof`: the remote leaves its channel (with a FlowLeave if masked) and the registry. */
    method HandleEof(addr: SocketAddr)
      requires Valid()
      modifies this`remotes, this`channels, this`outbox
      ensures Valid()
      ensures EofEffect(addr)
    {
      if addr !in remotes {
        return;
      }
      var cell := remotes[addr];
      var rem := cells[cell];
      if rem.channelId in channels {
        var c := channels[rem.channelId];
        if rem.mask.Some? {
          var out := SendAll(Addrs(c.members, cells), LeavePacket(rem.mask.value));
          outbox := outbox + out;
        }
        channels := channels[rem.channelId := RemoveRemote(c, addr, cells)];
      }
      remotes := remotes - {addr};
    }

    /**
     * What `handle_mask` leaves behind: for an unknown sender, bytes that are
     * not UTF-8 or an empty name nothing; otherwise the name is the sender's
     * mask and a FlowRenick (or FlowJoin) is queued for every member of its
     * channel.
     */
    twostate predicate MaskEffect(addr: SocketAddr, data: seq<byte>)
      requires old(Valid())
      reads this
    {
      && nextCell == old(nextCell) && remotes == old(remotes) && consoles == old(consoles)
      && channels == old(channels) && audioRb == old(audioRb)
      && if addr !in old(remotes) || Decode(data).None? || Decode(data) == Some([]) then
           cells == old(cells) && outbox == old(outbox)
         else
           var before := old(cells)[old(remotes)[addr]];
           && cells == old(cells)[old(remotes)[addr] := before.(mask := Decode(data))]
           && outbox == old(outbox) + Fanout(old(Peers(before.channelId)), MaskPacket(Decode(data).value, before.mask))
    }

    /** `handle_mask`: a non-empty UTF-8 name becomes the sender's mask and is announced to its channel. */
    method HandleMask(addr: SocketAddr, data: seq<byte>)
      requires Valid()
      modifies this`cells, this`outbox
      ensures Valid()
      ensures MaskEffect(addr, data)
    {
      if addr !in remotes {
        return;
      }
      var cell := remotes[addr];
      var before := cells[cell];
      var decoded := Decode(data);
      if decoded.None? || decoded.value == [] {
        return;
      }
      cells := cells[cell := before.(mask := decoded)];
      BroadcastJoinMasked(before.channelId, decoded.value, before.mask);
    }

    /**
     * What `handle_list` leaves behind: for an unknown sender nothing;
     * otherwise its activity time is `now` and it is sent every channel, in
     * the map's iteration `order`.
     */
    twostate predicate ListEffect(addr: SocketAddr, now: int, order: seq<u32>)
      requires old(Valid())
      reads this
    {
      && nextCell == old(nextCell) && remotes == old(remotes) && consoles == old(consoles)
      && channels == old(channels) && audioRb == old(audioRb)
      && if addr !in old(remotes) then cells == old(cells) && outbox == old(outbox)
         else
           var cell := old(remotes)[addr];
           && cells == old(cells)[cell := old(cells)[cell].(lastActive := now)]
           && IsEnumeration(order, channels.Keys)
           && outbox == old(outbox) + [Packet(addr, ListReply(old(cells)[cell].channelId, order, channels, cells))]
    }

    /** `handle_list`: refresh the sender's activity and send it the whole channel list. */
    method HandleList(addr: SocketAddr, now: int) returns (ghost order: seq<u32>)
      requires Valid()
      modifies this`cells, this`outbox
      ensures Valid()
      ensures ListEffect(addr, now, order)
    {
      if addr !in remotes {
        return [];
      }
      var cell := remotes[addr];
      var remoteChan := cells[cell].channelId;
      cells := cells[cell := cells[cell].(lastActive := now)];
      var packet;
      packet, order := BuildListReply(remoteChan, channels, cells);
      outbox := outbox + [Packet(addr, packet)];
    }

    /**
     * What `handle_chat` leaves behind: only the outbox changes. A sender
     * that is unknown or in no existing channel, or whose line is not UTF-8,
     * sends nothing; an unmasked one is told so; otherwise every member of
     * its channel gets the line, the sender marked as itself.
     */
    twostate predicate ChatEffect(addr: SocketAddr, data: seq<byte>)
      requires old(Valid())
      reads this
    {
      && cells == old(cells) && nextCell == old(nextCell) && remotes == old(remotes)
      && consoles == old(consoles) && channels == old(channels) && audioRb == old(audioRb)
      && if addr !in old(remotes) || old(cells)[old(remotes)[addr]].channelId !in old(channels) then outbox == old(outbox)
         else
           var r := old(cells)[old(remotes)[addr]];
           if r.mask.None? then outbox == old(outbox) + [Packet(addr, NOT_MASKED)]
           else if Decode(data).None? then outbox == old(outbox)
           else outbox == old(outbox) + ChatFanout(old(Peers(r.channelId)), addr, r.mask.value, data)
    }

    /** `handle_chat`: a masked sender's line goes to every member of its channel, itself included. */
    method HandleChat(addr: SocketAddr, data: seq<byte>)
      requires Valid()
      modifies this`outbox
      ensures Valid()
      ensures ChatEffect(addr, data)
    {
      if addr !in remotes {
        return;
      }
      var r := cells[remotes[addr]];
      if r.channelId !in channels {
        return;
      }
      if r.mask.None? {
        outbox := outbox + [Packet(addr, NOT_MASKED)];
        return;
      }
      if Decode(data).None? {
        return;
      }
      var out := SendChat(Peers(r.channelId), addr, r.mask.value, data);
      outbox := outbox + out;
    }

    /**
     * What `handle_ctrl` leaves behind: only the sender's status changes,
     * and only when it is known and the request parses.
     */
    twostate predicate CtrlEffect(addr: SocketAddr, data: seq<byte>)
      requires old(Valid())
      reads this
    {
      && nextCell == old(nextCell) && remotes == old(remotes) && consoles == old(consoles)
      && channels == old(channels) && outbox == old(outbox) && audioRb == old(audioRb)
      && if addr !in old(remotes) || parseControl(data).Err? then cells == old(cells)
         else
           var cell := old(remotes)[addr];
           cells == old(cells)[cell := old(cells)[cell].(status := ApplyControl(old(cells)[cell].status, parseControl(data).value))]
    }

    /** `handle_ctrl`: a parsed request sets one status flag of the sender; anything else changes nothing. */
    method HandleCtrl(addr: SocketAddr, data: seq<byte>)
      requires Valid()
      modifies this`cells
      ensures Valid()
      ensures CtrlEffect(addr, data)
    {
      if addr !in remotes {
        return;
      }
      var cell := remotes[addr];
      var parsed := parseControl(data);
      if parsed.Ok? {
        cells := cells[cell := cells[cell].(status := ApplyControl(cells[cell].status, parsed.value))];
      }
    }

    /**
     * `execute_command`: an unknown command, a missing nickname or a missing
     * admin right is an error; everything else is silent, since no handler is
     * run.
     */
    function ExecuteCommand(input: string, mask: Option<string>, isAdmin: bool): (r: Commands.CommandResult)
      reads commandSystem
      ensures !r.Success?
      ensures commandSystem.ParseCommand(input).None? <==> r == Commands.Error(UNKNOWN_COMMAND)
      ensures r.Silent? <==>
        commandSystem.ParseCommand(input).Some?
        && !(commandSystem.ParseCommand(input).value.0.requiresAuth && mask.None?)
        && !(commandSystem.ParseCommand(input).value.0.adminOnly && !isAdmin)
    {
      match commandSystem.ParseCommand(input)
      case None => Commands.Error(UNKNOWN_COMMAND)
      case Some(parsed) =>
        if parsed.0.requiresAuth && mask.None? then Commands.Error(NEEDS_NICK)
        else if parsed.0.adminOnly && !isAdmin then Commands.Error(NOT_PERMITTED)
        else Commands.Silent
    }

    /**
     * What `handle_cmd` leaves behind: only the outbox changes. A line that
     * is not UTF-8 or comes from an unknown sender is dropped; otherwise the
     * reply to the command, if it has one, goes back to the sender.
     */
    twostate predicate CmdEffect(addr: SocketAddr, data: seq<byte>)
      requires old(Valid())
      reads this
    {
      && cells == old(cells) && nextCell == old(nextCell) && remotes == old(remotes)
      && consoles == old(consoles) && channels == old(channels) && audioRb == old(audioRb)
      && if Decode(data).None? || addr !in old(remotes) then outbox == old(outbox)
         else
           var reply := CommandReply(old(ExecuteCommand(Decode(data).value, cells[remotes[addr]].mask, false)));
           outbox == old(outbox) + (if reply.Some? then [Packet(addr, reply.value)] else [])
    }

    /** `handle_cmd`: a UTF-8 command line from a known remote, run without admin rights; the result goes back to it. */
    method HandleCmd(addr: SocketAddr, data: seq<byte>)
      requires Valid()
      modifies this`outbox
      ensures CmdEffect(addr, data)
    {
      var input := Decode(data);
      if input.None? || addr !in remotes {
        return;
      }
      var reply := CommandReply(ExecuteCommand(input.value, cells[remotes[addr]].mask, false));
      if reply.Some? {
        outbox := outbox + [Packet(addr, reply.value)];
      }
    }

    /**
     * What `handle_sync_commands` leaves behind: only the outbox changes; the
     * sender gets the commands a non-admin may run, in the map's iteration
     * `order`.
     */
    twostate predicate SyncEffect(addr: SocketAddr, order: seq<string>)
      reads this
    {
      && cells == old(cells) && nextCell == old(nextCell) && remotes == old(remotes)
      && consoles == old(consoles) && channels == old(channels) && audioRb == old(audioRb)
      && IsEnumeration(order, old(commandSystem.commands.Keys))
      && outbox == old(outbox) + [Packet(addr, SyncPacket(old(commandSystem.CommandsForUser(false, order))))]
    }

    /** `handle_sync_commands`: the catalogue of commands a non-admin may run. */
    method HandleSyncCommands(addr: SocketAddr) returns (ghost order: seq<string>)
      modifies this`outbox
      ensures SyncEffect(addr, order)
    {
      var keys := Enumerate(commandSystem.commands.Keys);
      order := keys;
      var available := commandSystem.CommandsForUser(false, keys);
      var packet := BuildSyncPacket(available);
      outbox := outbox + [Packet(addr, packet)];
    }

    /** `handle_bad`: a bad-packet notice to the sender. */
    method HandleBad(addr: SocketAddr)
      modifies this`outbox
      ensures outbox == old(outbox) + [BadPacketNotice(addr)]
    {
      outbox := outbox + [BadPacketNotice(addr)];
    }

    /**
     * What `register_console` leaves behind: bytes that are not UTF-8 change
     * nothing, the password logs the sender in as a console active at `now`,
     * and any other text draws a bad-packet notice.
     */
    twostate predicate RegisterEffect(addr: SocketAddr, data: seq<byte>, now: int)
      reads this
    {
      && cells == old(cells) && nextCell == old(nextCell) && remotes == old(remotes)
      && channels == old(channels) && audioRb == old(audioRb)
      && if Decode(data).None? then consoles == old(consoles) && outbox == old(outbox)
         else if Decode(data).value == PASSWORD then consoles == old(consoles)[addr := now] && outbox == old(outbox)
         else consoles == old(consoles) && outbox == old(outbox) + [BadPacketNotice(addr)]
    }

    /** `register_console`: the right password logs the sender in as a console; a wrong one draws a bad-packet notice. */
    method RegisterConsole(addr: SocketAddr, data: seq<byte>, now: int)
      modifies this`consoles, this`outbox
      ensures RegisterEffect(addr, data, now)
    {
      var password := Decode(data);
      if password.None? {
        return;
      }
      if password.value == PASSWORD {
        consoles := consoles[addr := now];
      } else {
        HandleBad(addr);
      }
    }

    /**
     * What `handle_console_command` leaves behind: only the channel table and
     * the outbox change. A line that is not UTF-8 is dropped, a blank one
     * draws the empty-command reply, and any other runs the command its
     * first word names, whose reply text goes back to the console.
     */
    twostate predicate ConsoleCommandEffect(addr: SocketAddr, data: seq<byte>)
      reads this
    {
      && cells == old(cells) && nextCell == old(nextCell) && remotes == old(remotes)
      && consoles == old(consoles) && audioRb == old(audioRb)
      && if Decode(data).None? then channels == old(channels) && outbox == old(outbox)
         else
           var parts := SplitWhitespace(Decode(data).value);
           if parts == [] then
             channels == old(channels) && outbox == old(outbox) + [Packet(addr, Encode(EMPTY_CONSOLE_REPLY))]
           else
             exists reply :: (
               && ConsoleCmd.CommandPost(parts[0], parts, old(channels), config, reply, channels)
               && outbox == old(outbox) + [Packet(addr, Encode(reply))])
    }

    /** `handle_console_command`: run the console line and send the reply text back. */
    method HandleConsoleCommand(addr: SocketAddr, data: seq<byte>)
      requires Valid()
      modifies this`channels, this`outbox
      ensures Valid()
      ensures ConsoleCommandEffect(addr, data)
      ensures 1 in old(channels) ==> 1 in channels
    {
      var req := Decode(data);
      if req.None? {
        return;
      }
      var parts := SplitWhitespace(req.value);
      var reply: string;
      if parts != [] {
        reply := RunConsoleCommand(parts);
      } else {
        reply := EMPTY_CONSOLE_REPLY;
      }
      outbox := outbox + [Packet(addr, Encode(reply))];
    }

    /** Runs a console command line on the channel table; the members of a channel are kept or emptied, never invented. */
    method RunConsoleCommand(parts: seq<string>) returns (reply: string)
      requires Valid() && parts != []
      modifies this`channels
      ensures Valid()
      ensures ConsoleCmd.CommandPost(parts[0], parts, old(channels), config, reply, channels)
      ensures 1 in old(channels) ==> 1 in channels
      ensures forall id :: id in channels ==>
        channels[id].members == [] || (id in old(channels) && channels[id].members == old(channels)[id].members)
    {
      var updated;
      reply, updated := ConsoleCmd.HandleCommand(parts[0], parts, channels, config);
      MembersKeptKeepsTables(remotes, cells, nextCell, channels, updated);
      channels := updated;
    }

    /** `handle_console_eof`: the console logs out. */
    method HandleConsoleEof(addr: SocketAddr)
      modifies this`consoles
      ensures consoles == old(consoles) - {addr}
    {
      consoles := consoles - {addr};
    }

    /**
     * What `handle_console` leaves behind: a command runs as
     * `handle_console_command` does, a logout removes the console, and a
     * keepalive or an unknown tag changes nothing.
     */
    twostate predicate ConsoleEffect(addr: SocketAddr, data: seq<byte>)
      requires |data| >= 1
      reads this
    {
      match ConsolePacketTypeFrom(data[0])
      case Ok(ConsoleCmd) => ConsoleCommandEffect(addr, data[1..])
      case Ok(ConsoleEof) => TablesKept() && audioRb == old(audioRb) && consoles == old(consoles) - {addr}
      case _ => TablesKept() && audioRb == old(audioRb) && consoles == old(consoles)
    }

    /** `handle_console`: a console's packet is a command, a logout or a keepalive (which refreshes nothing). */
    method HandleConsole(addr: SocketAddr, data: seq<byte>)
      requires Valid() && |data| >= 1
      modifies this`channels, this`outbox, this`consoles
      ensures Valid()
      ensures ConsoleEffect(addr, data)
    {
      match ConsolePacketTypeFrom(data[0])
      case Ok(ConsoleCmd) => HandleConsoleCommand(addr, data[1..]);
      case Ok(ConsoleEof) => HandleConsoleEof(addr);
      case Ok(Keepalive) =>
      case Err(_) =>
    }

    /**
     * `handle_packet`: empty data is ignored, a logged-in console's packet
     * goes to the console handler whatever its tag, anything else is routed
     * by its client tag.
     */
    method HandlePacket(addr: SocketAddr, data: seq<byte>, now: int, clock: string)
      requires Valid()
      modifies this`cells, this`nextCell, this`remotes, this`channels, this`outbox, this`consoles, this`audioRb
      ensures Valid()
      ensures data == [] ==> unchanged(this)
      ensures data != [] && addr in old(consoles) ==>
        remotes == old(remotes) && cells == old(cells) && audioRb == old(audioRb)
      ensures data != [] && addr !in old(consoles) && !IsClientTag(data[0]) ==> unchanged(this)
      ensures data != [] && addr in old(consoles) ==> ConsoleEffect(addr, data)
      ensures data != [] && addr !in old(consoles) ==>
        match ClientPacketTypeFrom(data[0])
        case Ok(Join) => JoinEffect(addr, data[1..], now, clock)
        case Ok(Audio) => AudioEffect(addr, data[1..], now)
        case Ok(Eof) => EofEffect(addr)
        case Ok(Mask) => MaskEffect(addr, data[1..])
        case Ok(List) => exists order :: ListEffect(addr, now, order)
        case Ok(Chat) => ChatEffect(addr, data[1..])
        case Ok(Ctrl) => CtrlEffect(addr, data[1..])
        case Ok(SyncCommands) => exists order :: SyncEffect(addr, order)
        case Ok(Cmd) => CmdEffect(addr, data[1..])
        case Ok(RegisterConsole) => RegisterEffect(addr, data[1..], now)
        case _ => TablesKept() && consoles == old(consoles) && audioRb == old(audioRb)
    {
      if data == [] {
        return;
      }
      if addr in consoles {
        HandleConsole(addr, data);
        return;
      }
      match ClientPacketTypeFrom(data[0])
      case Ok(Join) => HandleJoin(addr, data[1..], now, clock);
      case Ok(Audio) => HandleAudio(addr, data[1..], now);
      case Ok(Eof) => HandleEof(addr);
      case Ok(Mask) => HandleMask(addr, data[1..]);
      case Ok(List) =>
        ghost var order := HandleList(addr, now);
        assert ListEffect(addr, now, order);
      case Ok(Chat) => HandleChat(addr, data[1..]);
      case Ok(Ctrl) => HandleCtrl(addr, data[1..]);
      case Ok(SyncCommands) =>
        ghost var order := HandleSyncCommands(addr);
        assert SyncEffect(addr, order);
      case Ok(Cmd) => HandleCmd(addr, data[1..]);
      case Ok(RegisterConsole) => RegisterConsole(addr, data[1..], now);
      case _ =>
    }

    /** Remotes silent for longer than the timeout. */
    function ExpiredRemotes(now: int): set<SocketAddr>
      reads this
      requires Valid()
    {
      set a | a in remotes && Expired(Since(now, cells[remotes[a]].lastActive), config.timeoutSecs)
    }

    /** The console half of `cleanup`: consoles whose `last_active.duration_since(now)` exceeds the timeout are dropped. */
    method ExpireConsoles(now: int)
      modifies this`consoles
      ensures consoles == map a | a in old(consoles) && !Expired(Since(old(consoles)[a], now), config.timeoutSecs) :: old(consoles)[a]
    {
      consoles := map a | a in consoles && !Expired(Since(consoles[a], now), config.timeoutSecs) :: consoles[a];
    }

    /** The remote half of `cleanup`: every remote silent for longer than the timeout leaves its channel and the registry. */
    method ExpireIdle(now: int) returns (ghost order: seq<SocketAddr>)
      requires Valid()
      modifies this`remotes, this`channels, this`outbox
      ensures Valid()
      ensures remotes == map a | a in old(remotes) && a !in old(ExpiredRemotes(now)) :: old(remotes)[a]
      ensures IsEnumeration(order, old(remotes).Keys)
      ensures var r := ExpireAll(order, old(ExpiredRemotes(now)), old(remotes), cells, old(channels));
        channels == r.0 && outbox == old(outbox) + r.1
    {
      var expired := ExpiredRemotes(now);
      var keys := Enumerate(remotes.Keys);
      order := keys;
      var chans, out := ExpireRemotes(keys, now, config.timeoutSecs, remotes, cells, channels, expired);
      remotes := map a | a in remotes && a !in expired :: remotes[a];
      channels := chans;
      outbox := outbox + out;
    }

    /** `cleanup`: idle consoles and idle remotes are dropped. */
    method Cleanup(now: int) returns (ghost order: seq<SocketAddr>)
      requires Valid()
      modifies this`consoles, this`remotes, this`channels, this`outbox
      ensures Valid()
      ensures consoles == map a | a in old(consoles) && !Expired(Since(old(consoles)[a], now), config.timeoutSecs) :: old(consoles)[a]
      ensures remotes == map a | a in old(remotes) && a !in old(ExpiredRemotes(now)) :: old(remotes)[a]
      ensures IsEnumeration(order, old(remotes).Keys)
      ensures var r := ExpireAll(order, old(ExpiredRemotes(now)), old(remotes), cells, old(channels));
        channels == r.0 && outbox == old(outbox) + r.1
    {
      ExpireConsoles(now);
      order := ExpireIdle(now);
    }
  }

  /** `cleanup`'s `retain` over the remotes: each expired one leaves in turn. */
  method ExpireRemotes(keys: seq<SocketAddr>, now: int, timeoutSecs: u64, remotes: map<SocketAddr, Cell>,
                       cells: map<Cell, Remote>, channels: map<u32, Channel>, ghost expired: set<SocketAddr>)
    returns (chans: map<u32, Channel>, out: seq<Outbound>)
    requires forall i :: 0 <= i < |keys| ==> keys[i] in remotes && remotes[keys[i]] in cells
    requires AllMembersIn(channels, cells)
    requires forall a :: a in remotes && remotes[a] in cells ==>
      (a in expired <==> Expired(Since(now, cells[remotes[a]].lastActive), timeoutSecs))
    ensures (chans, out) == ExpireAll(keys, expired, remotes, cells, channels)
  {
    chans, out := channels, [];
    for i := 0 to |keys|
      invariant (chans, out) == ExpireAll(keys[..i], expired, remotes, cells, channels)
    {
      PrefixStep(keys, i);
      ExpireAllStep(keys[..i + 1], expired, remotes, cells, channels);
      var a := keys[i];
      var cell := remotes[a];
      var rem := cells[cell];
      if Expired(Since(now, rem.lastActive), timeoutSecs) {
        ghost var step := Leave(a, cell, cells, chans);
        ghost var before := out;
        if rem.channelId in chans {
          var c := chans[rem.channelId];
          if rem.mask.Some? {
            var notices := SendAll(Addrs(c.members, cells), LeavePacket(rem.mask.value));
            out := out + notices;
          }
          chans := chans[rem.channelId := RemoveRemote(c, a, cells)];
        }
        assert out == before + step.1;
      }
    }
    assert keys[..|keys|] == keys;
  }
}
