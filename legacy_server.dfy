/**
 * The first relay (src/server.rs): a registry of remotes and unnamed
 * channels with four packet types (join, audio, end of stream, mask), a
 * 1024-frame audio queue and a fixed five-second timeout. Unlike the later
 * server, a join leaves the previous channel first, so every remote is listed
 * exactly once, in the channel it names. As written, `handle_join` keeps the
 * joiner's record locked while it leaves that channel, and leaving locks every
 * member's record again: a remote that joins a second time hangs the relay.
 * `HandleJoinAsWritten` models that; `HandleJoin`, which every other member
 * uses, releases the record first, as `handle_eof` does.
 *
 * A channel member is written as the address of its shared record: the
 * invariant below proves that every listed address is registered and that the
 * registry holds one record per address, so the record a channel shares is
 * always `remotes[addr]`.
 */
module LegacyServer {
  import opened Wrappers
  import opened Bytes
  import opened Net
  import opened Utf8
  import opened Iteration

  /** `RB_CAP`: frames the audio ring buffer holds. */
  const RB_CAP: nat := 1024
  /** The cleanup timeout, `Duration::from_secs(5)`, in milliseconds. */
  const TIMEOUT_MS: nat := 5000

  /** A remote's bookkeeping; its Opus codec state and jitter buffer are not part of this model. */
  datatype Remote = Remote(lastActive: int, channelId: u32, addr: SocketAddr, mask: Option<string>)

  /** `Remote::new`: channel 0, no mask, active now. */
  function NewRemote(addr: SocketAddr, now: int): (r: Remote)
    ensures r.addr == addr && r.channelId == 0 && r.mask.None? && r.lastActive == now
  {
    Remote(now, 0, addr, None)
  }

  /** A channel: its members and the addresses holding a mix buffer and a filter state. */
  datatype Channel = Channel(members: seq<SocketAddr>, buffers: set<SocketAddr>, filterStates: set<SocketAddr>)

  /** `Channel::new`. */
  const EMPTY_CHANNEL := Channel([], {}, {})

  predicate Distinct(ms: seq<SocketAddr>) {
    forall i, j :: 0 <= i < j < |ms| ==> ms[i] != ms[j]
  }

  /** Buffers and filter states are held for exactly the members. */
  predicate Buffered(c: Channel) {
    c.buffers == (set a | a in c.members) && c.filterStates == c.buffers
  }

  /** `Channel::add_remote`: append the record, give its address a buffer and a filter state. */
  function AddRemote(c: Channel, addr: SocketAddr): (r: Channel)
    ensures r.members == c.members + [addr]
    ensures r.buffers == c.buffers + {addr} && r.filterStates == c.filterStates + {addr}
    ensures Buffered(c) ==> Buffered(r)
    ensures Distinct(c.members) && addr !in c.members ==> Distinct(r.members)
  {
    Channel(c.members + [addr], c.buffers + {addr}, c.filterStates + {addr})
  }

  /** `Vec::retain` keeping the members whose address differs from `addr`. */
  function Retain(ms: seq<SocketAddr>, addr: SocketAddr): (r: seq<SocketAddr>)
    ensures forall a :: a in r <==> a in ms && a != addr
  {
    if ms == [] then []
    else if ms[0] != addr then [ms[0]] + Retain(ms[1..], addr)
    else Retain(ms[1..], addr)
  }

  /** Filtering keeps distinct members distinct. */
  lemma {:induction false} RetainDistinct(ms: seq<SocketAddr>, addr: SocketAddr)
    requires Distinct(ms)
    ensures Distinct(Retain(ms, addr))
  {
    if ms != [] {
      RetainDistinct(ms[1..], addr);
      if ms[0] != addr {
        var rest := Retain(ms[1..], addr);
        var r := [ms[0]] + rest;
        forall i, j | 0 <= i < j < |r| ensures r[i] != r[j] {
          if i > 0 {
            assert r[i] == rest[i - 1] && r[j] == rest[j - 1];
          } else {
            assert r[j] in rest;
          }
        }
      }
    }
  }

  /** `Channel::remove_remote`: drop every member with the address, and its buffer and filter state. */
  function RemoveRemote(c: Channel, addr: SocketAddr): (r: Channel)
    ensures forall a :: a in r.members <==> a in c.members && a != addr
    ensures r.buffers == c.buffers - {addr} && r.filterStates == c.filterStates - {addr}
    ensures Buffered(c) ==> Buffered(r)
  {
    Channel(Retain(c.members, addr), c.buffers - {addr}, c.filterStates - {addr})
  }

  /** Every member of channel `id` is registered and names `id`. */
  predicate Listed(c: Channel, id: u32, remotes: map<SocketAddr, Remote>) {
    forall a :: a in c.members ==> a in remotes && remotes[a].channelId == id
  }

  /** A channel is well formed: listed, without duplicates, buffered for exactly its members. */
  predicate ChannelValid(c: Channel, id: u32, remotes: map<SocketAddr, Remote>) {
    Listed(c, id, remotes) && Distinct(c.members) && Buffered(c)
  }

  /**
   * The registry invariant: each record carries its own address, and every
   * channel is well formed with respect to the registry.
   */
  predicate TablesValid(remotes: map<SocketAddr, Remote>, channels: map<u32, Channel>) {
    && (forall a :: a in remotes ==> remotes[a].addr == a)
    && (forall id :: id in channels ==> ChannelValid(channels[id], id, remotes))
  }

  /** The channel table after `addr`, previously in `oldId`, joins `id`. */
  function JoinChannels(channels: map<u32, Channel>, addr: SocketAddr, oldId: u32, id: u32): (r: map<u32, Channel>)
    ensures r.Keys == channels.Keys + {id}
  {
    var left := if oldId in channels then channels[oldId := RemoveRemote(channels[oldId], addr)] else channels;
    var target := if id in left then left[id] else EMPTY_CHANNEL;
    left[id := AddRemote(target, addr)]
  }

  /** The record `handle_join` leaves behind: the existing one, or a fresh one, now naming `id`. */
  function Joined(remotes: map<SocketAddr, Remote>, addr: SocketAddr, now: int, id: u32): (r: Remote)
    ensures r.channelId == id && r.addr == (if addr in remotes then remotes[addr].addr else addr)
    ensures addr in remotes ==> r == remotes[addr].(channelId := id)
  {
    var before := if addr in remotes then remotes[addr] else NewRemote(addr, now);
    before.(channelId := id)
  }

  /** The channel a remote was in before joining: 0 for a new one. */
  function FormerChannel(remotes: map<SocketAddr, Remote>, addr: SocketAddr): u32 {
    if addr in remotes then remotes[addr].channelId else 0
  }

  /** A channel that did not list the joining address stays well formed when its record changes. */
  lemma OtherChannelAfterJoin(c: Channel, k: u32, remotes: map<SocketAddr, Remote>, addr: SocketAddr, r: Remote)
    requires ChannelValid(c, k, remotes) && addr !in c.members
    ensures ChannelValid(c, k, remotes[addr := r])
  {
  }

  /** `handle_join` keeps the invariant. */
  lemma JoinKeepsTables(remotes: map<SocketAddr, Remote>, channels: map<u32, Channel>, addr: SocketAddr, now: int, id: u32)
    requires TablesValid(remotes, channels)
    ensures TablesValid(remotes[addr := Joined(remotes, addr, now, id)],
                        JoinChannels(channels, addr, FormerChannel(remotes, addr), id))
  {
    var oldId := FormerChannel(remotes, addr);
    var remotes' := remotes[addr := Joined(remotes, addr, now, id)];
    var left := if oldId in channels then channels[oldId := RemoveRemote(channels[oldId], addr)] else channels;
    forall k | k in left ensures ChannelValid(left[k], k, remotes') && addr !in left[k].members {
      if k == oldId {
        RetainDistinct(channels[k].members, addr);
      }
      assert ChannelValid(left[k], k, remotes);
      OtherChannelAfterJoin(left[k], k, remotes, addr, Joined(remotes, addr, now, id));
    }
    var target := if id in left then left[id] else EMPTY_CHANNEL;
    assert ChannelValid(AddRemote(target, addr), id, remotes');
  }

  /** After a join the address is the last member of channel `id`, listed once, and in no other channel. */
  lemma JoinPlacesOnce(remotes: map<SocketAddr, Remote>, channels: map<u32, Channel>, addr: SocketAddr, now: int, id: u32)
    requires TablesValid(remotes, channels)
    ensures var r := JoinChannels(channels, addr, FormerChannel(remotes, addr), id);
      && r[id].members[|r[id].members| - 1] == addr
      && multiset(r[id].members)[addr] == 1
      && (forall k :: k in r && k != id ==> addr !in r[k].members)
  {
    var remotes' := remotes[addr := Joined(remotes, addr, now, id)];
    var r := JoinChannels(channels, addr, FormerChannel(remotes, addr), id);
    JoinKeepsTables(remotes, channels, addr, now, id);
    var ms := r[id].members;
    var init := ms[..|ms| - 1];
    assert ms == init + [addr];
    assert multiset(ms) == multiset(init) + multiset{addr};
    forall k | k in r && k != id ensures addr !in r[k].members {
      assert Listed(r[k], k, remotes');
    }
  }

  /** The tables after `addr` is dropped: it leaves the channel its record names, then the registry. */
  function Drop(addr: SocketAddr, remotes: map<SocketAddr, Remote>, channels: map<u32, Channel>)
    : (r: (map<SocketAddr, Remote>, map<u32, Channel>))
    ensures r.0 == remotes - {addr} && r.1.Keys == channels.Keys
  {
    if addr !in remotes then (remotes, channels)
    else
      var id := remotes[addr].channelId;
      var chans := if id in channels then channels[id := RemoveRemote(channels[id], addr)] else channels;
      (remotes - {addr}, chans)
  }

  /** Dropping keeps the invariant; each channel keeps exactly its members other than `addr`. */
  lemma DropKeepsTables(addr: SocketAddr, remotes: map<SocketAddr, Remote>, channels: map<u32, Channel>)
    requires TablesValid(remotes, channels)
    ensures var r := Drop(addr, remotes, channels);
      && TablesValid(r.0, r.1)
      && (forall k, a :: k in channels ==> (a in r.1[k].members <==> a in channels[k].members && a != addr))
  {
    var r := Drop(addr, remotes, channels);
    if addr in remotes {
      var id := remotes[addr].channelId;
      forall k | k in channels
        ensures ChannelValid(r.1[k], k, r.0)
        ensures forall a :: a in r.1[k].members <==> a in channels[k].members && a != addr
      {
        if k == id {
          RetainDistinct(channels[k].members, addr);
        } else {
          assert ChannelValid(channels[k], k, remotes);
        }
      }
    }
  }

  /** Under the invariant no channel lists an address that is not registered. */
  lemma NoStaleMembers(remotes: map<SocketAddr, Remote>, channels: map<u32, Channel>, a: SocketAddr)
    requires TablesValid(remotes, channels) && a !in remotes
    ensures forall k :: k in channels ==> a !in channels[k].members
  {
    forall k | k in channels ensures a !in channels[k].members {
      assert Listed(channels[k], k, remotes);
    }
  }

  /** A change to a record that keeps its channel keeps the invariant. */
  lemma TouchKeepsTables(remotes: map<SocketAddr, Remote>, channels: map<u32, Channel>, addr: SocketAddr, r: Remote)
    requires TablesValid(remotes, channels) && addr in remotes
    requires r.addr == addr && r.channelId == remotes[addr].channelId
    ensures TablesValid(remotes[addr := r], channels)
  {
    forall k | k in channels ensures ChannelValid(channels[k], k, remotes[addr := r]) {
      assert ChannelValid(channels[k], k, remotes);
    }
  }

  /** Every registered remote is listed in the channel it names, which exists. */
  predicate Placed(remotes: map<SocketAddr, Remote>, channels: map<u32, Channel>) {
    forall a :: a in remotes ==> remotes[a].channelId in channels && a in channels[remotes[a].channelId].members
  }

  /** A join places the joining remote and leaves every other remote where it was. */
  lemma JoinKeepsPlaced(remotes: map<SocketAddr, Remote>, channels: map<u32, Channel>, addr: SocketAddr, now: int, id: u32)
    requires TablesValid(remotes, channels) && Placed(remotes, channels)
    ensures Placed(remotes[addr := Joined(remotes, addr, now, id)],
                   JoinChannels(channels, addr, FormerChannel(remotes, addr), id))
  {
    var remotes' := remotes[addr := Joined(remotes, addr, now, id)];
    var r := JoinChannels(channels, addr, FormerChannel(remotes, addr), id);
    forall a | a in remotes' ensures remotes'[a].channelId in r && a in r[remotes'[a].channelId].members {
      if a != addr {
        var k := remotes[a].channelId;
        assert a in channels[k].members;
      }
    }
  }

  /** Dropping a remote leaves every other remote where it was. */
  lemma DropKeepsPlaced(addr: SocketAddr, remotes: map<SocketAddr, Remote>, channels: map<u32, Channel>)
    requires TablesValid(remotes, channels) && Placed(remotes, channels)
    ensures var r := Drop(addr, remotes, channels); Placed(r.0, r.1)
  {
    DropKeepsTables(addr, remotes, channels);
  }

  /**
   * A registered remote is listed in the channel it names, and an address
   * that is not registered is listed nowhere: the former channel holds the
   * joiner's own record exactly when the joiner was already registered.
   */
  lemma RejoinFindsOwnRecord(remotes: map<SocketAddr, Remote>, channels: map<u32, Channel>, addr: SocketAddr)
    requires TablesValid(remotes, channels) && Placed(remotes, channels)
    ensures (FormerChannel(remotes, addr) in channels && addr in channels[FormerChannel(remotes, addr)].members)
            <==> addr in remotes
  {
    if addr !in remotes {
      NoStaleMembers(remotes, channels, addr);
    }
  }

  /** More than five seconds since the remote was last active. */
  predicate Idle(r: Remote, now: int) {
    now - r.lastActive > TIMEOUT_MS
  }

  class LegacyState {
    var remotes: map<SocketAddr, Remote>
    var channels: map<u32, Channel>
    var audioRb: seq<(SocketAddr, seq<byte>)>

    predicate Valid()
      reads this
    {
      TablesValid(remotes, channels) && Placed(remotes, channels) && |audioRb| <= RB_CAP
    }

    /** `ServerState::new`, without binding the socket: no remotes, no channels. */
    constructor ()
      ensures Valid()
      ensures remotes == map[] && channels == map[] && audioRb == []
    {
      remotes := map[];
      channels := map[];
      audioRb := [];
    }

    /**
     * What a join leaves behind: under four bytes nothing; otherwise the
     * sender's record (a fresh one if it was new) names channel `id`, and the
     * sender has left its former channel and joined `id`.
     */
    twostate predicate JoinEffect(addr: SocketAddr, data: seq<byte>, now: int)
      reads this
    {
      && audioRb == old(audioRb)
      && if |data| < 4 then remotes == old(remotes) && channels == old(channels)
         else
           var id := FromBE32(data[..4]);
           && remotes == old(remotes)[addr := Joined(old(remotes), addr, now, id)]
           && channels == JoinChannels(old(channels), addr, FormerChannel(old(remotes), addr), id)
    }

    /**
     * `handle_join` with the record's lock released before the former channel
     * is left: register the sender if new, leave whatever channel it is in,
     * join the channel named by four bytes.
     */
    method HandleJoin(addr: SocketAddr, data: seq<byte>, now: int)
      requires Valid()
      modifies this`remotes, this`channels
      ensures Valid()
      ensures JoinEffect(addr, data, now)
    {
      if |data| < 4 {
        return;
      }
      var id := FromBE32(data[..4]);
      var former := FormerChannel(remotes, addr);
      var chans := channels;
      if former in chans {
        chans := chans[former := RemoveRemote(chans[former], addr)];
      }
      var target := if id in chans then chans[id] else EMPTY_CHANNEL;
      chans := chans[id := AddRemote(target, addr)];
      var updated := remotes[addr := Joined(remotes, addr, now, id)];
      JoinKeepsTables(remotes, channels, addr, now, id);
      JoinKeepsPlaced(remotes, channels, addr, now, id);
      remotes, channels := updated, chans;
    }

    /**
     * `handle_join` as written: the joiner's record stays locked while
     * `remove_remote` locks every member of the former channel, so finding
     * the record itself there never returns. That happens exactly when the
     * sender was already registered; otherwise the join completes.
     */
    method HandleJoinAsWritten(addr: SocketAddr, data: seq<byte>, now: int) returns (hung: bool)
      requires Valid()
      modifies this`remotes, this`channels
      ensures Valid()
      ensures hung <==> |data| >= 4 && addr in old(remotes)
      ensures hung ==> remotes == old(remotes) && channels == old(channels)
      ensures !hung ==> JoinEffect(addr, data, now)
    {
      if |data| < 4 {
        return false;
      }
      var former := FormerChannel(remotes, addr);
      RejoinFindsOwnRecord(remotes, channels, addr);
      if former in channels && addr in channels[former].members {
        return true;
      }
      HandleJoin(addr, data, now);
      hung := false;
    }

    /**
     * What `handle_audio` leaves behind: for an unknown sender nothing;
     * otherwise its activity time is `now` and its frame is queued unless
     * the ring buffer is full.
     */
    twostate predicate AudioEffect(addr: SocketAddr, data: seq<byte>, now: int)
      reads this
    {
      && channels == old(channels)
      && if addr !in old(remotes) then remotes == old(remotes) && audioRb == old(audioRb)
         else
           && remotes == old(remotes)[addr := old(remotes)[addr].(lastActive := now)]
           && audioRb == (if |old(audioRb)| < RB_CAP then old(audioRb) + [(addr, data)] else old(audioRb))
    }

    /** `handle_audio`: refresh the sender's activity and queue its frame unless the ring buffer is full. */
    method HandleAudio(addr: SocketAddr, data: seq<byte>, now: int)
      requires Valid()
      modifies this`remotes, this`audioRb
      ensures Valid()
      ensures AudioEffect(addr, data, now)
    {
      if addr !in remotes {
        return;
      }
      TouchKeepsTables(remotes, channels, addr, remotes[addr].(lastActive := now));
      remotes := remotes[addr := remotes[addr].(lastActive := now)];
      if |audioRb| >= RB_CAP {
        return;
      }
      audioRb := audioRb + [(addr, data)];
    }

    /** `handle_eof`: the sender leaves its channel and the registry; no channel lists it afterwards. */
    method HandleEof(addr: SocketAddr)
      requires Valid()
      modifies this`remotes, this`channels
      ensures Valid()
      ensures (remotes, channels) == Drop(addr, old(remotes), old(channels))
      ensures forall k :: k in channels ==> addr !in channels[k].members
    {
      DropKeepsTables(addr, remotes, channels);
      DropKeepsPlaced(addr, remotes, channels);
      if addr in remotes {
        var id := remotes[addr].channelId;
        if id in channels {
          channels := channels[id := RemoveRemote(channels[id], addr)];
        }
        remotes := remotes - {addr};
      }
      NoStaleMembers(remotes, channels, addr);
    }

    /** What `handle_mask` leaves behind: a known sender's UTF-8 name, the empty one included, is its mask. */
    twostate predicate MaskEffect(addr: SocketAddr, data: seq<byte>)
      reads this
    {
      && channels == old(channels) && audioRb == old(audioRb)
      && if addr !in old(remotes) || Decode(data).None? then remotes == old(remotes)
         else remotes == old(remotes)[addr := old(remotes)[addr].(mask := Decode(data))]
    }

    /** `handle_mask`: any UTF-8 name, the empty one included, becomes the known sender's mask. */
    method HandleMask(addr: SocketAddr, data: seq<byte>)
      requires Valid()
      modifies this`remotes
      ensures Valid()
      ensures MaskEffect(addr, data)
    {
      if addr !in remotes {
        return;
      }
      var mask := Decode(data);
      if mask.None? {
        return;
      }
      TouchKeepsTables(remotes, channels, addr, remotes[addr].(mask := mask));
      remotes := remotes[addr := remotes[addr].(mask := mask)];
    }

    /**
     * `handle_packet`: empty data is ignored; tags 0x01 to 0x04 go to join
     * (with the lock released first), audio, end of stream and mask, and
     * every other byte is dropped.
     */
    method HandlePacket(addr: SocketAddr, data: seq<byte>, now: int)
      requires Valid()
      modifies this`remotes, this`channels, this`audioRb
      ensures Valid()
      ensures data == [] || !(0x01 <= data[0] <= 0x04) ==>
        remotes == old(remotes) && channels == old(channels) && audioRb == old(audioRb)
      ensures data != [] && data[0] == 0x01 ==> JoinEffect(addr, data[1..], now)
      ensures data != [] && data[0] == 0x02 ==> AudioEffect(addr, data[1..], now)
      ensures data != [] && data[0] == 0x03 ==>
        (remotes, channels) == Drop(addr, old(remotes), old(channels)) && audioRb == old(audioRb)
      ensures data != [] && data[0] == 0x04 ==> MaskEffect(addr, data[1..])
    {
      if data == [] {
        return;
      }
      match data[0]
      case 0x01 => HandleJoin(addr, data[1..], now);
      case 0x02 => HandleAudio(addr, data[1..], now);
      case 0x03 => HandleEof(addr);
      case 0x04 => HandleMask(addr, data[1..]);
      case _ =>
    }

    /**
     * `cleanup`: every remote idle for more than five seconds leaves its
     * channel and the registry; each channel keeps exactly its other members.
     */
    method Cleanup(now: int)
      requires Valid()
      modifies this`remotes, this`channels
      ensures Valid()
      ensures forall a :: a in remotes <==> a in old(remotes) && !Idle(old(remotes)[a], now)
      ensures forall a :: a in remotes ==> remotes[a] == old(remotes)[a]
      ensures channels.Keys == old(channels).Keys
      ensures forall k, a :: k in channels ==>
        (a in channels[k].members <==> a in old(channels)[k].members && !Idle(old(remotes)[a], now))
    {
      var order := Enumerate(remotes.Keys);
      var rem, chans := SweepIdle(order, remotes, channels, now);
      remotes := rem;
      channels := chans;
    }
  }

  /** A remote joins channel 1 and then channel 2: as written, the second join hangs. */
  method RejoinHangs(addr: SocketAddr) returns (first: bool, second: bool)
    ensures !first && second
  {
    var relay := new LegacyState();
    first := relay.HandleJoinAsWritten(addr, [0, 0, 0, 1], 0);
    second := relay.HandleJoinAsWritten(addr, [0, 0, 0, 2], 1);
  }

  /** The same two joins with the lock released first: the remote ends up listed in channel 2 only. */
  method RejoinMoves(addr: SocketAddr) returns (channelId: u32, inFirst: bool, inSecond: bool)
    ensures channelId == 2 && !inFirst && inSecond
  {
    var relay := new LegacyState();
    relay.HandleJoin(addr, [0, 0, 0, 1], 0);
    relay.HandleJoin(addr, [0, 0, 0, 2], 1);
    channelId := relay.remotes[addr].channelId;
    inFirst := addr in relay.channels[1].members;
    inSecond := addr in relay.channels[2].members;
  }

  /**
   * What the cleanup loop has done once it has visited `done`: exactly the idle
   * remotes among them are gone, from the registry and from every channel.
   */
  ghost predicate Swept(remotes: map<SocketAddr, Remote>, channels: map<u32, Channel>, done: seq<SocketAddr>, now: int,
                  rem: map<SocketAddr, Remote>, chans: map<u32, Channel>)
  {
    && TablesValid(remotes, channels)
    && TablesValid(rem, chans) && Placed(rem, chans) && chans.Keys == channels.Keys
    && (forall a :: a in rem <==> a in remotes && !(a in done && Idle(remotes[a], now)))
    && (forall a :: a in rem ==> rem[a] == remotes[a])
    && (forall k, a :: k in chans ==>
          (a in chans[k].members <==> a in channels[k].members && !(a in done && Idle(remotes[a], now))))
  }

  /** Visiting one more unvisited remote, and dropping it when idle, extends the sweep. */
  lemma SweepStep(remotes: map<SocketAddr, Remote>, channels: map<u32, Channel>, done: seq<SocketAddr>, now: int,
                  rem: map<SocketAddr, Remote>, chans: map<u32, Channel>, a: SocketAddr)
    requires Swept(remotes, channels, done, now, rem, chans) && a in remotes && a !in done
    ensures Idle(remotes[a], now) ==> a in rem
    ensures var r := if Idle(remotes[a], now) then Drop(a, rem, chans) else (rem, chans);
      Swept(remotes, channels, done + [a], now, r.0, r.1)
  {
    if Idle(remotes[a], now) {
      var r := Drop(a, rem, chans);
      DropKeepsTables(a, rem, chans);
      DropKeepsPlaced(a, rem, chans);
      forall x | true
        ensures x in r.0 <==> x in remotes && !(x in done + [a] && Idle(remotes[x], now))
      {
      }
      forall k, x | k in r.1
        ensures x in r.1[k].members <==> x in channels[k].members && !(x in done + [a] && Idle(remotes[x], now))
      {
        assert x in r.1[k].members <==> x in chans[k].members && x != a;
      }
    }
  }

  /** The next key of an enumeration is a key not yet visited. */
  lemma NextKey<K>(order: seq<K>, keys: set<K>, n: nat)
    requires IsEnumeration(order, keys) && n < |order|
    ensures order[n] in keys && order[n] !in order[..n] && order[..n + 1] == order[..n] + [order[n]]
  {
    assert order[..n + 1] == order[..n] + [order[n]];
  }

  /** The loop of `cleanup`: visits the registry in `order` and drops each idle remote. */
  method SweepIdle(order: seq<SocketAddr>, remotes: map<SocketAddr, Remote>, channels: map<u32, Channel>, now: int)
    returns (rem: map<SocketAddr, Remote>, chans: map<u32, Channel>)
    requires TablesValid(remotes, channels) && Placed(remotes, channels) && IsEnumeration(order, remotes.Keys)
    ensures TablesValid(rem, chans) && Placed(rem, chans)
    ensures forall a :: a in rem <==> a in remotes && !Idle(remotes[a], now)
    ensures forall a :: a in rem ==> rem[a] == remotes[a]
    ensures chans.Keys == channels.Keys
    ensures forall k, a :: k in chans ==>
      (a in chans[k].members <==> a in channels[k].members && !Idle(remotes[a], now))
  {
    rem := remotes;
    chans := channels;
    for n := 0 to |order|
      invariant Swept(remotes, channels, order[..n], now, rem, chans)
    {
      var a := order[n];
      NextKey(order, remotes.Keys, n);
      SweepStep(remotes, channels, order[..n], now, rem, chans, a);
      if Idle(remotes[a], now) {
        var id := rem[a].channelId;
        if id in chans {
          chans := chans[id := RemoveRemote(chans[id], a)];
        }
        rem := rem - {a};
      }
    }
    assert order[..|order|] == order;
    SweptAll(remotes, channels, order, now, rem, chans);
  }

  /** A sweep that has visited every registered remote has dropped exactly the idle ones. */
  lemma SweptAll(remotes: map<SocketAddr, Remote>, channels: map<u32, Channel>, order: seq<SocketAddr>, now: int,
                 rem: map<SocketAddr, Remote>, chans: map<u32, Channel>)
    requires Swept(remotes, channels, order, now, rem, chans) && IsEnumeration(order, remotes.Keys)
    ensures forall a :: a in rem <==> a in remotes && !Idle(remotes[a], now)
    ensures forall k, a :: k in chans ==>
      (a in chans[k].members <==> a in channels[k].members && !Idle(remotes[a], now))
  {
    forall k, a | k in channels && a in channels[k].members ensures a in remotes {
      assert Listed(channels[k], k, remotes);
    }
  }
}
