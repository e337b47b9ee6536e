/**
 * The records the server keeps per connection and per channel
 * (voudp/src/server.rs): `ServerConfig`, `Remote` and `Channel`.
 *
 * A `Remote` is shared (`Arc<Mutex<Remote>>`) between the server's address
 * table and the member list of a channel. The model keeps every such record
 * in one table of cells numbered by allocation; the address table and the
 * member lists hold cell numbers, so both see the same record, and a cell
 * dropped from the address table can live on in a member list.
 */
module Registry {
  import opened Wrappers
  import opened Bytes
  import opened Net

  /** `ServerConfig`, without the floating-point audio-shaping settings. */
  datatype ServerConfig = ServerConfig(
    maxUsers: nat,
    shouldNormalize: bool,
    shouldCompress: bool,
    bindPort: u16,
    timeoutSecs: u64,
    throttleMillis: u64,
    sampleRate: u32,
    tickrate: u32)

  /** `ServerConfig::default()`. */
  function DefaultConfig(): ServerConfig {
    ServerConfig(1024, true, true, 0, 5, 1, 48000, 50)
  }

  /** `get_framesize`: the integer quotient of sample rate by tick rate. */
  function FrameSize(config: ServerConfig): (r: nat)
    requires config.tickrate != 0
    ensures r * config.tickrate <= config.sampleRate < (r + 1) * config.tickrate
  {
    config.sampleRate / config.tickrate
  }

  /** With the defaults a tick carries 960 samples per channel (20 ms at 48 kHz). */
  lemma DefaultFrameSize()
    ensures FrameSize(DefaultConfig()) == 960
  {
  }

  datatype RemoteStatus = RemoteStatus(deaf: bool, mute: bool)

  /** A connected client, without its codec state and jitter buffer. */
  datatype Remote = Remote(
    lastActive: int,
    channelId: u32,
    addr: SocketAddr,
    mask: Option<string>,
    status: RemoteStatus)

  /** `Remote::new`: channel 0, no mask, neither deaf nor muted. */
  function NewRemote(addr: SocketAddr, now: int): (r: Remote)
    ensures r.addr == addr && r.lastActive == now && r.channelId == 0
    ensures r.mask.None? && !r.status.deaf && !r.status.mute
  {
    Remote(now, 0, addr, None, RemoteStatus(false, false))
  }

  /** Number of a shared `Remote` record. */
  type Cell = nat

  /**
   * A channel: its members in join order and the addresses holding an audio
   * buffer and a filter state (the sample contents are not modelled).
   */
  datatype Channel = Channel(
    name: Option<string>,
    id: u32,
    members: seq<Cell>,
    buffers: set<SocketAddr>,
    filterStates: set<SocketAddr>)

  /** `Channel::new`. */
  function NewChannel(name: string, id: u32): (c: Channel)
    ensures c.name == Some(name) && c.id == id
    ensures c.members == [] && c.buffers == {} && c.filterStates == {}
  {
    Channel(Some(name), id, [], {}, {})
  }

  predicate MembersIn(c: Channel, cells: map<Cell, Remote>) {
    forall i :: 0 <= i < |c.members| ==> c.members[i] in cells
  }

  /** Every member has a buffer and a filter state under its address. */
  predicate Buffered(c: Channel, cells: map<Cell, Remote>) {
    && MembersIn(c, cells)
    && (forall i :: 0 <= i < |c.members| ==>
          cells[c.members[i]].addr in c.buffers && cells[c.members[i]].addr in c.filterStates)
  }

  /** `Channel::add_remote`: appended to the members, buffer and filter state created. */
  function AddRemote(c: Channel, cell: Cell, cells: map<Cell, Remote>): (r: Channel)
    requires cell in cells
  {
    var addr := cells[cell].addr;
    c.(members := c.members + [cell], buffers := c.buffers + {addr},
       filterStates := c.filterStates + {addr})
  }

  /** `Vec::retain` keeping the members whose address differs from `addr`. */
  function Retain(ms: seq<Cell>, addr: SocketAddr, cells: map<Cell, Remote>): (r: seq<Cell>)
    requires forall i :: 0 <= i < |ms| ==> ms[i] in cells
    ensures |r| <= |ms|
    ensures forall i :: 0 <= i < |r| ==> r[i] in ms && cells[r[i]].addr != addr
    ensures forall i :: 0 <= i < |ms| && cells[ms[i]].addr != addr ==> ms[i] in r
  {
    if ms == [] then []
    else (if cells[ms[0]].addr != addr then [ms[0]] else []) + Retain(ms[1..], addr, cells)
  }

  /** `Channel::remove_remote`: every member with that address, its buffer and its filter state go. */
  function RemoveRemote(c: Channel, addr: SocketAddr, cells: map<Cell, Remote>): (r: Channel)
    requires MembersIn(c, cells)
    ensures MembersIn(r, cells)
    ensures r.name == c.name && r.id == c.id
    ensures forall i :: 0 <= i < |r.members| ==> cells[r.members[i]].addr != addr
    ensures forall i :: 0 <= i < |c.members| && cells[c.members[i]].addr != addr ==> c.members[i] in r.members
    ensures r.buffers == c.buffers - {addr} && r.filterStates == c.filterStates - {addr}
  {
    c.(members := Retain(c.members, addr, cells), buffers := c.buffers - {addr},
       filterStates := c.filterStates - {addr})
  }

  lemma {:induction false} RetainAppend(ms: seq<Cell>, extra: seq<Cell>, addr: SocketAddr, cells: map<Cell, Remote>)
    requires forall i :: 0 <= i < |ms| ==> ms[i] in cells
    requires forall i :: 0 <= i < |extra| ==> extra[i] in cells
    ensures Retain(ms + extra, addr, cells) == Retain(ms, addr, cells) + Retain(extra, addr, cells)
  {
    if ms != [] {
      assert (ms + extra)[1..] == ms[1..] + extra;
      RetainAppend(ms[1..], extra, addr, cells);
    } else {
      assert ms + extra == extra;
    }
  }

  /** Adding a remote and then removing its address is the same as removing the address alone. */
  lemma RemoveAfterAdd(c: Channel, cell: Cell, cells: map<Cell, Remote>)
    requires MembersIn(c, cells) && cell in cells
    ensures MembersIn(AddRemote(c, cell, cells), cells)
    ensures RemoveRemote(AddRemote(c, cell, cells), cells[cell].addr, cells)
         == RemoveRemote(c, cells[cell].addr, cells)
  {
    var addr := cells[cell].addr;
    RetainAppend(c.members, [cell], addr, cells);
    assert Retain([cell], addr, cells) == [];
  }

  /** Both operations keep a member's buffer and filter state in step with its membership. */
  lemma AddRemoteBuffered(c: Channel, cell: Cell, cells: map<Cell, Remote>)
    requires Buffered(c, cells) && cell in cells
    ensures Buffered(AddRemote(c, cell, cells), cells)
  {
  }

  lemma RemoveRemoteBuffered(c: Channel, addr: SocketAddr, cells: map<Cell, Remote>)
    requires Buffered(c, cells)
    ensures Buffered(RemoveRemote(c, addr, cells), cells)
  {
  }
}
