/**
 * The encrypted, optionally reliable datagram socket. Every datagram on the
 * wire is a 12-byte nonce (4-byte random prefix, 8-byte big-endian counter)
 * followed by the AEAD ciphertext. Inside the plaintext, a RELIABLE frame is
 * `0x80 ++ be32(seq) ++ payload` and is answered by an ACK frame
 * `0x81 ++ be32(seq)`; unacknowledged frames wait in `pending` for a resend.
 */
module Socket {
  import opened Wrappers
  import opened Bytes
  import opened Net
  import opened Protocol

  const NONCE_LEN: nat := 12
  const RESEND_TIMEOUT_MS: int := 200
  const MAX_RETRIES: byte := 5

  /** The AEAD cipher: (nonce, input) to output, where either direction may fail. */
  datatype Cipher = Cipher(
    encrypt: (seq<byte>, seq<byte>) -> Option<seq<byte>>,
    decrypt: (seq<byte>, seq<byte>) -> Option<seq<byte>>)

  /** Decryption undoes encryption under the same nonce. */
  ghost predicate Inverts(c: Cipher) {
    forall n, p :: c.encrypt(n, p).Some? ==> c.decrypt(n, c.encrypt(n, p).value) == Some(p)
  }

  datatype IoError =
    | NotConnected | InvalidInput | EncryptionFailure | ReceiveFailure
    | PacketTooSmall | DecryptionFailure | InnerTooLarge | PlaintextTooLarge
    | SendFailure  // the operating system refused the datagram

  /** A datagram handed to the operating system, with its destination. */
  datatype Datagram = Datagram(payload: seq<byte>, to: SocketAddr)

  /** A reliable frame waiting for its ACK; `lastSent` is in milliseconds. */
  datatype PendingPacket = PendingPacket(data: seq<byte>, addr: SocketAddr, lastSent: int, retries: byte)

  function Nonce(prefix: seq<byte>, counter: u64): (r: seq<byte>)
    requires |prefix| == 4
    ensures |r| == NONCE_LEN && r[..4] == prefix && r[4..] == BE64(counter)
  {
    prefix + BE64(counter)
  }

  /** The datagram `send_to` produces for `buf` under nonce counter `counter`. */
  function Seal(c: Cipher, prefix: seq<byte>, counter: u64, buf: seq<byte>): Option<seq<byte>>
    requires |prefix| == 4
  {
    match c.encrypt(Nonce(prefix, counter), buf)
    case None => None
    case Some(ct) => Some(Nonce(prefix, counter) + ct)
  }

  /** The first half of `recv_from`: the plaintext of a received datagram, or why there is none. */
  function Open(c: Cipher, d: seq<byte>): Result<seq<byte>, IoError> {
    if |d| < NONCE_LEN then Err(PacketTooSmall)
    else match c.decrypt(d[..NONCE_LEN], d[NONCE_LEN..])
      case None => Err(DecryptionFailure)
      case Some(p) => Ok(p)
  }

  /** Round trip: with a cipher whose decryption inverts encryption, a sealed datagram opens to its input. */
  lemma OpenSeal(c: Cipher, prefix: seq<byte>, counter: u64, buf: seq<byte>)
    requires |prefix| == 4 && Inverts(c)
    requires Seal(c, prefix, counter, buf).Some?
    ensures Open(c, Seal(c, prefix, counter, buf).value) == Ok(buf)
  {
    var d := Seal(c, prefix, counter, buf).value;
    var n := Nonce(prefix, counter);
    assert d[..NONCE_LEN] == n && d[NONCE_LEN..] == c.encrypt(n, buf).value;
  }

  /** Nonces from distinct counters differ, whatever the prefix. */
  lemma NonceInjective(prefix: seq<byte>, m: u64, n: u64)
    requires |prefix| == 4
    ensures Nonce(prefix, m) == Nonce(prefix, n) <==> m == n
  {
    BE64Injective(m, n);
    if Nonce(prefix, m) == Nonce(prefix, n) {
      assert Nonce(prefix, m)[4..] == Nonce(prefix, n)[4..];
    }
  }

  function ReliableFrame(seqNo: u32, payload: seq<byte>): (r: seq<byte>)
    ensures |r| == 5 + |payload|
  {
    [RELIABLE_FLAG] + BE32(seqNo) + payload
  }

  function AckFrame(seqNo: u32): (r: seq<byte>)
    ensures |r| == 5
  {
    [ACK_FLAG] + BE32(seqNo)
  }

  /** How `recv_from` reads a plaintext. */
  datatype Frame = Ack(seqNo: u32) | Reliable(seqNo: u32, inner: seq<byte>) | Plain(data: seq<byte>)

  function ParseFrame(p: seq<byte>): (r: Frame)
    ensures r.Plain? ==> r.data == p
  {
    if |p| == 5 && p[0] == ACK_FLAG then Ack(FromBE32(p[1..5]))
    else if |p| >= 6 && p[0] == RELIABLE_FLAG then Reliable(FromBE32(p[1..5]), p[5..])
    else Plain(p)
  }

  /** An ACK frame reads back as the ACK of the same sequence number. */
  lemma ParseAckFrame(seqNo: u32)
    ensures ParseFrame(AckFrame(seqNo)) == Ack(seqNo)
  {
    assert AckFrame(seqNo)[1..5] == BE32(seqNo);
    FromBE32OfBE32(seqNo);
  }

  /**
   * A reliable frame with a payload reads back as that frame; with an empty
   * payload it is five bytes long and is delivered verbatim instead.
   */
  lemma ParseReliableFrame(seqNo: u32, payload: seq<byte>)
    ensures payload != [] ==> ParseFrame(ReliableFrame(seqNo, payload)) == Reliable(seqNo, payload)
    ensures payload == [] ==> ParseFrame(ReliableFrame(seqNo, payload)) == Plain(ReliableFrame(seqNo, payload))
  {
    var f := ReliableFrame(seqNo, payload);
    assert f[1..5] == BE32(seqNo) && f[5..] == payload;
    FromBE32OfBE32(seqNo);
  }

  /** A packet that starts with a tag byte is never mistaken for a frame of the reliable layer. */
  lemma TaggedPacketIsPlain(p: seq<byte>)
    requires p != [] && ClientPacketTypeFrom(p[0]).Ok?
    ensures ParseFrame(p) == Plain(p)
  {
    FlagsAreNotTags();
  }

  /** Whether a pending frame is due for a resend at `now` (`duration_since` saturates at zero). */
  predicate Due(p: PendingPacket, now: int) {
    (if now >= p.lastSent then now - p.lastSent else 0) >= RESEND_TIMEOUT_MS
  }

  /** What the `retain` closure of `tick_reliable` leaves of one entry, when it keeps it. */
  function Tick(p: PendingPacket, now: int): PendingPacket
    requires p.retries < MAX_RETRIES
  {
    if Due(p, now) then p.(lastSent := now, retries := p.retries + 1) else p
  }

  /** The pending table after a sweep at `now`. */
  function TickAll(pending: map<u32, PendingPacket>, now: int): map<u32, PendingPacket> {
    map k | k in pending && pending[k].retries < MAX_RETRIES :: Tick(pending[k], now)
  }

  predicate RetriesBounded(pending: map<u32, PendingPacket>) {
    forall k :: k in pending ==> pending[k].retries <= MAX_RETRIES
  }

  /**
   * A sweep drops exactly the entries that used up their retries, keeps the
   * frame and destination of the rest, counts one more retry for each due
   * entry, and never lets a count pass the limit.
   */
  lemma TickAllEffect(pending: map<u32, PendingPacket>, now: int)
    requires RetriesBounded(pending)
    ensures forall k :: k in TickAll(pending, now) <==> k in pending && pending[k].retries < MAX_RETRIES
    ensures forall k :: k in TickAll(pending, now) ==>
      TickAll(pending, now)[k].data == pending[k].data && TickAll(pending, now)[k].addr == pending[k].addr
    ensures forall k :: k in TickAll(pending, now) ==>
      if Due(pending[k], now)
      then TickAll(pending, now)[k].retries == pending[k].retries + 1 && TickAll(pending, now)[k].lastSent == now
      else TickAll(pending, now)[k] == pending[k]
    ensures RetriesBounded(TickAll(pending, now))
  {
  }

  /** `sweeps` successive sweeps, each a resend timeout after the previous one. */
  function Sweep(pending: map<u32, PendingPacket>, now: int, sweeps: nat): map<u32, PendingPacket>
    decreases sweeps
  {
    if sweeps == 0 then pending
    else Sweep(TickAll(pending, now + RESEND_TIMEOUT_MS), now + RESEND_TIMEOUT_MS, sweeps - 1)
  }

  /**
   * When nothing was sent after `now`, each of `sweeps` sweeps spaced a
   * resend timeout apart resends every surviving entry once more.
   */
  lemma {:induction false} SweepCountsRetries(pending: map<u32, PendingPacket>, now: int, sweeps: nat)
    requires RetriesBounded(pending)
    requires forall k :: k in pending ==> pending[k].lastSent <= now
    ensures RetriesBounded(Sweep(pending, now, sweeps))
    ensures forall k :: k in Sweep(pending, now, sweeps) ==>
      k in pending && Sweep(pending, now, sweeps)[k].retries as int >= pending[k].retries as int + sweeps
    decreases sweeps
  {
    if sweeps > 0 {
      var t := now + RESEND_TIMEOUT_MS;
      var next := TickAll(pending, t);
      TickAllEffect(pending, t);
      assert forall k :: k in next ==> next[k].lastSent <= t;
      SweepCountsRetries(next, t, sweeps - 1);
    }
  }

  /** Six sweeps a resend timeout apart empty the table: an unacknowledged frame is resent at most five times. */
  lemma SweepDrains(pending: map<u32, PendingPacket>, now: int, sweeps: nat)
    requires RetriesBounded(pending)
    requires forall k :: k in pending ==> pending[k].lastSent <= now
    requires sweeps > MAX_RETRIES as int
    ensures Sweep(pending, now, sweeps) == map[]
  {
    SweepCountsRetries(pending, now, sweeps);
  }

  class SecureUdpSocket {
    const cipher: Cipher
    /** The random bytes drawn at creation. */
    const noncePrefix: seq<byte>
    var seqCounter: u32
    var nonceCounter: u64
    var pending: map<u32, PendingPacket>
    var connectedAddr: Option<SocketAddr>
    /** Datagrams handed to the operating system, oldest first. */
    var sent: seq<Datagram>
    /** The nonce counters consumed so far, in order. */
    ghost var usedCounters: seq<u64>

    ghost predicate Valid()
      reads this
    {
      |noncePrefix| == 4
      && nonceCounter == |usedCounters| % 0x1_0000_0000_0000_0000
      && (forall i :: 0 <= i < |usedCounters| ==> usedCounters[i] == i % 0x1_0000_0000_0000_0000)
      && RetriesBounded(pending)
    }

    /** `SecureUdpSocket::create`; the cipher comes from the derived key, the prefix from the OS generator. */
    constructor Create(c: Cipher, prefix: seq<byte>)
      requires |prefix| == 4
      ensures Valid()
      ensures cipher == c && noncePrefix == prefix
      ensures seqCounter == 1 && nonceCounter == 0 && pending == map[]
      ensures connectedAddr == None && sent == [] && usedCounters == []
    {
      cipher := c;
      noncePrefix := prefix;
      seqCounter := 1;
      nonceCounter := 0;
      pending := map[];
      connectedAddr := None;
      sent := [];
      usedCounters := [];
    }

    /** `connect`: the first IPv4 address among those the name resolved to. */
    method Connect(resolved: seq<SocketAddr>) returns (r: Result<(), IoError>)
      modifies this
      ensures r.Ok? <==> exists i :: 0 <= i < |resolved| && resolved[i].IsIpv4()
      ensures r.Err? ==> r.error == InvalidInput && connectedAddr == old(connectedAddr)
      ensures r.Ok? ==>
        && connectedAddr.Some? && connectedAddr.value.IsIpv4()
        && (exists i :: 0 <= i < |resolved| && resolved[i] == connectedAddr.value
              && (forall j :: 0 <= j < i ==> !resolved[j].IsIpv4()))
      ensures unchanged(this`seqCounter) && unchanged(this`nonceCounter) && unchanged(this`pending)
      ensures unchanged(this`sent) && unchanged(this`usedCounters)
    {
      var i := 0;
      while i < |resolved|
        invariant 0 <= i <= |resolved|
        invariant forall j :: 0 <= j < i ==> !resolved[j].IsIpv4()
      {
        if resolved[i].IsIpv4() {
          connectedAddr := Some(resolved[i]);
          return Ok(());
        }
        i := i + 1;
      }
      return Err(InvalidInput);
    }

    /**
     * `send_to`: consumes one nonce counter (even when encryption fails), then
     * emits the nonce followed by the ciphertext and reports its length.
     * `osAccepts` is whether the operating system takes the datagram; when it
     * does not, the call fails and nothing is emitted.
     */
    method SendTo(buf: seq<byte>, addr: SocketAddr, osAccepts: bool) returns (r: Result<nat, IoError>)
      requires Valid()
      modifies this
      ensures Valid()
      ensures nonceCounter == (old(nonceCounter) + 1) % 0x1_0000_0000_0000_0000
      ensures usedCounters == old(usedCounters) + [old(nonceCounter)]
      ensures match Seal(cipher, noncePrefix, old(nonceCounter), buf)
        case None => r == Err(EncryptionFailure) && sent == old(sent)
        case Some(d) =>
          if osAccepts then r == Ok(|d|) && sent == old(sent) + [Datagram(d, addr)]
          else r == Err(SendFailure) && sent == old(sent)
      ensures unchanged(this`seqCounter) && unchanged(this`pending) && unchanged(this`connectedAddr)
    {
      var counter := nonceCounter;
      nonceCounter := (nonceCounter + 1) % 0x1_0000_0000_0000_0000;
      WrapSucc(|usedCounters|);
      usedCounters := usedCounters + [counter];
      var nonceBytes := noncePrefix + BE64(counter);
      var ciphertext := cipher.encrypt(nonceBytes, buf);
      if ciphertext.None? {
        return Err(EncryptionFailure);
      }
      var packet := nonceBytes + ciphertext.value;
      if !osAccepts {
        return Err(SendFailure);
      }
      sent := sent + [Datagram(packet, addr)];
      return Ok(|packet|);
    }

    /**
     * `send_reliable`: takes the next sequence number (wrapping), sends the
     * framed payload and only then records it as pending, stamped `now`.
     */
    method SendReliable(payload: seq<byte>, addr: SocketAddr, now: int, osAccepts: bool) returns (r: Result<(), IoError>)
      requires Valid()
      modifies this
      ensures Valid()
      ensures seqCounter == (old(seqCounter) + 1) % 0x1_0000_0000
      ensures nonceCounter == (old(nonceCounter) + 1) % 0x1_0000_0000_0000_0000
      ensures usedCounters == old(usedCounters) + [old(nonceCounter)]
      ensures match Seal(cipher, noncePrefix, old(nonceCounter), ReliableFrame(old(seqCounter), payload))
        case None => r == Err(EncryptionFailure) && sent == old(sent) && pending == old(pending)
        case Some(d) =>
          if !osAccepts then r == Err(SendFailure) && sent == old(sent) && pending == old(pending)
          else
            && r == Ok(())
            && sent == old(sent) + [Datagram(d, addr)]
            && pending == old(pending)[old(seqCounter) := PendingPacket(ReliableFrame(old(seqCounter), payload), addr, now, 0)]
      ensures unchanged(this`connectedAddr)
    {
      var seqNo := seqCounter;
      seqCounter := (seqCounter + 1) % 0x1_0000_0000;
      var packet := [RELIABLE_FLAG] + BE32(seqNo) + payload;
      var sendResult := SendTo(packet, addr, osAccepts);
      if sendResult.Err? {
        return Err(sendResult.error);
      }
      pending := pending[seqNo := PendingPacket(packet, addr, now, 0)];
      return Ok(());
    }

    /** `send_ack`: the five-byte ACK frame for `seqNo`. */
    method SendAck(seqNo: u32, addr: SocketAddr, osAccepts: bool) returns (r: Result<nat, IoError>)
      requires Valid()
      modifies this
      ensures Valid()
      ensures nonceCounter == (old(nonceCounter) + 1) % 0x1_0000_0000_0000_0000
      ensures usedCounters == old(usedCounters) + [old(nonceCounter)]
      ensures match Seal(cipher, noncePrefix, old(nonceCounter), AckFrame(seqNo))
        case None => r == Err(EncryptionFailure) && sent == old(sent)
        case Some(d) =>
          if osAccepts then r == Ok(|d|) && sent == old(sent) + [Datagram(d, addr)]
          else r == Err(SendFailure) && sent == old(sent)
      ensures unchanged(this`seqCounter) && unchanged(this`pending) && unchanged(this`connectedAddr)
    {
      var ackPlain := [ACK_FLAG] + BE32(seqNo);
      r := SendTo(ackPlain, addr, osAccepts);
    }

    /**
     * `send`: to the connected address; a packet whose type `isReliable`
     * marks goes through the reliable layer (and reports the input length),
     * the rest directly. An unknown tag byte counts as Audio.
     */
    method Send(buf: seq<byte>, isReliable: ClientPacketType -> bool, now: int, osAccepts: bool) returns (r: Result<nat, IoError>)
      requires Valid()
      modifies this
      ensures Valid()
      ensures connectedAddr == old(connectedAddr)
      ensures old(connectedAddr).None? ==> r == Err(NotConnected) && unchanged(this)
      ensures old(connectedAddr).Some? && buf == [] ==> r == Err(InvalidInput) && unchanged(this)
      ensures old(connectedAddr).Some? && buf != [] ==>
        var addr := old(connectedAddr).value;
        var reliable := isReliable(SendType(buf[0]));
        var frame := if reliable then ReliableFrame(old(seqCounter), buf) else buf;
        && nonceCounter == (old(nonceCounter) + 1) % 0x1_0000_0000_0000_0000
        && usedCounters == old(usedCounters) + [old(nonceCounter)]
        && seqCounter == (if reliable then (old(seqCounter) + 1) % 0x1_0000_0000 else old(seqCounter))
        && match Seal(cipher, noncePrefix, old(nonceCounter), frame)
           case None => r == Err(EncryptionFailure) && sent == old(sent) && pending == old(pending)
           case Some(d) =>
             if !osAccepts then r == Err(SendFailure) && sent == old(sent) && pending == old(pending)
             else
               && r == Ok(if reliable then |buf| else |d|)
               && sent == old(sent) + [Datagram(d, addr)]
               && pending == (if reliable then old(pending)[old(seqCounter) := PendingPacket(frame, addr, now, 0)]
                              else old(pending))
    {
      if connectedAddr.None? {
        return Err(NotConnected);
      }
      var addr := connectedAddr.value;
      if buf == [] {
        return Err(InvalidInput);
      }
      var packetType := SendType(buf[0]);
      if isReliable(packetType) {
        var sr := SendReliable(buf, addr, now, osAccepts);
        if sr.Err? {
          return Err(sr.error);
        }
        return Ok(|buf|);
      } else {
        r := SendTo(buf, addr, osAccepts);
      }
    }

    /**
     * `recv_from`: `received` is what the operating system delivered (the
     * datagram and its source, or nothing on an OS error), and `ackAccepted`
     * whether it takes the ACK sent for a reliable frame. The datagram is
     * first written into `buf`, truncated to its length.
     */
    method RecvFrom(received: Option<(seq<byte>, SocketAddr)>, buf: array<byte>, ackAccepted: bool)
      returns (r: Result<(nat, SocketAddr), (IoError, SocketAddr)>)
      requires Valid()
      modifies this, buf
      ensures Valid()
      ensures unchanged(this`seqCounter) && unchanged(this`connectedAddr)
      ensures received.None? ==> r == Err((ReceiveFailure, UNSPECIFIED)) && unchanged(this) && unchanged(buf)
      ensures received.Some? ==>
        var (d, addr) := received.value;
        var size := if |d| <= buf.Length then |d| else buf.Length;
        match Open(cipher, d[..size])
        case Err(e) => r == Err((e, addr)) && unchanged(this)
        case Ok(p) =>
          match ParseFrame(p)
          case Ack(s) =>
            && r == Ok((0, addr))
            && pending == old(pending) - {s}
            && unchanged(this`sent) && unchanged(this`nonceCounter)
          case Reliable(s, inner) =>
            && pending == old(pending)
            && usedCounters == old(usedCounters) + [old(nonceCounter)]
            && (match Seal(cipher, noncePrefix, old(nonceCounter), AckFrame(s))
                case None => sent == old(sent)
                case Some(a) => sent == old(sent) + (if ackAccepted then [Datagram(a, addr)] else []))
            && (if |inner| > buf.Length then r == Err((InnerTooLarge, addr))
                else r == Ok((|inner|, addr)) && buf[..|inner|] == inner)
          case Plain(data) =>
            && unchanged(this)
            && (if |data| > buf.Length then r == Err((PlaintextTooLarge, addr))
                else r == Ok((|data|, addr)) && buf[..|data|] == data)
    {
      if received.None? {
        return Err((ReceiveFailure, UNSPECIFIED));
      }
      var (d, addr) := received.value;
      var size := if |d| <= buf.Length then |d| else buf.Length;
      forall i | 0 <= i < size {
        buf[i] := d[i];
      }
      assert buf[..size] == d[..size];
      assert size >= NONCE_LEN ==> buf[..NONCE_LEN] == d[..size][..NONCE_LEN] && buf[NONCE_LEN..size] == d[..size][NONCE_LEN..];
      if size < NONCE_LEN {
        return Err((PacketTooSmall, addr));
      }
      var nonceBytes := buf[..NONCE_LEN];
      var ciphertext := buf[NONCE_LEN..size];
      var plaintext := cipher.decrypt(nonceBytes, ciphertext);
      if plaintext.None? {
        return Err((DecryptionFailure, addr));
      }
      var p := plaintext.value;
      if |p| == 5 && p[0] == ACK_FLAG {
        var seqNo := FromBE32(p[1..5]);
        pending := pending - {seqNo};
        return Ok((0, addr));
      }
      if |p| >= 6 && p[0] == RELIABLE_FLAG {
        var seqNo := FromBE32(p[1..5]);
        var _ := SendAck(seqNo, addr, ackAccepted);
        var inner := p[5..];
        if |inner| > buf.Length {
          return Err((InnerTooLarge, addr));
        }
        forall i | 0 <= i < |inner| {
          buf[i] := inner[i];
        }
        return Ok((|inner|, addr));
      }
      if |p| > buf.Length {
        return Err((PlaintextTooLarge, addr));
      }
      forall i | 0 <= i < |p| {
        buf[i] := p[i];
      }
      return Ok((|p|, addr));
    }

    /**
     * `tick_reliable` at time `now`: the `retain` sweep over `pending`
     * (returned as `order`, the resent keys in the table's own order). Due
     * frames go out again through the raw socket, as stored, without a new
     * encryption.
     */
    method TickReliable(now: int) returns (ghost order: seq<u32>)
      requires Valid()
      modifies this
      ensures Valid()
      ensures pending == TickAll(old(pending), now)
      ensures forall i, j :: 0 <= i < j < |order| ==> order[i] != order[j]
      ensures forall k :: k in order <==> k in old(pending) && old(pending)[k].retries < MAX_RETRIES && Due(old(pending)[k], now)
      ensures sent == old(sent) + Resends(old(pending), order)
      ensures unchanged(this`seqCounter) && unchanged(this`nonceCounter) && unchanged(this`connectedAddr)
      ensures unchanged(this`usedCounters)
    {
      var table, resent;
      table, resent, order := RetainPending(pending, now);
      TickAllEffect(pending, now);
      pending := table;
      sent := sent + resent;
    }
  }

  /**
   * The closure `tick_reliable` hands to `retain`, applied to every entry in
   * an arbitrary order: the table left behind and the raw datagrams resent,
   * in the order of the keys in `order`.
   */
  method RetainPending(pending: map<u32, PendingPacket>, now: int)
    returns (table: map<u32, PendingPacket>, resent: seq<Datagram>, ghost order: seq<u32>)
    ensures table == TickAll(pending, now)
    ensures forall i, j :: 0 <= i < j < |order| ==> order[i] != order[j]
    ensures forall k :: k in order <==> k in pending && pending[k].retries < MAX_RETRIES && Due(pending[k], now)
    ensures resent == Resends(pending, order)
  {
    table := pending;
    resent := [];
    var todo := table.Keys;
    order := [];
    SweptAll(pending, now);
    while todo != {}
      invariant todo <= pending.Keys
      invariant table == Swept(pending, todo, now)
      invariant Visited(pending, todo, now, order)
      invariant resent == Resends(pending, order)
      decreases todo
    {
      var k :| k in todo;
      SweptStep(pending, todo, k, now);
      VisitStep(pending, todo, now, order, k);
      todo := todo - {k};
      var pkt := table[k];
      if pkt.retries >= MAX_RETRIES {
        table := table - {k};
      } else {
        if Due(pkt, now) {
          resent := resent + [Datagram(pkt.data, pkt.addr)];
          ResendsSnoc(pending, order, k);
          order := order + [k];
        }
        table := table[k := Tick(pkt, now)];
      }
    }
    SweptNone(pending, now);
  }

  lemma ResendsSnoc(start: map<u32, PendingPacket>, order: seq<u32>, k: u32)
    requires forall i :: 0 <= i < |order| ==> order[i] in start
    requires k in start
    ensures Resends(start, order + [k]) == Resends(start, order) + [Datagram(start[k].data, start[k].addr)]
  {
    assert (order + [k])[..|order|] == order;
  }

  /** `order` lists, once each, the visited keys (those not in `todo`) whose packets are resent. */
  ghost predicate Visited(pending: map<u32, PendingPacket>, todo: set<u32>, now: int, order: seq<u32>) {
    && (forall i, j :: 0 <= i < j < |order| ==> order[i] != order[j])
    && (forall k :: k in order <==> k in pending && k !in todo && pending[k].retries < MAX_RETRIES && Due(pending[k], now))
  }

  /** Visiting one more key appends it exactly when its packet is resent. */
  lemma VisitStep(pending: map<u32, PendingPacket>, todo: set<u32>, now: int, order: seq<u32>, k: u32)
    requires Visited(pending, todo, now, order) && k in todo && todo <= pending.Keys
    ensures k !in order
    ensures pending[k].retries < MAX_RETRIES && Due(pending[k], now) ==> Visited(pending, todo - {k}, now, order + [k])
    ensures !(pending[k].retries < MAX_RETRIES && Due(pending[k], now)) ==> Visited(pending, todo - {k}, now, order)
  {
  }

  /** The datagrams a sweep resends, in the order it visits the keys. */
  function Resends(start: map<u32, PendingPacket>, order: seq<u32>): (r: seq<Datagram>)
    requires forall i :: 0 <= i < |order| ==> order[i] in start
    ensures |r| == |order|
    ensures forall i :: 0 <= i < |order| ==> r[i] == Datagram(start[order[i]].data, start[order[i]].addr)
  {
    if order == [] then []
    else
      var k := order[|order| - 1];
      Resends(start, order[..|order| - 1]) + [Datagram(start[k].data, start[k].addr)]
  }

  /** The table part-way through a sweep: keys in `todo` not yet visited. */
  function Swept(start: map<u32, PendingPacket>, todo: set<u32>, now: int): map<u32, PendingPacket> {
    map k | k in start && (k in todo || start[k].retries < MAX_RETRIES) ::
      if k in todo || start[k].retries >= MAX_RETRIES then start[k] else Tick(start[k], now)
  }

  lemma SweptAll(start: map<u32, PendingPacket>, now: int)
    ensures Swept(start, start.Keys, now) == start
  {
  }

  lemma SweptNone(start: map<u32, PendingPacket>, now: int)
    ensures Swept(start, {}, now) == TickAll(start, now)
  {
  }

  lemma SweptStep(start: map<u32, PendingPacket>, todo: set<u32>, k: u32, now: int)
    requires k in todo && todo <= start.Keys
    ensures k in Swept(start, todo, now) && Swept(start, todo, now)[k] == start[k]
    ensures start[k].retries >= MAX_RETRIES ==> Swept(start, todo - {k}, now) == Swept(start, todo, now) - {k}
    ensures start[k].retries < MAX_RETRIES ==>
      Swept(start, todo - {k}, now) == Swept(start, todo, now)[k := Tick(start[k], now)]
  {
  }

  lemma WrapSucc(n: nat)
    ensures (n % 0x1_0000_0000_0000_0000 + 1) % 0x1_0000_0000_0000_0000 == (n + 1) % 0x1_0000_0000_0000_0000
  {
  }

  /** The type `send` classifies a packet as. */
  function SendType(b: byte): (t: ClientPacketType)
    ensures ClientPacketTypeFrom(b).Ok? ==> t == ClientPacketTypeFrom(b).value
    ensures ClientPacketTypeFrom(b).Err? ==> t == Audio
  {
    match ClientPacketTypeFrom(b)
    case Ok(t) => t
    case Err(_) => Audio
  }

  /** Within the first 2^64 sends, the nonce counters used are strictly increasing, so no nonce repeats. */
  lemma CountersIncrease(s: SecureUdpSocket)
    requires s.Valid() && |s.usedCounters| <= 0x1_0000_0000_0000_0000
    ensures forall i, j :: 0 <= i < j < |s.usedCounters| ==> s.usedCounters[i] < s.usedCounters[j]
  {
  }
}
