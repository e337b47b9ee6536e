/**
 * Packet tag tables of the VoUDP protocol: the first byte of every plaintext
 * names its type. Decoders from a byte, their inverses, the one-byte request
 * builders and the two classification predicates.
 */
module Protocol {
  import opened Wrappers
  import opened Bytes

  /** Internal flags of the reliable layer; never a packet tag. */
  const RELIABLE_FLAG: byte := 0x80
  const ACK_FLAG: byte := 0x81

  /** The shared console password. */
  const PASSWORD: string := "password"

  datatype ClientPacketType =
    | Join | Audio | Eof | Mask | List | Chat | Ctrl | FlowJoin | FlowLeave
    | SyncCommands | Cmd | CommandResponse | FlowRenick | Dm | RegisterConsole

  datatype ConsolePacketType = ConsoleCmd | ConsoleEof | Keepalive

  datatype ControlRequest = SetDeafen | SetUndeafen | SetMute | SetUnmute

  /** `ClientPacketType as u8`: the declared discriminants. */
  function ClientTag(t: ClientPacketType): byte {
    match t
    case Join => 0x01
    case Audio => 0x02
    case Eof => 0x03
    case Mask => 0x04
    case List => 0x05
    case Chat => 0x06
    case Ctrl => 0x08
    case FlowJoin => 0x0a
    case FlowLeave => 0x0b
    case SyncCommands => 0x0c
    case Cmd => 0x0d
    case CommandResponse => 0x0e
    case FlowRenick => 0x10
    case Dm => 0x11
    case RegisterConsole => 0xff
  }

  /** The bytes `ClientPacketType::try_from` accepts. */
  predicate IsClientTag(b: byte) {
    (0x01 <= b <= 0x06) || b == 0x08 || (0x0a <= b <= 0x0d) || b == 0x10 || b == 0x11 || b == 0xff
  }

  /** `TryFrom<u8> for ClientPacketType`; the error carries the rejected byte. */
  function ClientPacketTypeFrom(b: byte): (r: Result<ClientPacketType, byte>)
    ensures r.Ok? <==> IsClientTag(b)
    ensures r.Ok? ==> ClientTag(r.value) == b
    ensures r.Err? ==> r.error == b
  {
    match b
    case 0x01 => Ok(Join)
    case 0x02 => Ok(Audio)
    case 0x03 => Ok(Eof)
    case 0x04 => Ok(Mask)
    case 0x05 => Ok(List)
    case 0x06 => Ok(Chat)
    case 0x08 => Ok(Ctrl)
    case 0x0a => Ok(FlowJoin)
    case 0x0b => Ok(FlowLeave)
    case 0x0c => Ok(SyncCommands)
    case 0x0d => Ok(Cmd)
    case 0x10 => Ok(FlowRenick)
    case 0x11 => Ok(Dm)
    case 0xff => Ok(RegisterConsole)
    case _ => Err(b)
  }

  /** Decoding inverts `as u8` for every variant but `CommandResponse`, whose 0x0e is rejected. */
  lemma ClientPacketTypeRoundTrip(t: ClientPacketType)
    ensures t != CommandResponse ==> ClientPacketTypeFrom(ClientTag(t)) == Ok(t)
    ensures t == CommandResponse ==> ClientPacketTypeFrom(ClientTag(t)) == Err(0x0e)
  {
  }

  function ConsoleTag(t: ConsolePacketType): byte {
    match t
    case ConsoleCmd => 0x0d
    case ConsoleEof => 0x03
    case Keepalive => 0x04
  }

  /** `TryFrom<u8> for ConsolePacketType`. */
  function ConsolePacketTypeFrom(b: byte): (r: Result<ConsolePacketType, byte>)
    ensures r.Ok? <==> b == 0x03 || b == 0x04 || b == 0x0d
    ensures r.Ok? ==> ConsoleTag(r.value) == b
    ensures r.Err? ==> r.error == b
  {
    match b
    case 0x03 => Ok(ConsoleEof)
    case 0x04 => Ok(Keepalive)
    case 0x0d => Ok(ConsoleCmd)
    case _ => Err(b)
  }

  lemma ConsolePacketTypeRoundTrip(t: ConsolePacketType)
    ensures ConsolePacketTypeFrom(ConsoleTag(t)) == Ok(t)
  {
  }

  function ControlTag(t: ControlRequest): byte {
    match t
    case SetDeafen => 0x01
    case SetUndeafen => 0x02
    case SetMute => 0x03
    case SetUnmute => 0x04
  }

  /** `TryFrom<u8> for ControlRequest`. */
  function ControlRequestFrom(b: byte): (r: Result<ControlRequest, byte>)
    ensures r.Ok? <==> 0x01 <= b <= 0x04
    ensures r.Ok? ==> ControlTag(r.value) == b
    ensures r.Err? ==> r.error == b
  {
    match b
    case 0x01 => Ok(SetDeafen)
    case 0x02 => Ok(SetUndeafen)
    case 0x03 => Ok(SetMute)
    case 0x04 => Ok(SetUnmute)
    case _ => Err(b)
  }

  lemma ControlRequestRoundTrip(t: ControlRequest)
    ensures ControlRequestFrom(ControlTag(t)) == Ok(t)
  {
  }

  /** Neither internal flag is a tag of any of the three tables. */
  lemma FlagsAreNotTags()
    ensures ClientPacketTypeFrom(RELIABLE_FLAG).Err? && ClientPacketTypeFrom(ACK_FLAG).Err?
    ensures ConsolePacketTypeFrom(RELIABLE_FLAG).Err? && ConsolePacketTypeFrom(ACK_FLAG).Err?
    ensures ControlRequestFrom(RELIABLE_FLAG).Err? && ControlRequestFrom(ACK_FLAG).Err?
  {
  }

  /** `PacketSerializer::to_bytes`: the tag alone. */
  function ToBytes(t: ClientPacketType): (r: seq<byte>)
    ensures |r| == 1 && r[0] == ClientTag(t)
  {
    [ClientTag(t)]
  }

  /** `create_audio_packet`: the Audio tag in front of the encoded frame. */
  function CreateAudioPacket(opus: seq<byte>): (r: seq<byte>)
    ensures |r| == |opus| + 1
    ensures ClientPacketTypeFrom(r[0]) == Ok(Audio)
    ensures r[1..] == opus
  {
    [ClientTag(Audio)] + opus
  }

  function CreateListRequest(): (r: seq<byte>)
    ensures r == [0x05]
  {
    ToBytes(List)
  }

  function CreateSyncCommandsRequest(): (r: seq<byte>)
    ensures r == [0x0c]
  {
    ToBytes(SyncCommands)
  }

  predicate IsFlowPacket(t: ClientPacketType) {
    t == FlowJoin || t == FlowLeave || t == FlowRenick || t == Dm
  }

  predicate IsClientToServerOnly(t: ClientPacketType) {
    t == Join || t == Mask || t == Ctrl || t == RegisterConsole
  }

  /** No type is both a server-to-client flow packet and client-to-server only. */
  lemma FlowAndClientOnlyDisjoint(t: ClientPacketType)
    ensures !(IsFlowPacket(t) && IsClientToServerOnly(t))
  {
  }
}
