/**
 * The client-side reader of a list reply (`parse_list_packet`): tag 0x05, two
 * big-endian u32 counts, then masks separated by 0x01 bytes.
 */
module ListPacket {
  import opened Wrappers
  import opened Bytes
  import opened Utf8

  const SEPARATOR: byte := 0x01
  const SEPARATOR_CHAR: char := 0x01 as char

  /** Index of the first separator in `d`, if any. */
  function FirstSeparator(d: seq<byte>): (r: Option<nat>)
    ensures r.Some? ==> r.value < |d| && d[r.value] == SEPARATOR && SEPARATOR !in d[..r.value]
    ensures r.None? ==> SEPARATOR !in d
  {
    if d == [] then None
    else if d[0] == SEPARATOR then Some(0)
    else match FirstSeparator(d[1..])
      case None => None
      case Some(i) =>
        assert d[..i + 1] == [d[0]] + d[1..][..i];
        Some(i + 1)
  }

  /** `<[u8]>::split(|b| b == 0x01)`: the pieces between separators, empty ones included. */
  function Segments(d: seq<byte>): seq<seq<byte>>
    decreases |d|
  {
    match FirstSeparator(d)
    case None => [d]
    case Some(i) => [d[..i]] + Segments(d[i + 1..])
  }

  /** Pieces joined back with the separator. */
  function JoinSegments(parts: seq<seq<byte>>): seq<byte> {
    if parts == [] then []
    else if |parts| == 1 then parts[0]
    else parts[0] + [SEPARATOR] + JoinSegments(parts[1..])
  }

  /** Splitting never loses a byte, and no piece holds a separator. */
  lemma {:induction false} SegmentsJoin(d: seq<byte>)
    ensures |Segments(d)| >= 1
    ensures JoinSegments(Segments(d)) == d
    ensures forall k :: 0 <= k < |Segments(d)| ==> SEPARATOR !in Segments(d)[k]
    decreases |d|
  {
    match FirstSeparator(d)
    case None =>
    case Some(i) =>
      var rest := Segments(d[i + 1..]);
      SegmentsJoin(d[i + 1..]);
      assert Segments(d) == [d[..i]] + rest;
      assert ([d[..i]] + rest)[1..] == rest;
      assert JoinSegments(Segments(d)) == d[..i] + [SEPARATOR] + JoinSegments(rest);
      assert d == d[..i] + [SEPARATOR] + d[i + 1..];
  }

  /** The masks a piece contributes: none when empty or not UTF-8. */
  function KeepOne(part: seq<byte>): seq<string> {
    if part == [] then []
    else match Decode(part)
      case None => []
      case Some(s) => [s]
  }

  function Keep(parts: seq<seq<byte>>): seq<string> {
    if parts == [] then [] else Keep(parts[..|parts| - 1]) + KeepOne(parts[|parts| - 1])
  }

  /** What `parse_list_packet` returns for `bytes`. */
  function ListPacket(bytes: seq<byte>): Option<(u32, u32, seq<string>)> {
    if |bytes| < 9 || bytes[0] != 0x05 then None
    else Some((FromBE32(bytes[1..5]), FromBE32(bytes[5..9]), Keep(Segments(bytes[9..]))))
  }

  /** `parse_list_packet`: a loop over the pieces of the mask area. */
  method ParseListPacket(bytes: seq<byte>) returns (r: Option<(u32, u32, seq<string>)>)
    ensures r == ListPacket(bytes)
  {
    if |bytes| < 9 || bytes[0] != 0x05 {
      return None;
    }
    var unmaskedCount := FromBE32(bytes[1..5]);
    var maskedCount := FromBE32(bytes[5..9]);
    var masks: seq<string> := [];
    var parts := Segments(bytes[9..]);
    for k := 0 to |parts|
      invariant masks == Keep(parts[..k])
    {
      assert parts[..k + 1][..k] == parts[..k];
      assert Keep(parts[..k + 1]) == Keep(parts[..k]) + KeepOne(parts[k]);
      var part := parts[k];
      if part != [] {
        var s := Decode(part);
        if s.Some? {
          masks := masks + [s.value];
        }
      }
    }
    assert parts[..|parts|] == parts;
    return Some((unmaskedCount, maskedCount, masks));
  }

  /** The packet is refused exactly when it is shorter than 9 bytes or not tagged 0x05. */
  lemma ListPacketNone(bytes: seq<byte>)
    ensures ListPacket(bytes).None? <==> |bytes| < 9 || bytes[0] != 0x05
  {
  }

  /** The two counts are the big-endian words at bytes 1..5 and 5..9, unchecked against the masks. */
  lemma ListPacketCounts(bytes: seq<byte>)
    requires ListPacket(bytes).Some?
    ensures BE32(ListPacket(bytes).value.0) == bytes[1..5]
    ensures BE32(ListPacket(bytes).value.1) == bytes[5..9]
  {
    BE32OfFromBE32(bytes[1..5]);
    BE32OfFromBE32(bytes[5..9]);
  }

  lemma {:induction false} KeepMasks(parts: seq<seq<byte>>)
    requires forall k :: 0 <= k < |parts| ==> SEPARATOR !in parts[k]
    ensures forall j :: 0 <= j < |Keep(parts)| ==> Keep(parts)[j] != [] && SEPARATOR_CHAR !in Keep(parts)[j]
  {
    if parts != [] {
      var last := parts[|parts| - 1];
      KeepMasks(parts[..|parts| - 1]);
      match Decode(last)
      case None =>
      case Some(s) =>
        if last != [] {
          EncodeDecode(last);
          AsciiByteInEncode(s, SEPARATOR);
        }
    }
  }

  /** Every mask returned is non-empty and free of the separator; invalid pieces are skipped. */
  lemma ListPacketMasks(bytes: seq<byte>)
    requires ListPacket(bytes).Some?
    ensures forall j :: 0 <= j < |ListPacket(bytes).value.2| ==>
      ListPacket(bytes).value.2[j] != [] && SEPARATOR_CHAR !in ListPacket(bytes).value.2[j]
  {
    SegmentsJoin(bytes[9..]);
    KeepMasks(Segments(bytes[9..]));
  }

  /** A bare 9-byte header yields no masks. */
  lemma ListPacketHeaderOnly(bytes: seq<byte>)
    requires |bytes| == 9 && bytes[0] == 0x05
    ensures ListPacket(bytes).Some? && ListPacket(bytes).value.2 == []
  {
    assert bytes[9..] == [];
    assert Segments([]) == [[]];
    assert Keep([[]]) == Keep([]) + KeepOne([]);
  }

  predicate IsMask(m: string) {
    m != [] && SEPARATOR_CHAR !in m
  }

  function EncodeAll(masks: seq<string>): (r: seq<seq<byte>>)
    ensures |r| == |masks|
    ensures forall j :: 0 <= j < |masks| ==> r[j] == Encode(masks[j])
  {
    if masks == [] then [] else [Encode(masks[0])] + EncodeAll(masks[1..])
  }

  /** The bytes of a list reply carrying these counts and masks. */
  function ListPacketBytes(unmasked: u32, masked: u32, masks: seq<string>): seq<byte> {
    [0x05] + BE32(unmasked) + BE32(masked) + JoinSegments(EncodeAll(masks))
  }

  lemma {:induction false} SegmentsOfJoin(parts: seq<seq<byte>>)
    requires |parts| >= 1
    requires forall k :: 0 <= k < |parts| ==> SEPARATOR !in parts[k]
    ensures Segments(JoinSegments(parts)) == parts
  {
    if |parts| > 1 {
      var d := JoinSegments(parts);
      assert d == parts[0] + ([SEPARATOR] + JoinSegments(parts[1..]));
      FirstSeparatorOf(parts[0], JoinSegments(parts[1..]));
      assert d[..|parts[0]|] == parts[0];
      assert d[|parts[0]| + 1..] == JoinSegments(parts[1..]);
      SegmentsOfJoin(parts[1..]);
    }
  }

  lemma {:induction false} FirstSeparatorOf(a: seq<byte>, rest: seq<byte>)
    requires SEPARATOR !in a
    ensures FirstSeparator(a + [SEPARATOR] + rest) == Some(|a|)
  {
    if a != [] {
      assert (a + [SEPARATOR] + rest)[1..] == a[1..] + [SEPARATOR] + rest;
      FirstSeparatorOf(a[1..], rest);
    }
  }

  lemma KeepOneEncode(m: string)
    requires m != []
    ensures KeepOne(Encode(m)) == [m]
  {
    DecodeEncode(m);
  }

  lemma {:induction false} KeepEncoded(masks: seq<string>)
    requires forall j :: 0 <= j < |masks| ==> masks[j] != []
    ensures Keep(EncodeAll(masks)) == masks
  {
    if masks != [] {
      var n := |masks|;
      var es := EncodeAll(masks);
      KeepEncoded(masks[..n - 1]);
      KeepOneEncode(masks[n - 1]);
      KeepStep(es, EncodeAll(masks[..n - 1]));
      SplitLast(masks);
    }
  }

  lemma SplitLast<T>(s: seq<T>)
    requires s != []
    ensures s[..|s| - 1] + [s[|s| - 1]] == s
  {
  }

  lemma KeepStep(es: seq<seq<byte>>, init: seq<seq<byte>>)
    requires es != [] && init == es[..|es| - 1]
    ensures Keep(es) == Keep(init) + KeepOne(es[|es| - 1])
  {
  }

  /** Round trip: masks joined by 0x01 behind the header parse back unchanged. */
  lemma ListPacketRoundTrip(unmasked: u32, masked: u32, masks: seq<string>)
    requires forall j :: 0 <= j < |masks| ==> IsMask(masks[j])
    ensures ListPacket(ListPacketBytes(unmasked, masked, masks)) == Some((unmasked, masked, masks))
  {
    var b := ListPacketBytes(unmasked, masked, masks);
    assert b[1..5] == BE32(unmasked) && b[5..9] == BE32(masked);
    assert b[9..] == JoinSegments(EncodeAll(masks));
    FromBE32OfBE32(unmasked);
    FromBE32OfBE32(masked);
    var es := EncodeAll(masks);
    forall k | 0 <= k < |es| ensures SEPARATOR !in es[k] {
      AsciiByteInEncode(masks[k], SEPARATOR);
    }
    if masks == [] {
      assert Segments([]) == [[]];
      assert Keep([[]]) == [];
    } else {
      SegmentsOfJoin(es);
    }
    KeepEncoded(masks);
  }
}
