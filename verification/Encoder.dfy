/**
 The in-place encoder.  The body is written from offset 5 on, the fixed header
 is then written in front of it as long as it turns out to be, and the whole
 packet is rotated to the start of the buffer.
 */
module Encoder {
  import opened Base
  import opened Wire
  import opened Varint
  import opened Properties
  import opened Packets

  /** `slice[..n].rotate_left(k)` */
  method RotateLeft(a: array<byte>, n: nat, k: nat)
    requires k <= n <= a.Length
    modifies a
    ensures a[..n] == old(a[k..n]) + old(a[..k])
    ensures a[n..] == old(a[n..])
  {
    var turned := a[k..n] + a[..k];
    for i := 0 to n
      invariant a[..i] == turned[..i] && a[n..] == old(a[n..])
    {
      a[i] := turned[i];
    }
  }

  /** Bytes `x` written over `a` at `i` stand right in front of what followed them there. */
  lemma HeaderMeetsBody(a: Bytes, b: Bytes, i: nat, x: Bytes, n: nat)
    requires i + |x| + n <= |a| == |b| && b[..i + |x|] == a[..i] + x && b[i + |x|..] == a[i + |x|..]
    ensures b[i..i + |x| + n] == x + a[i + |x|..i + |x| + n]
  {
    var j := i + |x|;
    assert b[i..j] == b[..j][i..] == x;
    assert b[j..j + n] == b[j..][..n] == a[j..][..n] == a[j..j + n];
    assert b[i..j + n] == b[i..j] + b[j..j + n];
  }

  lemma NextWrite(ws: seq<Write>, i: nat, room: nat, before: Bytes)
    requires i < |ws|
    ensures |EmitAll(ws[..i + 1])| == |EmitAll(ws[..i])| + |Emit(ws[i])|
    ensures before + EmitAll(ws[..i + 1]) == before + EmitAll(ws[..i]) + Emit(ws[i])
    ensures FirstMisfit(ws[i..], room) ==
            if |Emit(ws[i])| > room then Some(ws[i]) else FirstMisfit(ws[i + 1..], room - |Emit(ws[i])|)
  {
    assert ws[..i] + [ws[i]] == ws[..i + 1] && ws[i..][0] == ws[i] && ws[i..][1..] == ws[i + 1..];
    EmitAllConcat(ws[..i], [ws[i]]);
    Emit1(ws[i]);
  }

  class MqttEncoder {
    const buf: array<byte>
    var offset: nat
    var headerStart: nat

    constructor (buf: array<byte>)
      ensures this.buf == buf && offset == headerStart == MAX_HEADER
    {
      this.buf, offset, headerStart := buf, MAX_HEADER, MAX_HEADER;
    }

    /** Copies bytes that are known to fit. */
    method Copy(bytes: Bytes)
      requires offset + |bytes| <= buf.Length
      modifies `offset, buf
      ensures offset == old(offset) + |bytes|
      ensures buf[..offset] == old(buf[..offset]) + bytes
      ensures buf[offset..] == old(buf[..])[offset..]
    {
      var start := offset;
      for i := 0 to |bytes|
        invariant offset == start && buf[..start] == old(buf[..offset])
        invariant buf[start..start + i] == bytes[..i]
        invariant buf[start + |bytes|..] == old(buf[..])[start + |bytes|..]
      {
        buf[start + i] := bytes[i];
      }
      offset := start + |bytes|;
      assert buf[..offset] == buf[..start] + buf[start..offset];
    }

    /** A write that fits appends its bytes; one that does not is a panic or an error, by the writer. */
    method Put(w: Write) returns (r: Result<(), Error>)
      requires offset <= buf.Length
      modifies `offset, buf
      ensures r == if old(offset) + |Emit(w)| <= buf.Length then Ok(()) else Err(MisfitError(w))
      ensures r.Ok? ==> offset == old(offset) + |Emit(w)| && buf[..offset] == old(buf[..offset]) + Emit(w)
    {
      var bytes := Emit(w);
      if w.PutVarint? { bytes := WriteVarint(w.n); }
      if w.PutU8? || w.PutVarint? {
        if buf.Length < offset + |bytes| { return Err(Panic); }
      } else {
        if buf.Length - offset < |bytes| { return Err(BufferSize); }
      }
      Copy(bytes);
      r := Ok(());
    }

    /** The error is that of the first write that does not fit. */
    method PutAll(ws: seq<Write>) returns (r: Result<(), Error>)
      requires offset <= buf.Length
      modifies `offset, buf
      ensures r == match FirstMisfit(ws, buf.Length - old(offset))
                   case None => Ok(())
                   case Some(w) => Err(MisfitError(w))
      ensures r.Ok? ==> offset == old(offset) + |EmitAll(ws)| <= buf.Length
      ensures r.Ok? ==> buf[..offset] == old(buf[..offset]) + EmitAll(ws)
    {
      ghost var room, start, before := buf.Length - offset, offset, buf[..offset];
      assert ws[..0] == [] && ws[0..] == ws && EmitAll([]) == [];
      for i := 0 to |ws|
        invariant start <= offset <= buf.Length && offset == start + |EmitAll(ws[..i])|
        invariant buf[..offset] == before + EmitAll(ws[..i])
        invariant FirstMisfit(ws, room) == FirstMisfit(ws[i..], buf.Length - offset)
      {
        NextWrite(ws, i, buf.Length - offset, before);
        r := Put(ws[i]);
        if r.Err? { return; }
      }
      assert ws[..|ws|] == ws;
      r := Ok(());
    }

    /** Afterwards the buffer starts with type and flags, remaining length and body, with no gap. */
    method FinalizeFixedHeader(typeAndFlags: byte) returns (r: Result<(), Error>)
      requires headerStart == MAX_HEADER <= offset <= buf.Length
      modifies this, buf
      ensures r == if old(offset) - MAX_HEADER <= MAX_VARINT then Ok(()) else Err(Panic)
      ensures r.Ok? ==> headerStart == 0 && offset <= buf.Length
      ensures r.Ok? ==> buf[..offset] == Frame(typeAndFlags, old(buf[MAX_HEADER..offset]))
    {
      var remaining := offset - MAX_HEADER;
      if remaining > MAX_VARINT { return Err(Panic); }
      EncodedLength(remaining);
      ghost var body := buf[MAX_HEADER..offset];
      offset := headerStart - VarintLen(remaining) - 1;
      headerStart := offset;
      var header := [typeAndFlags] + EncodeVarint(remaining);
      ghost var was := buf[..];
      Copy(header);
      offset := offset + remaining;
      ghost var packet := header + body;
      HeaderMeetsBody(was, buf[..], headerStart, header, remaining);
      assert buf[headerStart..offset] == packet;
      RotateLeft(buf, offset, headerStart);
      assert buf[..offset][..|packet|] == packet;
      offset := offset - headerStart;
      headerStart := 0;
      r := Ok(());
    }

    /**
     `to_buffer` of every packet on a fresh encoder: it leaves exactly the packet, or fails exactly as
     `EncodeError` says, by an error or by a panic.
     */
    method ToBuffer(p: Packet) returns (r: Result<(), Error>)
      requires WellTyped(p) && offset == headerStart == MAX_HEADER
      modifies this, buf
      ensures r == match EncodeError(p, buf.Length)
                   case None => Ok(())
                   case Some(e) => Err(e)
      ensures r.Ok? ==> headerStart == 0 && offset <= buf.Length
      ensures r.Ok? ==> buf[..offset] == Frame(TypeAndFlags(p), EmitAll(Writes(p).value))
    {
      var ws := Writes(p);
      if buf.Length < offset { return Err(Panic); }
      r := PutAll(Attempted(p));
      if r.Err? { return; }
      if ws.Err? { return Err(ws.error); }
      assert buf[MAX_HEADER..offset] == EmitAll(ws.value) by {
        assert buf[..offset][MAX_HEADER..] == EmitAll(ws.value);
      }
      r := FinalizeFixedHeader(TypeAndFlags(p));
    }
  }

  /** It succeeds if and only if the identifier is there, the length is in range and the body fits behind five bytes. */
  lemma EncodesIff(p: Packet, cap: nat)
    requires WellTyped(p)
    ensures EncodeError(p, cap).None? <==>
              && Writes(p).Ok? && MAX_HEADER + |EmitAll(Writes(p).value)| <= cap
              && |EmitAll(Writes(p).value)| <= MAX_VARINT
  {
    if cap >= MAX_HEADER { NoMisfitIff(Attempted(p), cap - MAX_HEADER); }
  }

  /**
   What `send` does with a packet: a grant of the announced size, and the encoder on it. It succeeds
   if and only if there are no properties, or the packet is a CONNECT or a DISCONNECT; a PUBLISH with
   properties is never sent.
   */
  method EncodeAnnounced(p: Packet) returns (r: Result<Bytes, Error>)
    requires WellTyped(p) && SoundPacket(p)
    ensures r.Ok? <==> && Writes(p).Ok? && |EmitAll(Writes(p).value)| <= MAX_VARINT
                       && (p.Connect? || p.Disconnect? || Size(p.props) == 0)
    ensures r.Ok? ==> r.value == Frame(TypeAndFlags(p), EmitAll(Writes(p).value))
    ensures r.Err? ==> EncodeError(p, MaxPacketSize(p)) == Some(r.error)
  {
    var grant := new byte[MaxPacketSize(p)];
    var encoder := new MqttEncoder(grant);
    if Writes(p).Ok? { AnnouncedSizeSufficesIff(p); }
    EncodesIff(p, MaxPacketSize(p));
    var done := encoder.ToBuffer(p);
    r := if done.Ok? then Ok(grant[..encoder.offset]) else Err(done.error);
  }

  // ---- what `send` makes of a PUBLISH with properties ----

  /** The writes of a PUBLISH before its properties. */
  function PublishHead(p: Packet): seq<Write>
    requires p.Publish? && AllTyped(p.props) && (!p.qos.AtMostOnce? ==> p.pid.Some?)
  {
    PublishStart(p) + [PutVarint(Size(p.props))]
  }

  function PublishStart(p: Packet): seq<Write>
    requires p.Publish? && (!p.qos.AtMostOnce? ==> p.pid.Some?)
  {
    if p.qos.AtMostOnce? then [PutSlice(p.topic)] else [PutSlice(p.topic), PutU16(p.pid.value)]
  }

  lemma StartLength(p: Packet)
    requires p.Publish? && (!p.qos.AtMostOnce? ==> p.pid.Some?)
    ensures |EmitAll(PublishStart(p))| == 2 + |p.topic| + if p.qos.AtMostOnce? then 0 else 2
  {
    if p.qos.AtMostOnce? { Emit1(PutSlice(p.topic)); } else { Emit2(PutSlice(p.topic), PutU16(p.pid.value)); }
  }

  lemma PublishHeadFills(p: Packet)
    requires WellTyped(p) && p.Publish? && Writes(p).Ok? && Sound(p.props)
    ensures MAX_HEADER + |EmitAll(PublishHead(p))| + |p.payload| == MaxPacketSize(p)
  {
    StartLength(p);
    EmitAllConcat(PublishStart(p), [PutVarint(Size(p.props))]);
    Emit1(PutVarint(Size(p.props)));
    EncodedLength(Size(p.props));
  }

  lemma Regroup(a: seq<Write>, b: seq<Write>, c: seq<Write>, d: seq<Write>)
    ensures a + (b + c) + d == (a + b) + (c + d)
  {
  }

  lemma PublishTail(p: Packet)
    requires WellTyped(p) && p.Publish? && Writes(p).Ok? && p.props.Slice?
    ensures Writes(p).value == PublishHead(p) + (ListWrites(p.props.list) + [PutPayload(p.payload)])
  {
    Regroup(PublishStart(p), [PutVarint(Size(p.props))], ListWrites(p.props.list), [PutPayload(p.payload)]);
  }

  lemma MisfitInTail(head: seq<Write>, tail: seq<Write>, left: nat, room: nat)
    requires |EmitAll(head)| + left == room && |EmitAll(tail)| > left
    ensures FirstMisfit(head + tail, room) == FirstMisfit(tail, left) && FirstMisfit(tail, left).Some?
  {
    FirstMisfitOfConcat(head, tail, room);
    NoMisfitIff(tail, left);
  }

  lemma TailLength(p: Packet)
    requires p.Publish? && Sound(p.props) && p.props.Slice?
    ensures |EmitAll(ListWrites(p.props.list) + [PutPayload(p.payload)])| == Size(p.props) + |p.payload|
  {
    PropertiesEmitSize(p.props);
    EmitAllConcat(ListWrites(p.props.list), [PutPayload(p.payload)]);
    Emit1(PutPayload(p.payload));
  }

  /** The announced size leaves the properties only the room meant for the payload. */
  lemma PublishError(p: Packet)
    requires WellTyped(p) && p.Publish? && Writes(p).Ok? && Sound(p.props) && p.props.Slice?
    requires Size(p.props) > 0
    ensures var w := FirstMisfit(ListWrites(p.props.list) + [PutPayload(p.payload)], |p.payload|);
            w.Some? && EncodeError(p, MaxPacketSize(p)) == Some(MisfitError(w.value))
  {
    PublishHeadFills(p);
    PublishTail(p);
    TailLength(p);
    MisfitInTail(PublishHead(p), ListWrites(p.props.list) + [PutPayload(p.payload)], |p.payload|,
                 MaxPacketSize(p) - MAX_HEADER);
  }

  lemma PropertiesEmitSize(ps: Properties)
    requires Sound(ps) && ps.Slice?
    ensures |EmitAll(ListWrites(ps.list))| == Size(ps)
  {
    ListWritesEmit(ps.list);
    PropertyBlockRoundTrip(ps);
  }

  /** With an empty payload the first property identifier is written past the grant: `send` panics. */
  lemma EmptyPayloadPanics(p: Packet)
    requires WellTyped(p) && p.Publish? && Writes(p).Ok? && Sound(p.props) && p.props.Slice?
    requires Size(p.props) > 0 && p.payload == []
    ensures EncodeError(p, MaxPacketSize(p)) == Some(Panic)
  {
    PublishError(p);
    assert ListWrites(p.props.list)[0] == PutU8(Id(p.props.list[0]));
  }

  /** With a payload at least as long as the properties these fit, and the payload is what is refused. */
  lemma LongPayloadIsRefused(p: Packet)
    requires WellTyped(p) && p.Publish? && Writes(p).Ok? && Sound(p.props) && p.props.Slice?
    requires 0 < Size(p.props) <= |p.payload|
    ensures EncodeError(p, MaxPacketSize(p)) == Some(BufferSize)
  {
    PublishError(p);
    PropertiesEmitSize(p.props);
    FirstMisfitOfConcat(ListWrites(p.props.list), [PutPayload(p.payload)], |p.payload|);
  }
}
