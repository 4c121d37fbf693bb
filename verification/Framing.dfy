/** Cutting a byte stream that arrives in arbitrary chunks into packets. */
module Framing {
  import opened Base
  import opened Wire
  import opened Packets
  import opened Decoder

  // ---- what a full header is, on bytes ----

  /** `try_parse_header`: for a PUBLISH the topic and two more bytes must be there; the result is the packet length. */
  function ParseHeader(b: Bytes): Result<nat, Error> {
    var f :- TryNew(b);
    TryNewStaysInside(b);
    if f.typ == 0x30 then
      var topic :- StrAt(b, f.headerLen);
      if |b| - (f.headerLen + 2 + |topic|) < 2 then Err(InsufficientBytes) else Ok(f.PacketLen())
    else Ok(f.PacketLen())
  }

  /** The bytes taken one at a time before the header parses, fails, the stream ends or the buffer is full. */
  function HeaderEnd(s: Bytes, n: nat, cap: nat): (r: nat)
    requires n <= |s| && n <= cap
    ensures n <= r <= |s| && r <= cap
    decreases |s| - n
  {
    if n == |s| || n == cap || ParseHeader(s[..n]) != Err(InsufficientBytes) then n else HeaderEnd(s, n + 1, cap)
  }

  datatype Received =
    | Partial(qos: QoS, pid: Option<nat>, topic: Bytes, head: Bytes, packetLen: nat)
    | PingResp
    | Whole(packet: Packet)
    | Undecodable(error: Error)
    | InvalidData
    | NotConnected
    | Crash
    | Spin
  {
    /** `recv` got as far as decoding. */
    predicate Decoded() {
      Partial? || PingResp? || Whole? || Undecodable?
    }
  }

  /** `ReceivedPacket::from_buffer` */
  function FromBuffer(b: Bytes): Received {
    match TryNew(b)
    case Err(e) => Undecodable(e)
    case Ok(f) =>
      TryNewStaysInside(b);
      if f.typ == 0x30 then PartialPublishFrom(b, f)
      else if f.typ == 0xD0 then PingResp
      else match DecodeBody(b, f)
        case Err(e) => Undecodable(e)
        case Ok(p) => Whole(p)
  }

  function PartialPublishFrom(b: Bytes, f: FixedHeader): Received
    requires f.headerLen <= |b|
  {
    match StrAt(b, f.headerLen)
    case Err(e) => Undecodable(e)
    case Ok(topic) =>
      var head := b[..Min(f.PacketLen(), |b|)];
      if f.qos.AtMostOnce? then Partial(f.qos, None, topic, head, f.PacketLen())
      else match PidAt(b, f.headerLen + 2 + |topic|)
        case Err(e) => Undecodable(e)
        case Ok(pid) => Partial(f.qos, Some(pid), topic, head, f.PacketLen())
  }

  /** `from_buffer` with its decoder: the PUBLISH arm. */
  method ReadPartialPublish(b: Bytes, f: FixedHeader) returns (r: Received)
    requires f.headerLen <= |b|
    ensures r == PartialPublishFrom(b, f)
  {
    var decoder := new MqttDecoder(b, f);
    var topic := decoder.NextStr();
    if topic.Err? { return Undecodable(topic.error); }
    var pid := None;
    if !f.qos.AtMostOnce? {
      var n := decoder.NextPid();
      if n.Err? { return Undecodable(n.error); }
      pid := Some(n.value);
    }
    r := Partial(f.qos, pid, topic.value, b[..Min(f.PacketLen(), |b|)], f.PacketLen());
  }

  /** `from_buffer` with its decoder: the arms that decode a packet from the buffer alone. */
  method ReadWhole(b: Bytes, f: FixedHeader) returns (r: Result<Packet, Error>)
    requires f.headerLen <= |b| && f.typ != 0x30
    ensures r == DecodeBody(b, f)
  {
    var decoder := new MqttDecoder(b, f);
    if f.typ == 0xE0 { r := decoder.DisconnectFromDecoder(); }
    else if f.typ == 0x20 { r := decoder.ConnAckFromDecoder(); }
    else if f.typ == 0x90 { r := decoder.SubAckFromDecoder(Subscribe); }
    else if f.typ == 0xB0 { r := decoder.SubAckFromDecoder(Unsubscribe); }
    else if f.typ == 0x40 { r := decoder.AckFromDecoder(PubAck); }
    else if f.typ == 0x50 { r := decoder.AckFromDecoder(PubRec); }
    else if f.typ == 0x60 { r := decoder.AckFromDecoder(PubRel); }
    else if f.typ == 0x70 { r := decoder.AckFromDecoder(PubComp); }
    else { r := Err(InvalidHeader); }
  }

  /** `from_buffer`: dispatch on the packet type. */
  method ReadReceived(b: Bytes) returns (r: Received)
    ensures r == FromBuffer(b)
  {
    var header := TryNew(b);
    if header.Err? { return Undecodable(header.error); }
    TryNewStaysInside(b);
    var f := header.value;
    if f.typ == 0x30 {
      r := ReadPartialPublish(b, f);
    } else if f.typ == 0xD0 {
      r := PingResp;
    } else {
      var packet := ReadWhole(b, f);
      r := if packet.Ok? then Whole(packet.value) else Undecodable(packet.error);
    }
  }

  /** `try_parse_header` with its decoder. */
  method ReadHeader(b: Bytes) returns (r: Result<nat, Error>)
    ensures r == ParseHeader(b)
  {
    var header := TryNew(b);
    if header.Err? { return Err(header.error); }
    TryNewStaysInside(b);
    if header.value.typ == 0x30 {
      var decoder := new MqttDecoder(b, header.value);
      var topic := decoder.NextStr();
      if topic.Err? { return Err(topic.error); }
      if |b| - decoder.offset < 2 { return Err(InsufficientBytes); }
    }
    r := Ok(header.value.PacketLen());
  }

  /** How far one `recv` may read: past the header only once, and no further than the packet or the buffer. */
  function ReadLimit(s: Bytes, cap: nat): (r: nat)
    ensures HeaderEnd(s, 0, cap) <= r
  {
    var n := HeaderEnd(s, 0, cap);
    match ParseHeader(s[..n])
    case Err(_) => n
    case Ok(len) => if n == |s| then n else Max(n, Min(len, cap))
  }

  /** What `recv` returns when it has taken `taken` bytes, if it can have taken that many: a read is never empty. */
  function RecvResult(s: Bytes, cap: nat, taken: nat): Option<Received> {
    var n := HeaderEnd(s, 0, cap);
    if taken > |s| || taken > ReadLimit(s, cap) || taken < n || (taken == n && n < ReadLimit(s, cap)) then None
    else match ParseHeader(s[..n])
      case Err(e) => Some(if e != InsufficientBytes then InvalidData else if n == cap then Spin else NotConnected)
      case Ok(len) =>
        if Min(len, cap) < n then Some(Crash)
        else if Min(len, cap) > n && n == |s| then Some(NotConnected)
        else Some(FromBuffer(s[..taken]))
  }

  /**
   What one `recv` may return when `s` is the stream from the packet's first byte on and the buffer
   holds `cap` bytes: only the size of the last read is open.
   */
  ghost predicate RecvSpec(s: Bytes, cap: nat, r: Received, taken: nat) {
    RecvResult(s, cap, taken) == Some(r)
  }

  // ---- the stream and the reader ----

  /**
   A socket: it hands out what the peer sends in nonempty chunks of its own choosing. An eager one
   hands out all that is asked for and there.
   */
  class Socket {
    const data: Bytes
    const eager: bool
    var at: nat

    ghost predicate Valid()
      reads this
    {
      at <= |data|
    }

    constructor (data: Bytes, eager: bool)
      ensures Valid() && this.data == data && this.eager == eager && at == 0
    {
      this.data, this.eager, at := data, eager, 0;
    }

    /** `Read::read` into `dst[lo..hi]`; 0 means the end of the stream. */
    method Read(dst: array<byte>, lo: nat, hi: nat) returns (n: nat)
      requires Valid() && lo <= hi <= dst.Length
      modifies this, dst
      ensures Valid() && at == old(at) + n && n <= hi - lo
      ensures n == 0 <==> lo == hi || old(at) == |data|
      ensures eager ==> n == Min(hi - lo, |data| - old(at))
      ensures dst[..lo] == old(dst[..lo]) && dst[lo..lo + n] == data[old(at)..at]
    {
      n := 0;
      if lo < hi && at < |data| {
        var most := Min(hi - lo, |data| - at);
        n :| 1 <= n <= most && (eager ==> n == most);
        forall i | lo <= i < lo + n { dst[i] := data[at + i - lo]; }
        at := at + n;
      }
    }

    /** `Read::read_exact`: reads until `dst[lo..hi]` is full or the stream ends. */
    method ReadExact(dst: array<byte>, lo: nat, hi: nat) returns (ok: bool)
      requires Valid() && lo <= hi <= dst.Length
      modifies this, dst
      ensures Valid() && ok == (hi - lo <= |data| - old(at))
      ensures at == if ok then old(at) + (hi - lo) else |data|
      ensures ok ==> dst[..lo] == old(dst[..lo]) && dst[lo..hi] == data[old(at)..at]
    {
      var i := lo;
      ghost var start := at;
      while i < hi
        invariant Valid() && lo <= i <= hi && at == start + (i - lo)
        invariant dst[..lo] == old(dst[..lo]) && dst[lo..i] == data[start..at]
        decreases hi - i
      {
        ghost var before := at;
        label L:
        var n := Read(dst, i, hi);
        if n == 0 { return false; }
        assert dst[..i] == old@L(dst[..i]);
        Append(dst[..], old@L(dst[..]), lo, i, i + n, data, start, before);
        i := i + n;
      }
      ok := true;
    }
  }

  lemma Append(now: Bytes, was: Bytes, lo: nat, i: nat, j: nat, data: Bytes, start: nat, at: nat)
    requires lo <= i <= j <= |now| == |was| && start <= at && at + (j - i) <= |data| && at - start == i - lo
    requires now[..i] == was[..i] && was[lo..i] == data[start..at] && now[i..j] == data[at..at + (j - i)]
    ensures now[..lo] == was[..lo] && now[lo..j] == data[start..at + (j - i)]
  {
    assert now[..lo] == now[..i][..lo] && was[..lo] == was[..i][..lo];
    assert now[lo..i] == now[..i][lo..] && was[lo..i] == was[..i][lo..];
    assert now[lo..j] == now[lo..i] + now[i..j];
    assert data[start..at + (j - i)] == data[start..at] + data[at..at + (j - i)];
  }

  datatype Chunk = Progress | Idle | Failed(r: Received)

  function Known(b: Bytes): Option<nat> {
    match ParseHeader(b)
    case Ok(len) => Some(len)
    case Err(_) => None
  }

  /** The end of the slice `next_read_buf` exposes: one more byte until the length is known. */
  function ChunkEnd(b: Bytes, cap: nat): nat {
    Min(if Known(b).Some? then Known(b).value else |b| + 1, cap)
  }

  /** What `read_chunk` returns; the slice expression panics when its end lies before its start. */
  function ChunkResult(b: Bytes, cap: nat, ended: bool): Chunk {
    if ParseHeader(b).Err? && ParseHeader(b).error != InsufficientBytes then Failed(InvalidData)
    else if ChunkEnd(b, cap) < |b| then Failed(Crash)
    else if ChunkEnd(b, cap) == |b| then Idle
    else if ended then Failed(NotConnected)
    else Progress
  }

  /** `b` is what has been read of the stream `s` from the packet's start on, and its header does not parse yet. */
  ghost predicate Pending(s: Bytes, cap: nat, b: Bytes) {
    |b| <= cap && |b| <= |s| && b == s[..|b|] && HeaderEnd(s, |b|, cap) == HeaderEnd(s, 0, cap)
  }

  lemma NextOfStream(data: Bytes, start: nat, n: nat, i: nat, j: nat)
    requires start + n == i <= j <= |data|
    ensures data[start..][..n] + data[i..j] == data[start..][..n + (j - i)]
  {
  }

  /** One `read_chunk` that leaves the length unknown goes on, any other ends `recv` as specified. */
  lemma GatherStep(s: Bytes, cap: nat, b: Bytes, b': Bytes, r: Chunk)
    requires Pending(s, cap, b) && r == ChunkResult(b, cap, |b| == |s|)
    requires |b'| <= |s| && b' == s[..|b'|]
    requires if r == Progress then |b| < |b'| <= ChunkEnd(b, cap) else b' == b
    ensures r == Progress && Known(b).None? ==> Pending(s, cap, b')
    ensures r == Idle && Known(b).None? ==> RecvSpec(s, cap, Spin, |b|)
    ensures !r.Failed? && Known(b).Some? ==> |b'| <= Known(b).value && RecvSpec(s, cap, FromBuffer(b'), |b'|)
    ensures r.Failed? ==> RecvSpec(s, cap, r.r, |b|)
  {
    if Known(b).None? && r == Progress {
      assert |b'| == |b| + 1;
    } else {
      assert HeaderEnd(s, |b|, cap) == |b|;
    }
  }

  /** An eager socket fills the slice of the last read, as far as the stream goes. */
  lemma EagerStep(s: Bytes, cap: nat, b: Bytes, b': Bytes, r: Chunk)
    requires Pending(s, cap, b) && r == ChunkResult(b, cap, |b| == |s|) && !r.Failed? && Known(b).Some?
    requires if r == Progress then |b'| == Min(ChunkEnd(b, cap), |s|) else b' == b
    ensures |b'| == Min(ReadLimit(s, cap), |s|)
  {
    assert HeaderEnd(s, |b|, cap) == |b|;
  }

  class PacketReader {
    const buf: array<byte>
    var readBytes: nat
    var packetLen: Option<nat>

    ghost predicate Valid()
      reads this
    {
      readBytes <= buf.Length
    }

    /** Where in the stream the packet being received starts. */
    ghost function Start(socket: Socket): int
      reads this, socket
    {
      if packetLen.Some? then socket.at else socket.at - readBytes
    }

    /**
     Between packets, or in the middle of a header that does not parse yet. Every state in which a
     `recv` can be abandoned before its last read satisfies this, so it can be taken up again.
     */
    ghost predicate Aligned(socket: Socket)
      reads this, buf, socket
    {
      && Valid() && socket.Valid()
      && (packetLen.None? ==>
            && readBytes <= socket.at
            && Pending(socket.data[socket.at - readBytes..], buf.Length, buf[..readBytes]))
    }

    constructor (maxTopicLen: nat)
      ensures Valid() && readBytes == 0 && packetLen.None? && fresh(buf)
      ensures buf.Length == MAX_HEADER + 2 + maxTopicLen + 2
    {
      buf := new byte[MAX_HEADER + 2 + maxTopicLen + 2];
      readBytes, packetLen := 0, None;
    }

    /** `reset` */
    method Reset()
      modifies this
      ensures readBytes == 0 && packetLen.None?
    {
      readBytes, packetLen := 0, None;
    }

    /** `try_parse_header` */
    method TryParseHeader() returns (r: Result<nat, Error>)
      requires Valid()
      modifies this`packetLen
      ensures r == ParseHeader(buf[..readBytes])
      ensures packetLen == if r.Ok? then Some(r.value) else old(packetLen)
    {
      r := ReadHeader(buf[..readBytes]);
      if r.Ok? { packetLen := Some(r.value); }
    }

    /** `read_chunk` while the packet length is unknown, which is when `recv` calls it. */
    method ReadChunk(socket: Socket) returns (r: Chunk)
      requires Valid() && socket.Valid() && packetLen.None?
      modifies this, buf, socket
      ensures Valid() && socket.Valid() && socket.at >= old(socket.at)
      ensures r == ChunkResult(old(buf[..readBytes]), buf.Length, old(socket.at) == |socket.data|)
      ensures r == Failed(InvalidData) ==> readBytes == 0 && packetLen.None?
      ensures r != Failed(InvalidData) ==>
                && packetLen == Known(old(buf[..readBytes]))
                && readBytes == old(readBytes) + (socket.at - old(socket.at))
                && buf[..readBytes] == old(buf[..readBytes]) + socket.data[old(socket.at)..socket.at]
      ensures if r == Progress then old(readBytes) < readBytes <= ChunkEnd(old(buf[..readBytes]), buf.Length)
              else socket.at == old(socket.at)
      ensures r == Progress && socket.eager ==>
                readBytes == Min(ChunkEnd(old(buf[..readBytes]), buf.Length),
                                 old(readBytes) + (|socket.data| - old(socket.at)))
    {
      var header := TryParseHeader();
      if header.Err? && header.error != InsufficientBytes {
        Reset();
        return Failed(InvalidData);
      }
      var end := Min(if packetLen.Some? then packetLen.value else readBytes + 1, buf.Length);
      if end < readBytes { return Failed(Crash); }
      if end == readBytes { return Idle; }
      var n := socket.Read(buf, readBytes, end);
      if n == 0 { return Failed(NotConnected); }
      assert buf[..readBytes + n] == buf[..readBytes] + buf[readBytes..readBytes + n];
      readBytes := readBytes + n;
      r := Progress;
    }

    /** One round of the loop in `recv`, on the stream from `start` on: the outcome when it ends `recv` for good. */
    method Round(socket: Socket, ghost start: nat) returns (ended: Option<Received>)
      requires Valid() && socket.Valid() && packetLen.None? && start + readBytes == socket.at
      requires Pending(socket.data[start..], buf.Length, buf[..readBytes])
      modifies this, buf, socket
      ensures Valid() && socket.Valid() && start <= socket.at
      ensures ended.None? ==> start + readBytes == socket.at
      ensures ended.None? && packetLen.None? ==>
                old(readBytes) < readBytes && Pending(socket.data[start..], buf.Length, buf[..readBytes])
      ensures ended.None? && packetLen.Some? ==>
                && readBytes <= packetLen.value
                && RecvSpec(socket.data[start..], buf.Length, FromBuffer(buf[..readBytes]), readBytes)
      ensures ended.None? && packetLen.Some? && socket.eager ==>
                readBytes == Min(ReadLimit(socket.data[start..], buf.Length), |socket.data[start..]|)
      ensures ended.Some? ==>
                !ended.value.Decoded() && RecvSpec(socket.data[start..], buf.Length, ended.value, socket.at - start)
    {
      ghost var s := socket.data[start..];
      ghost var b, at := buf[..readBytes], socket.at;
      var c := ReadChunk(socket);
      NextOfStream(socket.data, start, |b|, at, socket.at);
      ghost var b' := if c == Failed(InvalidData) then b else buf[..readBytes];
      assert |b'| <= |s| && b' == s[..|b'|];
      GatherStep(s, buf.Length, b, b', c);
      if socket.eager && !c.Failed? && packetLen.Some? { EagerStep(s, buf.Length, b, b', c); }
      ended := if c.Failed? then Some(c.r) else if c == Idle && packetLen.None? then Some(Spin) else None;
    }

    /** `recv` */
    method Recv(socket: Socket) returns (r: Received)
      requires Aligned(socket)
      modifies this, buf, socket
      ensures Valid() && socket.Valid() && old(Start(socket)) <= socket.at
      ensures RecvSpec(socket.data[old(Start(socket))..], buf.Length, r, socket.at - old(Start(socket)))
      ensures r.Decoded() ==> packetLen.Some?
      ensures r.Decoded() && socket.eager ==>
                var s := socket.data[old(Start(socket))..];
                socket.at - old(Start(socket)) == Min(ReadLimit(s, buf.Length), |s|)
    {
      ghost var start := Start(socket);
      if packetLen.Some? { Reset(); }
      while packetLen.None?
        invariant Valid() && socket.Valid() && start + readBytes == socket.at
        invariant packetLen.None? ==> Pending(socket.data[start..], buf.Length, buf[..readBytes])
        invariant packetLen.Some? ==>
                    && readBytes <= packetLen.value
                    && RecvSpec(socket.data[start..], buf.Length, FromBuffer(buf[..readBytes]), readBytes)
        invariant packetLen.Some? && socket.eager ==>
                    readBytes == Min(ReadLimit(socket.data[start..], buf.Length), |socket.data[start..]|)
        decreases packetLen.None?, buf.Length - readBytes
      {
        var ended := Round(socket, start);
        if ended.Some? { return ended.value; }
      }
      var len := Min(packetLen.value, readBytes);
      assert len == readBytes;
      r := ReadReceived(buf[..len]);
    }
  }
}
