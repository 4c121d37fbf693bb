/**
 A reader of CONNECT as sections 3.1.2 and 3.1.3 of MQTT 5.0 lay the packet out, independent of the
 encoder: what a broker makes of the client's first packet.
 */
module ConnectReader {
  import opened Base
  import opened Wire
  import opened Varint
  import opened Properties
  import opened Packets
  import opened Decoder
  import opened RoundTrip

  datatype WillRead = WillRead(qos: QoS, retain: bool, block: Bytes, topic: Bytes, data: Bytes)

  datatype ConnectRead = ConnectRead(
    name: Bytes, level: byte, cleanStart: bool, keepAlive: nat, block: Bytes, clientId: Bytes,
    will: Option<WillRead>, username: Option<Bytes>, password: Option<Bytes>)

  // ---- connect flags, section 3.1.2.3 ----

  datatype Flags = Flags(cleanStart: bool, will: bool, willQos: QoS, willRetain: bool, password: bool, username: bool)

  /** Bit 0 is reserved, QoS 3 is refused, and without a will its QoS and retain bits are 0. */
  function ReadFlags(f: byte): Option<Flags> {
    var qos := QosOf(f / 8 % 4);
    if f % 2 == 1 || qos.None? then None
    else if f / 4 % 2 == 0 && (f / 8 % 4 != 0 || f / 32 % 2 == 1) then None
    else Some(Flags(f / 2 % 2 == 1, f / 4 % 2 == 1, qos.value, f / 32 % 2 == 1, f / 64 % 2 == 1, f / 128 == 1))
  }

  // ---- fields ----

  datatype Field = Field(bytes: Bytes, next: nat) | NoField

  function TextField(b: Bytes, o: nat): Field {
    if o > |b| then NoField
    else match StrAt(b, o)
      case Ok(s) => Field(s, o + 2 + |s|)
      case Err(_) => NoField
  }

  function BinaryField(b: Bytes, o: nat): Field {
    if o > |b| then NoField
    else match SliceAt(b, o)
      case Ok(s) => Field(s, o + 2 + |s|)
      case Err(_) => NoField
  }

  function BlockField(b: Bytes, o: nat): Field {
    if o > |b| then NoField
    else match PropsAt(b, o)
      case Props(block, next) => Field(block, next)
      case NoProps(_) => NoField
  }

  /** The readers of the three kinds of field. */
  datatype Readers = Readers(text: (Bytes, nat) -> Field, binary: (Bytes, nat) -> Field, block: (Bytes, nat) -> Field)

  const Standard := Readers(TextField, BinaryField, BlockField)

  /** Section 3.1.2: the variable header up to the properties. */
  datatype HeadRead = HeadRead(name: Bytes, level: byte, flags: Flags, keepAlive: nat, next: nat) | NoHead

  function ReadHead(r: Readers, b: Bytes, o: nat): HeadRead {
    match r.text(b, o)
    case NoField => NoHead
    case Field(name, i) =>
      if i + 4 > |b| || ReadFlags(b[i + 1]).None? then NoHead
      else HeadRead(name, b[i], ReadFlags(b[i + 1]).value, Big(b[i + 2], b[i + 3]), i + 4)
  }

  /** Section 3.1.3: will properties, will topic and will payload, if the flag announces them. */
  datatype WillField = WillField(will: Option<WillRead>, next: nat) | NoWill

  function ReadWill(r: Readers, b: Bytes, o: nat, f: Flags): WillField {
    if !f.will then WillField(None, o)
    else match r.block(b, o)
      case NoField => NoWill
      case Field(block, i) =>
        match r.text(b, i)
        case NoField => NoWill
        case Field(topic, j) =>
          match r.binary(b, j)
          case NoField => NoWill
          case Field(data, k) => WillField(Some(WillRead(f.willQos, f.willRetain, block, topic, data)), k)
  }

  datatype CredentialField = CredentialField(value: Option<Bytes>, next: nat) | NoCredential

  function ReadUsername(r: Readers, b: Bytes, o: nat, f: Flags): CredentialField {
    if !f.username then CredentialField(None, o)
    else match r.text(b, o)
      case NoField => NoCredential
      case Field(s, i) => CredentialField(Some(s), i)
  }

  function ReadPassword(r: Readers, b: Bytes, o: nat, f: Flags): CredentialField {
    if !f.password then CredentialField(None, o)
    else match r.binary(b, o)
      case NoField => NoCredential
      case Field(s, i) => CredentialField(Some(s), i)
  }

  /** The payload behind the client identifier, in the order of section 3.1.3; nothing may follow it. */
  function ReadTail(r: Readers, b: Bytes, o: nat, head: HeadRead, block: Bytes, clientId: Bytes): Option<ConnectRead>
    requires head.HeadRead?
  {
    match ReadWill(r, b, o, head.flags)
    case NoWill => None
    case WillField(will, i) =>
      match ReadUsername(r, b, i, head.flags)
      case NoCredential => None
      case CredentialField(username, j) =>
        match ReadPassword(r, b, j, head.flags)
        case NoCredential => None
        case CredentialField(password, k) =>
          if k != |b| then None
          else Some(ConnectRead(head.name, head.level, head.flags.cleanStart, head.keepAlive, block, clientId,
                                will, username, password))
  }

  function ReadBody(r: Readers, b: Bytes, o: nat): Option<ConnectRead> {
    match ReadHead(r, b, o)
    case NoHead => None
    case HeadRead(name, level, flags, keepAlive, i) =>
      match r.block(b, i)
      case NoField => None
      case Field(block, j) =>
        match r.text(b, j)
        case NoField => None
        case Field(clientId, k) => ReadTail(r, b, k, HeadRead(name, level, flags, keepAlive, i), block, clientId)
  }

  /** A packet of type 1 with flags 0, whose remaining length is what is there (section 3.1.1). */
  function ReadConnect(b: Bytes): Option<ConnectRead> {
    match TryNew(b)
    case Err(_) => None
    case Ok(f) => if f.typ != 0x10 || b[0] % 16 != 0 || f.PacketLen() != |b| then None
      else ReadBody(Standard, b, f.headerLen)
  }

  // ---- readers of fields ----

  /** Readers that read what is there, wherever it stands. */
  ghost predicate Honest(r: Readers) {
    && (forall b: Bytes, o: nat, s: Bytes {:trigger At(b, o, Prefixed(s))} ::
          IsUtf8(s) && |s| < 0x1_0000 && At(b, o, Prefixed(s)) ==> r.text(b, o) == Field(s, o + |Prefixed(s)|))
    && (forall b: Bytes, o: nat, s: Bytes {:trigger At(b, o, Prefixed(s))} ::
          |s| < 0x1_0000 && At(b, o, Prefixed(s)) ==> r.binary(b, o) == Field(s, o + |Prefixed(s)|))
  }

  ghost predicate ReadsBlock(r: Readers, wire: Bytes, block: Bytes) {
    forall b: Bytes, o: nat {:trigger At(b, o, wire)} :: At(b, o, wire) ==> r.block(b, o) == Field(block, o + |wire|)
  }

  lemma StandardIsHonest()
    ensures Honest(Standard)
  {
    forall b: Bytes, o: nat, s: Bytes | |s| < 0x1_0000 && At(b, o, Prefixed(s))
      ensures Standard.binary(b, o) == Field(s, o + |Prefixed(s)|)
      ensures IsUtf8(s) ==> Standard.text(b, o) == Field(s, o + |Prefixed(s)|)
    {
      SliceBack(b, o, s);
    }
  }

  lemma StandardReadsBlock(ps: Properties)
    requires Sound(ps)
    ensures ReadsBlock(Standard, WithLength(ps), Content(ps))
  {
    PropertiesAreCarried(ps);
  }

  // ---- on bytes, whatever the properties ----

  /** A CONNECT with its property blocks as bytes, both as written and as to be read. */
  datatype Draft = Draft(
    fields: ConnectRead, flags: byte, wire: Bytes, willWire: Bytes)

  function DraftFlags(c: ConnectRead): Flags {
    Flags(c.cleanStart, c.will.Some?, if c.will.Some? then c.will.value.qos else AtMostOnce,
          c.will.Some? && c.will.value.retain, c.password.Some?, c.username.Some?)
  }

  predicate Short(s: Bytes) {
    |s| < 0x1_0000
  }

  /** Strings in range and the flag byte right. */
  predicate Regular(d: Draft) {
    var c := d.fields;
    && ReadFlags(d.flags) == Some(DraftFlags(c)) && c.keepAlive < 0x1_0000
    && IsUtf8(c.name) && Short(c.name) && IsUtf8(c.clientId) && Short(c.clientId)
    && (c.will.Some? ==> IsUtf8(c.will.value.topic) && Short(c.will.value.topic) && Short(c.will.value.data))
    && (c.username.Some? ==> IsUtf8(c.username.value) && Short(c.username.value))
    && (c.password.Some? ==> Short(c.password.value))
  }

  function HeadPart(d: Draft): Bytes {
    Prefixed(d.fields.name) + [d.fields.level, d.flags] + U16Bytes(d.fields.keepAlive)
  }

  function WillPart(d: Draft): Bytes {
    if d.fields.will.None? then []
    else d.willWire + (Prefixed(d.fields.will.value.topic) + Prefixed(d.fields.will.value.data))
  }

  /** Readers fit for the blocks of this packet. */
  ghost predicate FitFor(r: Readers, d: Draft) {
    && Honest(r) && ReadsBlock(r, d.wire, d.fields.block)
    && (d.fields.will.Some? ==> ReadsBlock(r, d.willWire, d.fields.will.value.block))
  }

  datatype Encounter = Encounter(r: Readers, d: Draft)

  /** A regular packet met by readers that are fit for it. */
  type Meeting = e: Encounter | FitFor(e.r, e.d) && Regular(e.d)
    ghost witness (EmptyMeeting(); Encounter(Standard, EmptyDraft))

  const EmptyDraft := Draft(ConnectRead([], 5, false, 0, [], [], None, None, None), 0, [0], [])

  lemma EmptyMeeting()
    ensures FitFor(Standard, EmptyDraft) && Regular(EmptyDraft)
  {
    StandardIsHonest();
    assert Sound(Slice([])) && WithLength(Slice([])) == [0] && Content(Slice([])) == [];
    StandardReadsBlock(Slice([]));
  }

  lemma HeadBack(e: Meeting, b: Bytes, o: nat)
    requires At(b, o, HeadPart(e.d))
    ensures var c := e.d.fields;
            ReadHead(e.r, b, o) == HeadRead(c.name, c.level, DraftFlags(c), c.keepAlive, o + |HeadPart(e.d)|)
  {
    HeadBackFrom(e, b, o, U16Bytes(e.d.fields.keepAlive));
  }

  lemma HeadBackFrom(e: Meeting, b: Bytes, o: nat, u: Bytes)
    requires |u| == 2 && Big(u[0], u[1]) == e.d.fields.keepAlive
    requires At(b, o, Prefixed(e.d.fields.name) + [e.d.fields.level, e.d.flags] + u)
    ensures var c := e.d.fields;
            ReadHead(e.r, b, o) == HeadRead(c.name, c.level, DraftFlags(c), c.keepAlive, o + |Prefixed(c.name)| + 4)
  {
    FourAfter(b, o, Prefixed(e.d.fields.name), [e.d.fields.level, e.d.flags], u);
  }

  lemma FourAfter(b: Bytes, o: nat, x: Bytes, y: Bytes, z: Bytes)
    requires |y| == 2 && |z| == 2 && At(b, o, x + y + z)
    ensures At(b, o, x) && o + |x| + 4 <= |b|
    ensures var i := o + |x|; b[i] == y[0] && b[i + 1] == y[1] && b[i + 2] == z[0] && b[i + 3] == z[1]
  {
    var i := o + |x|;
    AtSplit(b, o, x + y, z);
    AtSplit(b, o, x, y);
    AtByte(b, i, y, 0);
    AtByte(b, i, y, 1);
    AtByte(b, i + 2, z, 0);
    AtByte(b, i + 2, z, 1);
  }

  lemma WillBack(e: Meeting, b: Bytes, o: nat)
    requires At(b, o, WillPart(e.d))
    ensures ReadWill(e.r, b, o, DraftFlags(e.d.fields)) == WillField(e.d.fields.will, o + |WillPart(e.d)|)
  {
    if e.d.fields.will.Some? {
      var w := e.d.fields.will.value;
      AtSplit(b, o, e.d.willWire, Prefixed(w.topic) + Prefixed(w.data));
      AtSplit(b, o + |e.d.willWire|, Prefixed(w.topic), Prefixed(w.data));
    }
  }

  lemma UsernameBack(e: Meeting, b: Bytes, o: nat)
    requires At(b, o, OptionalBytes(e.d.fields.username))
    ensures ReadUsername(e.r, b, o, DraftFlags(e.d.fields))
            == CredentialField(e.d.fields.username, o + |OptionalBytes(e.d.fields.username)|)
  {
  }

  lemma PasswordBack(e: Meeting, b: Bytes, o: nat)
    requires At(b, o, OptionalBytes(e.d.fields.password))
    ensures ReadPassword(e.r, b, o, DraftFlags(e.d.fields))
            == CredentialField(e.d.fields.password, o + |OptionalBytes(e.d.fields.password)|)
  {
  }

  /** The six parts of the body. */
  datatype Parts = Parts(head: Bytes, props: Bytes, id: Bytes, will: Bytes, username: Bytes, password: Bytes)

  function PartsOf(d: Draft): Parts {
    Parts(HeadPart(d), d.wire, Prefixed(d.fields.clientId), WillPart(d),
          OptionalBytes(d.fields.username), OptionalBytes(d.fields.password))
  }

  ghost predicate Laid(b: Bytes, h: nat, x: Parts) {
    && At(b, h, x.head) && At(b, h + |x.head|, x.props) && At(b, h + |x.head| + |x.props|, x.id)
    && var o := h + |x.head| + |x.props| + |x.id|;
       && At(b, o, x.will) && At(b, o + |x.will|, x.username) && At(b, o + |x.will| + |x.username|, x.password)
       && o + |x.will| + |x.username| + |x.password| == |b|
  }

  function Joined(x: Parts): Bytes {
    x.head + x.props + x.id + x.will + x.username + x.password
  }

  lemma JoinedIsLaid(b: Bytes, h: nat, x: Parts)
    requires At(b, h, Joined(x)) && h + |Joined(x)| == |b|
    ensures Laid(b, h, x)
  {
    AtSplit(b, h, x.head + x.props + x.id + x.will + x.username, x.password);
    AtSplit(b, h, x.head + x.props + x.id + x.will, x.username);
    AtSplit(b, h, x.head + x.props + x.id, x.will);
    AtSplit(b, h, x.head + x.props, x.id);
    AtSplit(b, h, x.head, x.props);
  }

  lemma TailGlue(
      r: Readers, b: Bytes, o: nat, head: HeadRead, block: Bytes, clientId: Bytes,
      will: Option<WillRead>, i: nat, username: Option<Bytes>, j: nat, password: Option<Bytes>)
    requires head.HeadRead? && ReadWill(r, b, o, head.flags) == WillField(will, i)
    requires ReadUsername(r, b, i, head.flags) == CredentialField(username, j)
    requires ReadPassword(r, b, j, head.flags) == CredentialField(password, |b|)
    ensures ReadTail(r, b, o, head, block, clientId) == Some(ConnectRead(
              head.name, head.level, head.flags.cleanStart, head.keepAlive, block, clientId, will, username, password))
  {
  }

  lemma BodyGlue(
      r: Readers, b: Bytes, h: nat, head: HeadRead, block: Bytes, j: nat, clientId: Bytes, k: nat, c: ConnectRead)
    requires head.HeadRead? && ReadHead(r, b, h) == head && r.block(b, head.next) == Field(block, j)
    requires r.text(b, j) == Field(clientId, k) && ReadTail(r, b, k, head, block, clientId) == Some(c)
    ensures ReadBody(r, b, h) == Some(c)
  {
  }

  lemma TailBack(e: Meeting, b: Bytes, o: nat, i: nat, j: nat, head: HeadRead)
    requires At(b, o, WillPart(e.d)) && i == o + |WillPart(e.d)| && At(b, i, OptionalBytes(e.d.fields.username))
    requires j == i + |OptionalBytes(e.d.fields.username)| && At(b, j, OptionalBytes(e.d.fields.password))
    requires j + |OptionalBytes(e.d.fields.password)| == |b|
    requires head.HeadRead? && head.name == e.d.fields.name && head.level == e.d.fields.level
    requires head.flags == DraftFlags(e.d.fields) && head.keepAlive == e.d.fields.keepAlive
    ensures ReadTail(e.r, b, o, head, e.d.fields.block, e.d.fields.clientId) == Some(e.d.fields)
  {
    var c := e.d.fields;
    WillBack(e, b, o);
    UsernameBack(e, b, i);
    PasswordBack(e, b, j);
    TailGlue(e.r, b, o, head, c.block, c.clientId, c.will, i, c.username, j, c.password);
  }

  function HeadOf(c: ConnectRead, next: nat): HeadRead {
    HeadRead(c.name, c.level, DraftFlags(c), c.keepAlive, next)
  }

  lemma FrontBack(e: Meeting, b: Bytes, h: nat, i: nat, j: nat, k: nat)
    requires At(b, h, HeadPart(e.d)) && i == h + |HeadPart(e.d)| && At(b, i, e.d.wire) && j == i + |e.d.wire|
    requires At(b, j, Prefixed(e.d.fields.clientId)) && k == j + |Prefixed(e.d.fields.clientId)|
    requires ReadTail(e.r, b, k, HeadOf(e.d.fields, i), e.d.fields.block, e.d.fields.clientId) == Some(e.d.fields)
    ensures ReadBody(e.r, b, h) == Some(e.d.fields)
  {
    HeadBack(e, b, h);
    BodyGlue(e.r, b, h, HeadOf(e.d.fields, i), e.d.fields.block, j, e.d.fields.clientId, k, e.d.fields);
  }

  lemma BodyBack(e: Meeting, b: Bytes, h: nat, x: Parts)
    requires x == PartsOf(e.d) && Laid(b, h, x)
    ensures ReadBody(e.r, b, h) == Some(e.d.fields)
  {
    var i := h + |x.head|;
    var j := i + |x.props|;
    var k := j + |x.id|;
    TailBack(e, b, k, k + |x.will|, k + |x.will| + |x.username|, HeadOf(e.d.fields, i));
    FrontBack(e, b, h, i, j, k);
  }

  lemma BodyAt(e: Meeting, b: Bytes, h: nat)
    requires At(b, h, Joined(PartsOf(e.d))) && h + |Joined(PartsOf(e.d))| == |b|
    ensures ReadBody(e.r, b, h) == Some(e.d.fields)
  {
    JoinedIsLaid(b, h, PartsOf(e.d));
    BodyBack(e, b, h, PartsOf(e.d));
  }

  lemma FrameBack(e: Meeting, body: Bytes)
    requires e.r == Standard && |body| <= MAX_VARINT && body == Joined(PartsOf(e.d))
    ensures ReadConnect(Frame(0x10, body)) == Some(e.d.fields)
  {
    FrameHeader(0x10, body);
    BodyAt(e, Frame(0x10, body), 1 + VarintLen(|body|));
  }

  // ---- packets ----

  /** The will as the broker is to see it. */
  function WillOf(will: Option<LastWill>): Option<WillRead> {
    if will.None? then None
    else
      var w := will.value;
      Some(WillRead(w.qos, w.retained, Content(w.props), w.topic, w.data))
  }

  /** The fields of a CONNECT as the broker is to see them. */
  function FieldsOf(p: Packet): ConnectRead
    requires p.Connect?
  {
    ConnectRead(p.name, p.level, p.cleanStart, p.keepAlive, Content(p.props), p.clientId,
                WillOf(p.will), p.username, p.password)
  }

  /** In-range strings, and property lists the encoder measures correctly. */
  ghost predicate Connectable(p: Packet) {
    && WellTyped(p) && p.Connect? && SoundPacket(p) && |ConnectBody(p)| <= MAX_VARINT
    && Short(p.name) && Short(p.clientId)
    && (p.will.Some? ==> Short(p.will.value.topic) && Short(p.will.value.data))
    && (p.username.Some? ==> Short(p.username.value)) && (p.password.Some? ==> Short(p.password.value))
  }

  lemma Digits(a: nat, w: nat, q: nat, r: nat, p: nat, u: nat, f: nat)
    requires a < 2 && w < 2 && q < 4 && r < 2 && p < 2 && u < 2
    requires f == 2 * a + 4 * w + 8 * q + 32 * r + 64 * p + 128 * u
    ensures f % 2 == 0 && f / 2 % 2 == a && f / 4 % 2 == w && f / 8 % 4 == q
    ensures f / 32 % 2 == r && f / 64 % 2 == p && f / 128 == u && f < 256
  {
    assert f / 2 == a + 2 * w + 4 * q + 16 * r + 32 * p + 64 * u;
    assert f / 4 == w + 2 * q + 8 * r + 16 * p + 32 * u;
    assert f / 8 == q + 4 * r + 8 * p + 16 * u;
    assert f / 32 == r + 2 * p + 4 * u;
    assert f / 64 == p + 2 * u;
  }

  lemma FlagsReadBack(p: Packet)
    requires p.Connect?
    ensures ReadFlags(ConnectFlags(p)) == Some(DraftFlags(FieldsOf(p)))
  {
    var q, r := if p.will.Some? then p.will.value.qos.Code() else 0, p.will.Some? && p.will.value.retained;
    var clean, will := Bit(p.cleanStart), Bit(p.will.Some?);
    Digits(clean, will, q, Bit(r), Bit(p.password.Some?), Bit(p.username.Some?), ConnectFlags(p));
  }

  ghost function DraftOf(p: Packet): Draft
    requires WellTyped(p) && p.Connect?
  {
    var willProps := if p.will.Some? then WithLength(p.will.value.props) else [];
    Draft(FieldsOf(p), ConnectFlags(p), WithLength(p.props), willProps)
  }

  lemma DraftIsRegular(p: Packet)
    requires Connectable(p)
    ensures Regular(DraftOf(p))
  {
    FlagsReadBack(p);
  }

  lemma DraftIsBody(p: Packet)
    requires WellTyped(p) && p.Connect?
    ensures Joined(PartsOf(DraftOf(p))) == ConnectBody(p)
  {
  }

  lemma StandardIsFit(p: Packet)
    requires Connectable(p)
    ensures FitFor(Standard, DraftOf(p))
  {
    StandardIsHonest();
    StandardReadsBlock(p.props);
    if p.will.Some? { StandardReadsBlock(p.will.value.props); }
  }

  lemma Meet(p: Packet) returns (e: Meeting)
    requires Connectable(p)
    ensures e == Encounter(Standard, DraftOf(p)) && Joined(PartsOf(e.d)) == ConnectBody(p)
  {
    DraftIsRegular(p);
    StandardIsFit(p);
    DraftIsBody(p);
    e := Encounter(Standard, DraftOf(p));
  }

  lemma BodyReadsBack(p: Packet, body: Bytes, c: ConnectRead)
    requires Connectable(p) && body == ConnectBody(p) && c == FieldsOf(p)
    ensures ReadConnect(Frame(0x10, body)) == Some(c)
  {
    var e := Meet(p);
    FrameBack(e, body);
  }

  /** The CONNECT that the encoder writes is read by the standard's layout as exactly the fields of the packet. */
  lemma ConnectReadsBack(p: Packet)
    requires Connectable(p)
    ensures Writes(p).Ok? && ReadConnect(Frame(TypeAndFlags(p), EmitAll(Writes(p).value))) == Some(FieldsOf(p))
  {
    ConnectWritesEmit(p);
    BodyReadsBack(p, ConnectBody(p), FieldsOf(p));
  }
}
