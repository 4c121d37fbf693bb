/** MQTT 5.0 property blocks, section 2.2.2. */
module Properties {
  import opened Base
  import opened Wire
  import opened Varint

  /** `Property`; the payloads are those of the Rust enum, see `Typed`. */
  datatype Property =
    | PayloadFormatIndicator(b: byte)
    | MessageExpiryInterval(n: nat)
    | ContentType(s: Bytes)
    | ResponseTopic(s: Bytes)
    | CorrelationData(s: Bytes)
    | SubscriptionIdentifier(n: nat)
    | SessionExpiryInterval(n: nat)
    | AssignedClientIdentifier(s: Bytes)
    | ServerKeepAlive(n: nat)
    | AuthenticationMethod(s: Bytes)
    | AuthenticationData(s: Bytes)
    | RequestProblemInformation(b: byte)
    | WillDelayInterval(n: nat)
    | RequestResponseInformation(b: byte)
    | ResponseInformation(s: Bytes)
    | ServerReference(s: Bytes)
    | ReasonString(s: Bytes)
    | ReceiveMaximum(n: nat)
    | TopicAliasMaximum(n: nat)
    | TopicAlias(n: nat)
    | MaximumQoS(b: byte)
    | RetainAvailable(b: byte)
    | UserProperty(key: Bytes, val: Bytes)
    | MaximumPacketSize(n: nat)
    | WildcardSubscriptionAvailable(b: byte)
    | SubscriptionIdentifierAvailable(b: byte)
    | SharedSubscriptionAvailable(b: byte)

  /** What the payload types of the enum promise: 16 and 32 bits, `&str` is UTF-8. Larger varints panic. */
  predicate Typed(p: Property) {
    match p
    case MessageExpiryInterval(n) => n < 0x1_0000_0000
    case ContentType(s) => IsUtf8(s)
    case ResponseTopic(s) => IsUtf8(s)
    case SubscriptionIdentifier(n) => n <= MAX_VARINT
    case SessionExpiryInterval(n) => n < 0x1_0000_0000
    case AssignedClientIdentifier(s) => IsUtf8(s)
    case ServerKeepAlive(n) => n < 0x1_0000
    case AuthenticationMethod(s) => IsUtf8(s)
    case WillDelayInterval(n) => n < 0x1_0000_0000
    case ResponseInformation(s) => IsUtf8(s)
    case ServerReference(s) => IsUtf8(s)
    case ReasonString(s) => IsUtf8(s)
    case ReceiveMaximum(n) => n < 0x1_0000
    case TopicAliasMaximum(n) => n < 0x1_0000
    case TopicAlias(n) => n < 0x1_0000
    case UserProperty(k, v) => IsUtf8(k) && IsUtf8(v)
    case MaximumPacketSize(n) => n < 0x1_0000_0000
    case _ => true
  }

  /** `PropertyIdentifier::from` */
  function Id(p: Property): byte {
    match p
    case PayloadFormatIndicator(_) => 0x01
    case MessageExpiryInterval(_) => 0x02
    case ContentType(_) => 0x03
    case ResponseTopic(_) => 0x08
    case CorrelationData(_) => 0x09
    case SubscriptionIdentifier(_) => 0x0B
    case SessionExpiryInterval(_) => 0x11
    case AssignedClientIdentifier(_) => 0x12
    case ServerKeepAlive(_) => 0x13
    case AuthenticationMethod(_) => 0x15
    case AuthenticationData(_) => 0x16
    case RequestProblemInformation(_) => 0x17
    case WillDelayInterval(_) => 0x18
    case RequestResponseInformation(_) => 0x19
    case ResponseInformation(_) => 0x1A
    case ServerReference(_) => 0x1C
    case ReasonString(_) => 0x1F
    case ReceiveMaximum(_) => 0x21
    case TopicAliasMaximum(_) => 0x22
    case TopicAlias(_) => 0x23
    case MaximumQoS(_) => 0x24
    case RetainAvailable(_) => 0x25
    case UserProperty(_, _) => 0x26
    case MaximumPacketSize(_) => 0x27
    case WildcardSubscriptionAvailable(_) => 0x28
    case SubscriptionIdentifierAvailable(_) => 0x29
    case SharedSubscriptionAvailable(_) => 0x2A
  }

  // ---- writing ----

  /** One value on the wire, by the way it is written. */
  datatype Value =
    | U8(b: byte)
    | U16(n: nat)
    | U32(n: nat)
    | Var(n: nat)
    | Str(s: Bytes)
    | Bin(s: Bytes)
    | Pair(key: Bytes, val: Bytes)
  {
    function Kind(): Kind {
      match this
      case U8(_) => OneByte
      case U16(_) => TwoByte
      case U32(_) => FourByte
      case Var(_) => VarByte
      case Str(_) => Text
      case Bin(_) => Binary
      case Pair(_, _) => TextPair
    }
  }

  /** The writer's table: what `write_property` writes after the identifier. */
  function ValueOf(p: Property): Value {
    match p
    case PayloadFormatIndicator(b) => U8(b)
    case MessageExpiryInterval(n) => U32(n)
    case ContentType(s) => Str(s)
    case ResponseTopic(s) => Str(s)
    case CorrelationData(s) => Bin(s)
    case SubscriptionIdentifier(n) => Var(n)
    case SessionExpiryInterval(n) => U32(n)
    case AssignedClientIdentifier(s) => Str(s)
    case ServerKeepAlive(n) => U16(n)
    case AuthenticationMethod(s) => Str(s)
    case AuthenticationData(s) => Bin(s)
    case RequestProblemInformation(b) => U8(b)
    case WillDelayInterval(n) => U32(n)
    case RequestResponseInformation(b) => U8(b)
    case ResponseInformation(s) => Str(s)
    case ServerReference(s) => Str(s)
    case ReasonString(s) => Str(s)
    case ReceiveMaximum(n) => U16(n)
    case TopicAliasMaximum(n) => U16(n)
    case TopicAlias(n) => U16(n)
    case MaximumQoS(b) => U8(b)
    case RetainAvailable(b) => U8(b)
    case UserProperty(k, v) => Pair(k, v)
    case MaximumPacketSize(n) => U32(n)
    case WildcardSubscriptionAvailable(b) => U8(b)
    case SubscriptionIdentifierAvailable(b) => U8(b)
    case SharedSubscriptionAvailable(b) => U8(b)
  }

  function ValueBytes(v: Value): Bytes {
    match v
    case U8(b) => [b]
    case U16(n) => U16Bytes(n)
    case U32(n) => U32Bytes(n)
    case Var(n) => EncodeVarint(n)
    case Str(s) => Prefixed(s)
    case Bin(s) => Prefixed(s)
    case Pair(k, v) => Prefixed(k) + Prefixed(v)
  }

  /** `write_property` */
  function PropertyBytes(p: Property): Bytes {
    [Id(p)] + ValueBytes(ValueOf(p))
  }

  function BlockBytes(ps: seq<Property>): Bytes {
    if ps == [] then [] else PropertyBytes(ps[0]) + BlockBytes(ps[1..])
  }

  /** A value the wire can carry: strings fit their two-byte length prefix. */
  predicate Transmissible(v: Value) {
    match v
    case U8(_) => true
    case U16(n) => n < 0x1_0000
    case U32(n) => n < 0x1_0000_0000
    case Var(n) => n <= MAX_VARINT
    case Str(s) => IsUtf8(s) && |s| < 0x1_0000
    case Bin(s) => |s| < 0x1_0000
    case Pair(k, v) => IsUtf8(k) && IsUtf8(v) && |k| < 0x1_0000 && |v| < 0x1_0000
  }

  predicate Encodable(p: Property) {
    Typed(p) && Transmissible(ValueOf(p))
  }

  // ---- measuring ----

  /** `Property::size`, with its own table. */
  function PropertySize(p: Property): nat
    requires Typed(p)
  {
    match p
    case PayloadFormatIndicator(_) => 2
    case MessageExpiryInterval(_) => 5
    case ContentType(s) => |s| + 3
    case ResponseTopic(s) => |s| + 3
    case CorrelationData(s) => |s| + 3
    case SubscriptionIdentifier(n) => VarintLen(n) + n + 1
    case SessionExpiryInterval(_) => 5
    case AssignedClientIdentifier(s) => |s| + 3
    case ServerKeepAlive(_) => 3
    case AuthenticationMethod(s) => |s| + 3
    case AuthenticationData(s) => |s| + 3
    case RequestProblemInformation(_) => 2
    case WillDelayInterval(_) => 5
    case RequestResponseInformation(_) => 2
    case ResponseInformation(s) => |s| + 3
    case ServerReference(s) => |s| + 3
    case ReasonString(s) => |s| + 3
    case ReceiveMaximum(_) => 3
    case TopicAliasMaximum(_) => 3
    case TopicAlias(_) => 3
    case MaximumQoS(_) => 2
    case RetainAvailable(_) => 2
    case UserProperty(k, v) => |k| + |v| + 5
    case MaximumPacketSize(_) => 5
    case WildcardSubscriptionAvailable(_) => 2
    case SubscriptionIdentifierAvailable(_) => 2
    case SharedSubscriptionAvailable(_) => 2
  }

  function SizeSum(ps: seq<Property>): nat
    requires forall i :: 0 <= i < |ps| ==> Typed(ps[i])
  {
    if ps == [] then 0 else PropertySize(ps[0]) + SizeSum(ps[1..])
  }

  /** A subscription identifier other than 0, whose size is wrong. */
  predicate Mismeasured(p: Property) {
    p.SubscriptionIdentifier? && p.n > 0
  }

  /** `Property::size` is the number of bytes written, except for a nonzero subscription identifier. */
  lemma PropertySizeIsExactIff(p: Property)
    requires Typed(p)
    ensures PropertySize(p) == |PropertyBytes(p)| <==> !Mismeasured(p)
  {
    if p.SubscriptionIdentifier? { EncodedLength(p.n); }
  }

  predicate Measurable(ps: seq<Property>) {
    forall i :: 0 <= i < |ps| ==> Encodable(ps[i]) && !Mismeasured(ps[i])
  }

  lemma {:induction false} SizeSumIsExact(ps: seq<Property>)
    requires Measurable(ps)
    ensures SizeSum(ps) == |BlockBytes(ps)|
  {
    if ps != [] {
      PropertySizeIsExactIff(ps[0]);
      SizeSumIsExact(ps[1..]);
    }
  }

  // ---- reading ----

  datatype Kind = OneByte | TwoByte | FourByte | VarByte | Text | Binary | TextPair

  /** The reader's table: which reader `read_property` calls for an identifier, if it is one. */
  function KindOf(id: byte): Option<Kind> {
    if id == 0x01 || id == 0x17 || id == 0x19 || id == 0x24 || id == 0x25 || id == 0x28 || id == 0x29 || id == 0x2A
    then Some(OneByte)
    else if id == 0x13 || id == 0x21 || id == 0x22 || id == 0x23 then Some(TwoByte)
    else if id == 0x02 || id == 0x11 || id == 0x18 || id == 0x27 then Some(FourByte)
    else if id == 0x0B then Some(VarByte)
    else if id == 0x03 || id == 0x08 || id == 0x12 || id == 0x15 || id == 0x1A || id == 0x1C || id == 0x1F
    then Some(Text)
    else if id == 0x09 || id == 0x16 then Some(Binary)
    else if id == 0x26 then Some(TextPair)
    else None
  }

  /** ... and which property it makes of the value. */
  function Build(id: byte, v: Value): Property
    requires KindOf(id) == Some(v.Kind())
  {
    match id
    case 0x01 => PayloadFormatIndicator(v.b)
    case 0x02 => MessageExpiryInterval(v.n)
    case 0x03 => ContentType(v.s)
    case 0x08 => ResponseTopic(v.s)
    case 0x09 => CorrelationData(v.s)
    case 0x0B => SubscriptionIdentifier(v.n)
    case 0x11 => SessionExpiryInterval(v.n)
    case 0x12 => AssignedClientIdentifier(v.s)
    case 0x13 => ServerKeepAlive(v.n)
    case 0x15 => AuthenticationMethod(v.s)
    case 0x16 => AuthenticationData(v.s)
    case 0x17 => RequestProblemInformation(v.b)
    case 0x18 => WillDelayInterval(v.n)
    case 0x19 => RequestResponseInformation(v.b)
    case 0x1A => ResponseInformation(v.s)
    case 0x1C => ServerReference(v.s)
    case 0x1F => ReasonString(v.s)
    case 0x21 => ReceiveMaximum(v.n)
    case 0x22 => TopicAliasMaximum(v.n)
    case 0x23 => TopicAlias(v.n)
    case 0x24 => MaximumQoS(v.b)
    case 0x25 => RetainAvailable(v.b)
    case 0x26 => UserProperty(v.key, v.val)
    case 0x27 => MaximumPacketSize(v.n)
    case 0x28 => WildcardSubscriptionAvailable(v.b)
    case 0x29 => SubscriptionIdentifierAvailable(v.b)
    case 0x2A => SharedSubscriptionAvailable(v.b)
  }

  /** The three tables agree: what is written under an identifier is read back as the same property. */
  lemma TablesAgree(p: Property)
    requires Encodable(p)
    ensures KindOf(Id(p)) == Some(ValueOf(p).Kind()) && Build(Id(p), ValueOf(p)) == p
  {
  }

  /** And what is read under an identifier would be written the same way. */
  lemma BuiltIsWritten(id: byte, v: Value)
    requires KindOf(id) == Some(v.Kind())
    ensures Id(Build(id, v)) == id && ValueOf(Build(id, v)) == v
  {
  }

  /** Server Keep Alive as brokers send it: section 3.2.2.3.14 of MQTT 5.0. */
  lemma ServerKeepAliveReads()
    ensures ItemAt([0x13, 0x00, 0x3C], 0) == Ok(ServerKeepAlive(60))
  {
  }

  /** What a reader makes of the block, and where it leaves the index. */
  datatype Read = Got(value: Value, next: nat) | Bad(error: Error, next: nat) {
    function Outcome(): Result<Value, Error> {
      if Got? then Ok(value) else Err(error)
    }
  }

  function ReadU8(d: Bytes, i: nat): Read
    requires i <= |d|
  {
    if |d| - i < 1 then Bad(InvalidLength, i) else Got(U8(d[i]), i + 1)
  }

  function ReadU16(d: Bytes, i: nat): Read
    requires i <= |d|
  {
    if |d| - i < 2 then Bad(InvalidLength, i) else Got(U16(Big(d[i], d[i + 1])), i + 2)
  }

  function ReadU32(d: Bytes, i: nat): Read
    requires i <= |d|
  {
    if |d| - i < 4 then Bad(InvalidLength, i)
    else Got(U32(Big(d[i], d[i + 1]) * 0x1_0000 + Big(d[i + 2], d[i + 3])), i + 4)
  }

  function ReadVar(d: Bytes, i: nat): Read
    requires i <= |d|
  {
    match DecodeVarint(d[i..])
    case Value(n, used) => Got(Var(n), i + used)
    case Short => Bad(InvalidLength, i)
    case Malformed => Bad(MalformedPacket, i)
  }

  function ReadSlice(d: Bytes, i: nat): Read
    requires i <= |d|
  {
    var len := ReadU16(d, i);
    if len.Bad? then len
    else if |d| - len.next < len.value.n then Bad(InvalidLength, len.next)
    else Got(Bin(d[len.next..len.next + len.value.n]), len.next + len.value.n)
  }

  function ReadStr(d: Bytes, i: nat): Read
    requires i <= |d|
  {
    var r := ReadSlice(d, i);
    if r.Bad? then r
    else if IsUtf8(r.value.s) then Got(Str(r.value.s), r.next)
    else Bad(InvalidString, r.next)
  }

  function ReadPair(d: Bytes, i: nat): Read
    requires i <= |d|
  {
    var k := ReadStr(d, i);
    if k.Bad? then k
    else
      var v := ReadStr(d, k.next);
      if v.Bad? then v else Got(Pair(k.value.s, v.value.s), v.next)
  }

  function ReadValue(kind: Kind, d: Bytes, i: nat): Read
    requires i <= |d|
  {
    match kind
    case OneByte => ReadU8(d, i)
    case TwoByte => ReadU16(d, i)
    case FourByte => ReadU32(d, i)
    case VarByte => ReadVar(d, i)
    case Text => ReadStr(d, i)
    case Binary => ReadSlice(d, i)
    case TextPair => ReadPair(d, i)
  }

  /** `PropertiesIter::read_property` on an encoded block: where it stops ... */
  function ReadBody(d: Bytes, i: nat): (r: Read)
    requires i < |d|
    ensures r.Got? ==> KindOf(d[i]) == Some(r.value.Kind())
  {
    if KindOf(d[i]).None? then Bad(InvalidProperty(d[i]), i + 1) else ReadValue(KindOf(d[i]).value, d, i + 1)
  }

  /** ... and what it yields. */
  function ItemAt(d: Bytes, i: nat): Result<Property, Error>
    requires i < |d|
  {
    var r := ReadBody(d, i);
    if r.Got? then Ok(Build(d[i], r.value)) else Err(r.error)
  }

  lemma ReadVarBounds(d: Bytes, i: nat)
    requires i <= |d|
    ensures i <= ReadVar(d, i).next <= |d|
  {
    if DecodeVarint(d[i..]).Value? {
      DecodeIgnoresRest(d[i..], 0, 0, 1, 0);
    }
  }

  /** On arbitrary bytes a reader never leaves the block and never goes back. */
  lemma ReadValueBounds(kind: Kind, d: Bytes, i: nat)
    requires i <= |d|
    ensures i <= ReadValue(kind, d, i).next <= |d|
  {
    if kind == VarByte { ReadVarBounds(d, i); }
  }

  /** `next` makes progress on every item, well-formed or not. */
  lemma ReadBodyAdvances(d: Bytes, i: nat)
    requires i < |d|
    ensures i < ReadBody(d, i).next <= |d|
  {
    if KindOf(d[i]).Some? { ReadValueBounds(KindOf(d[i]).value, d, i + 1); }
  }

  /** Everything the iterator yields from `i` on; it ends because each item advances it. */
  function Items(d: Bytes, i: nat): seq<Result<Property, Error>>
    requires i <= |d|
    decreases |d| - i
  {
    if i == |d| then []
    else
      ReadBodyAdvances(d, i);
      [ItemAt(d, i)] + Items(d, ReadBody(d, i).next)
  }

  // ---- round trip ----

  lemma ReadU16Back(d: Bytes, i: nat, n: nat)
    requires n < 0x1_0000 && At(d, i, U16Bytes(n))
    ensures ReadU16(d, i) == Got(U16(n), i + 2)
  {
    AtByte(d, i, U16Bytes(n), 0);
    AtByte(d, i, U16Bytes(n), 1);
  }

  lemma ReadU32Back(d: Bytes, i: nat, n: nat)
    requires n < 0x1_0000_0000 && At(d, i, U32Bytes(n))
    ensures ReadU32(d, i) == Got(U32(n), i + 4)
  {
    AtSplit(d, i, U16Bytes(n / 0x1_0000), U16Bytes(n % 0x1_0000));
    ReadU16Back(d, i, n / 0x1_0000);
    ReadU16Back(d, i + 2, n % 0x1_0000);
  }

  lemma ReadSliceBack(d: Bytes, i: nat, s: Bytes)
    requires |s| < 0x1_0000 && At(d, i, Prefixed(s))
    ensures ReadSlice(d, i) == Got(Bin(s), i + 2 + |s|)
  {
    AtSplit(d, i, U16Bytes(|s|), s);
    ReadU16Back(d, i, |s|);
  }

  lemma ReadStrBack(d: Bytes, i: nat, s: Bytes)
    requires IsUtf8(s) && |s| < 0x1_0000 && At(d, i, Prefixed(s))
    ensures ReadStr(d, i) == Got(Str(s), i + 2 + |s|)
  {
    ReadSliceBack(d, i, s);
  }

  lemma ReadVarBack(d: Bytes, i: nat, n: nat)
    requires n <= MAX_VARINT && At(d, i, EncodeVarint(n))
    ensures ReadVar(d, i) == Got(Var(n), i + |EncodeVarint(n)|)
  {
    EncodedLength(n);
    var rest := d[i + |EncodeVarint(n)|..];
    assert d[i..] == EncodeVarint(n) + rest;
    VarintRoundTrip(n, rest);
  }

  lemma ReadPairBack(d: Bytes, i: nat, k: Bytes, v: Bytes)
    requires IsUtf8(k) && IsUtf8(v) && |k| < 0x1_0000 && |v| < 0x1_0000 && At(d, i, Prefixed(k) + Prefixed(v))
    ensures ReadPair(d, i) == Got(Pair(k, v), i + 4 + |k| + |v|)
  {
    AtSplit(d, i, Prefixed(k), Prefixed(v));
    ReadStrBack(d, i, k);
    ReadStrBack(d, i + 2 + |k|, v);
  }

  lemma ReadValueBack(d: Bytes, i: nat, v: Value)
    requires Transmissible(v) && At(d, i, ValueBytes(v))
    ensures ReadValue(v.Kind(), d, i) == Got(v, i + |ValueBytes(v)|)
  {
    match v
    case U8(b) => AtByte(d, i, [b], 0);
    case U16(n) => ReadU16Back(d, i, n);
    case U32(n) => ReadU32Back(d, i, n);
    case Var(n) => ReadVarBack(d, i, n);
    case Str(s) => ReadStrBack(d, i, s);
    case Bin(s) => ReadSliceBack(d, i, s);
    case Pair(k, w) => ReadPairBack(d, i, k, w);
  }

  /** Wherever `x` stands, the iterator yields `p` and goes on right behind it. */
  ghost predicate Yields(x: Bytes, p: Property) {
    forall d: Bytes, i: nat :: At(d, i, x) ==> i < |d| && ItemAt(d, i) == Ok(p) && ReadBody(d, i).next == i + |x|
  }

  lemma PropertyYields(p: Property)
    requires Encodable(p)
    ensures Yields(PropertyBytes(p), p)
  {
    forall d: Bytes, i: nat | At(d, i, PropertyBytes(p))
      ensures i < |d| && ItemAt(d, i) == Ok(p) && ReadBody(d, i).next == i + |PropertyBytes(p)|
    {
      AtByte(d, i, PropertyBytes(p), 0);
      AtSplit(d, i, [Id(p)], ValueBytes(ValueOf(p)));
      ReadValueBack(d, i + 1, ValueOf(p));
      TablesAgree(p);
    }
  }

  function Oks(ps: seq<Property>): seq<Result<Property, Error>> {
    seq(|ps|, i requires 0 <= i < |ps| => Ok(ps[i]))
  }

  lemma OksUnfold(ps: seq<Property>)
    requires ps != []
    ensures Oks(ps) == [Ok(ps[0])] + Oks(ps[1..])
  {
  }

  lemma {:induction false} ItemsUnfold(d: Bytes, i: nat, x: Bytes, p: Property)
    requires Yields(x, p) && At(d, i, x)
    ensures Items(d, i) == [Ok(p)] + Items(d, i + |x|)
  {
    assert ItemAt(d, i) == Ok(p) && ReadBody(d, i).next == i + |x|;
  }

  lemma {:induction false} ItemsBack(ps: seq<Property>, d: Bytes, i: nat)
    requires forall k :: 0 <= k < |ps| ==> Encodable(ps[k])
    requires At(d, i, BlockBytes(ps)) && i + |BlockBytes(ps)| == |d|
    ensures Items(d, i) == Oks(ps)
    decreases |ps|
  {
    if ps == [] {
      assert i == |d|;
    } else {
      var x, y := PropertyBytes(ps[0]), BlockBytes(ps[1..]);
      PropertyYields(ps[0]);
      AtSplit(d, i, x, y);
      ItemsUnfold(d, i, x, ps[0]);
      ItemsBack(ps[1..], d, i + |x|);
      OksUnfold(ps);
    }
  }

  // ---- a property cut short ----

  lemma CutSlice(d: Bytes, i: nat, s: Bytes, m: nat)
    requires |s| < 0x1_0000 && At(d, i, Prefixed(s)) && i <= m < i + |Prefixed(s)|
    ensures ReadSlice(d[..m], i).Bad? && ReadSlice(d[..m], i).error == InvalidLength
  {
    AtSplit(d, i, U16Bytes(|s|), s);
    if m >= i + 2 {
      AtByte(d, i, U16Bytes(|s|), 0);
      AtByte(d, i, U16Bytes(|s|), 1);
    }
  }

  lemma CutVar(d: Bytes, i: nat, n: nat, m: nat)
    requires n <= MAX_VARINT && At(d, i, EncodeVarint(n)) && i <= m < i + |EncodeVarint(n)|
    ensures ReadVar(d[..m], i) == Bad(InvalidLength, i)
  {
    EncodedLength(n);
    StrictPrefixIsShort(n, m - i);
    assert d[..m][i..] == d[i..i + |EncodeVarint(n)|][..m - i];
  }

  lemma CutPair(d: Bytes, i: nat, k: Bytes, v: Bytes, m: nat)
    requires IsUtf8(k) && IsUtf8(v) && |k| < 0x1_0000 && |v| < 0x1_0000
    requires At(d, i, Prefixed(k) + Prefixed(v)) && i <= m < i + |Prefixed(k) + Prefixed(v)|
    ensures ReadPair(d[..m], i).Bad? && ReadPair(d[..m], i).error == InvalidLength
  {
    AtSplit(d, i, Prefixed(k), Prefixed(v));
    if m < i + |Prefixed(k)| {
      CutSlice(d, i, k, m);
    } else {
      assert d[..m][i..i + |Prefixed(k)|] == d[i..i + |Prefixed(k)|];
      ReadStrBack(d[..m], i, k);
      CutSlice(d, i + |Prefixed(k)|, v, m);
    }
  }

  lemma CutValue(d: Bytes, i: nat, v: Value, m: nat)
    requires Transmissible(v) && At(d, i, ValueBytes(v)) && i <= m < i + |ValueBytes(v)|
    ensures ReadValue(v.Kind(), d[..m], i).Bad? && ReadValue(v.Kind(), d[..m], i).error == InvalidLength
  {
    match v
    case U8(_) =>
    case U16(_) =>
    case U32(_) =>
    case Var(n) => CutVar(d, i, n, m);
    case Str(s) => CutSlice(d, i, s, m);
    case Bin(s) => CutSlice(d, i, s, m);
    case Pair(k, w) => CutPair(d, i, k, w, m);
  }

  /** Every strict prefix of a property that has its identifier is reported as too short. */
  lemma CutPropertyIsTooShort(p: Property, m: nat)
    requires Encodable(p) && 1 <= m < |PropertyBytes(p)|
    ensures ItemAt(PropertyBytes(p)[..m], 0) == Err(InvalidLength)
  {
    var d := PropertyBytes(p);
    TablesAgree(p);
    assert d[1..1 + |ValueBytes(ValueOf(p))|] == ValueBytes(ValueOf(p));
    CutValue(d, 1, ValueOf(p), m);
  }

  // ---- the three forms of a property list ----

  datatype Properties =
    | Slice(list: seq<Property>)
    | DataBlock(block: Bytes)
    | Correlated(correlation: Property, list: seq<Property>)

  predicate AllTyped(ps: Properties) {
    match ps
    case Slice(list) => forall i :: 0 <= i < |list| ==> Typed(list[i])
    case DataBlock(_) => true
    case Correlated(c, list) => Typed(c) && forall i :: 0 <= i < |list| ==> Typed(list[i])
  }

  /** `Properties::size` */
  function Size(ps: Properties): nat
    requires AllTyped(ps)
  {
    match ps
    case Slice(list) => SizeSum(list)
    case DataBlock(block) => |block|
    case Correlated(c, list) => SizeSum(list) + PropertySize(c)
  }

  /** What `write_properties` emits after the length: a `DataBlock` goes through `write_slice`. */
  function Content(ps: Properties): Bytes {
    match ps
    case Slice(list) => BlockBytes(list)
    case DataBlock(block) => Prefixed(block)
    case Correlated(c, list) => BlockBytes([c] + list)
  }

  /** `Size` as the length prefix wants it; beyond the range the encoder misbehaves, see `ToBuffer`. */
  function WithLength(ps: Properties): Bytes
    requires AllTyped(ps)
  {
    EncodeVarint(Size(ps)) + Content(ps)
  }

  function Listed(ps: Properties): seq<Property>
    requires !ps.DataBlock?
  {
    if ps.Slice? then ps.list else [ps.correlation] + ps.list
  }

  /** What `iter` yields; a correlated list has no iterator in the source. */
  function Iterated(ps: Properties): seq<Result<Property, Error>>
    requires !ps.Correlated?
  {
    if ps.Slice? then Oks(ps.list) else Items(ps.block, 0)
  }

  lemma {:induction false} SizeSumSnoc(c: Property, list: seq<Property>)
    requires Typed(c) && forall i :: 0 <= i < |list| ==> Typed(list[i])
    ensures SizeSum([c] + list) == SizeSum(list) + PropertySize(c)
  {
    assert ([c] + list)[1..] == list;
  }

  /** For lists the announced size is the number of bytes that follow, and iterating them gives the list back. */
  lemma PropertyBlockRoundTrip(ps: Properties)
    requires !ps.DataBlock? && Measurable(Listed(ps))
    ensures AllTyped(ps) && Size(ps) == |Content(ps)|
    ensures Items(Content(ps), 0) == Oks(Listed(ps))
  {
    assert forall i :: 0 <= i < |Listed(ps)| ==> Typed(Listed(ps)[i]);
    if ps.Correlated? {
      assert Listed(ps)[0] == ps.correlation;
      forall i | 0 <= i < |ps.list| ensures Typed(ps.list[i]) { assert ps.list[i] == Listed(ps)[i + 1]; }
      SizeSumSnoc(ps.correlation, ps.list);
    }
    SizeSumIsExact(Listed(ps));
    assert Content(ps)[0..|Content(ps)|] == BlockBytes(Listed(ps));
    ItemsBack(Listed(ps), Content(ps), 0);
  }

  /** A received block written out again is always two bytes longer than it announces. */
  lemma DataBlockOverruns(block: Bytes)
    ensures |Content(DataBlock(block))| == Size(DataBlock(block)) + 2
  {
  }

  // ---- iterating a block together with bytes in front of it ----

  lemma {:induction false} DecodeUsesItsByte(bytes: Bytes, i: nat, acc: nat, weight: nat)
    requires i <= 3 && DecodeFrom(bytes, i, acc, weight).Value?
    ensures DecodeFrom(bytes, i, acc, weight).used > i
    decreases 4 - i
  {
    if bytes[i] >= 128 { DecodeUsesItsByte(bytes, i + 1, acc + bytes[i] % 128 * weight, weight * 128); }
  }

  lemma {:induction false} DecodedZero(bytes: Bytes, i: nat, acc: nat, weight: nat, j: nat)
    requires i <= 3 && weight > 0
    requires DecodeFrom(bytes, i, acc, weight).Value? && DecodeFrom(bytes, i, acc, weight).n == 0
    requires i <= j < DecodeFrom(bytes, i, acc, weight).used
    ensures acc == 0 && j < |bytes| && bytes[j] % 128 == 0
    decreases 4 - i
  {
    var sum := acc + bytes[i] % 128 * weight;
    assert bytes[i] % 128 > 0 ==> bytes[i] % 128 * weight > 0;
    if bytes[i] >= 128 {
      assert DecodeFrom(bytes, i, acc, weight) == DecodeFrom(bytes, i + 1, sum, weight * 128);
      DecodeUsesItsByte(bytes, i + 1, sum, weight * 128);
      DecodedZero(bytes, i + 1, sum, weight * 128, if j == i then i + 1 else j);
    }
  }

  lemma ReadLength(kind: Kind, d: Bytes, i: nat)
    requires i <= |d| && kind != VarByte && ReadValue(kind, d, i).Got?
    ensures !ReadValue(kind, d, i).value.Var?
    ensures ReadValue(kind, d, i).next == i + |ValueBytes(ReadValue(kind, d, i).value)|
  {
  }

  lemma ItemLength(d: Bytes, i: nat, p: Property)
    requires i < |d| && ItemAt(d, i) == Ok(p) && !p.SubscriptionIdentifier?
    ensures ReadBody(d, i).next == i + |PropertyBytes(p)|
  {
    BuiltIsWritten(d[i], ReadBody(d, i).value);
    ReadLength(KindOf(d[i]).value, d, i + 1);
  }

  /** A zero read in front of a written zero ends before it: the identifier byte in between is not zero. */
  lemma ZeroItemLength(d: Bytes, i: nat, g: nat, p: Property)
    requires i < |d| && ItemAt(d, i) == Ok(p) && p == SubscriptionIdentifier(0)
    requires g >= 1 && At(d, i + g, PropertyBytes(p))
    ensures ReadBody(d, i).next <= i + g + 1
  {
    AtByte(d, i + g, PropertyBytes(p), 0);
    BuiltIsWritten(d[i], ReadBody(d, i).value);
    var rest := d[i + 1..];
    if DecodeVarint(rest).Value? && DecodeVarint(rest).used > g {
      DecodedZero(rest, 0, 0, 1, g - 1);
    }
  }

  lemma ItemStopsShort(d: Bytes, i: nat, g: nat, p: Property)
    requires i < |d| && ItemAt(d, i) == Ok(p) && !Mismeasured(p)
    requires g >= 1 && At(d, i + g, PropertyBytes(p))
    ensures ReadBody(d, i).next < i + g + |PropertyBytes(p)|
  {
    if p.SubscriptionIdentifier? {
      ZeroItemLength(d, i, g, p);
      EncodedLength(0);
    } else {
      ItemLength(d, i, p);
    }
  }

  /** Read from `g` bytes too early, a block never yields its own list. */
  lemma {:induction false} ShiftedItemsDiffer(ps: seq<Property>, d: Bytes, i: nat, g: nat)
    requires Measurable(ps) && g >= 1 && At(d, i + g, BlockBytes(ps)) && i + g + |BlockBytes(ps)| == |d|
    ensures Items(d, i) != Oks(ps)
    decreases |ps|
  {
    if ps != [] && Items(d, i) == Oks(ps) {
      var x, y := PropertyBytes(ps[0]), BlockBytes(ps[1..]);
      AtSplit(d, i + g, x, y);
      OksUnfold(ps);
      ReadBodyAdvances(d, i);
      var n := ReadBody(d, i).next;
      assert Items(d, i)[0] == ItemAt(d, i) && Items(d, i)[1..] == Items(d, n);
      ItemStopsShort(d, i, g, ps[0]);
      ShiftedItemsDiffer(ps[1..], d, n, i + g + |x| - n);
    }
  }

  /** The iterator object of the source. */
  class PropertiesIter {
    const data: Bytes
    var index: nat

    ghost predicate Valid()
      reads this
    {
      index <= |data|
    }

    constructor (data: Bytes)
      ensures Valid() && this.data == data && index == 0
    {
      this.data, index := data, 0;
    }

    method NextU16() returns (r: Result<Value, Error>)
      requires Valid()
      modifies `index
      ensures Valid() && r == ReadU16(data, old(index)).Outcome() && index == ReadU16(data, old(index)).next
    {
      if |data| - index < 2 { return Err(InvalidLength); }
      r := Ok(U16(Big(data[index], data[index + 1])));
      index := index + 2;
    }

    method NextSlice() returns (r: Result<Value, Error>)
      requires Valid()
      modifies `index
      ensures Valid() && r == ReadSlice(data, old(index)).Outcome() && index == ReadSlice(data, old(index)).next
    {
      var len := NextU16();
      if len.Err? { return len; }
      if |data| - index < len.value.n { return Err(InvalidLength); }
      r := Ok(Bin(data[index..index + len.value.n]));
      index := index + len.value.n;
    }

    method NextStr() returns (r: Result<Value, Error>)
      requires Valid()
      modifies `index
      ensures Valid() && r == ReadStr(data, old(index)).Outcome() && index == ReadStr(data, old(index)).next
    {
      r := NextSlice();
      if r.Ok? { r := if IsUtf8(r.value.s) then Ok(Str(r.value.s)) else Err(InvalidString); }
    }

    method NextVarint() returns (r: Result<Value, Error>)
      requires Valid()
      modifies `index
      ensures Valid() && r == ReadVar(data, old(index)).Outcome() && index == ReadVar(data, old(index)).next
    {
      ReadVarBounds(data, index);
      var v := ReadVarint(data[index..]);
      match v
      case Value(n, used) => index := index + used; r := Ok(Var(n));
      case Short => r := Err(InvalidLength);
      case Malformed => r := Err(MalformedPacket);
    }

    method NextValue(kind: Kind) returns (r: Result<Value, Error>)
      requires Valid()
      modifies `index
      ensures Valid() && r == ReadValue(kind, data, old(index)).Outcome()
      ensures index == ReadValue(kind, data, old(index)).next
    {
      match kind
      case OneByte =>
        if |data| - index < 1 { return Err(InvalidLength); }
        r := Ok(U8(data[index]));
        index := index + 1;
      case TwoByte => r := NextU16();
      case FourByte =>
        if |data| - index < 4 { return Err(InvalidLength); }
        r := Ok(U32(Big(data[index], data[index + 1]) * 0x1_0000 + Big(data[index + 2], data[index + 3])));
        index := index + 4;
      case VarByte => r := NextVarint();
      case Text => r := NextStr();
      case Binary => r := NextSlice();
      case TextPair =>
        r := NextStr();
        if r.Err? { return; }
        var v := NextStr();
        r := if v.Ok? then Ok(Pair(r.value.s, v.value.s)) else v;
    }

    /** Yields the next item of the block and has moved on, also when the item is an error. */
    method Next() returns (r: Option<Result<Property, Error>>)
      requires Valid()
      modifies `index
      ensures Valid() && (r.None? <==> old(index) == |data|)
      ensures if r.None? then index == old(index)
              else old(index) < index && r.value == ItemAt(data, old(index)) && index == ReadBody(data, old(index)).next
    {
      if index >= |data| { return None; }
      var id := data[index];
      index := index + 1;
      if KindOf(id).None? { return Some(Err(InvalidProperty(id))); }
      ReadValueBounds(KindOf(id).value, data, index);
      var v := NextValue(KindOf(id).value);
      r := Some(if v.Ok? then Ok(Build(id, v.value)) else Err(v.error));
    }

    /** Running the iterator to its end collects exactly `Items`. */
    method Drain() returns (items: seq<Result<Property, Error>>)
      requires Valid()
      modifies `index
      ensures index == |data| && items == Items(data, old(index))
    {
      items := [];
      while index < |data|
        invariant Valid() && items + Items(data, index) == Items(data, old(index))
        decreases |data| - index
      {
        ghost var i, done := index, items;
        var r := Next();
        items := items + [r.value];
        assert Items(data, i) == [r.value] + Items(data, index);
        assert items + Items(data, index) == done + Items(data, i);
      }
    }
  }
}
