/** The versioned message structs: requests as bytes, and what a received message says. */
module Codec {
  import opened ByteStrings
  import opened Options
  import opened Streams

  datatype Version = V2422 | V2782 | V3248 | V3789 | V4570

  const SUCCESS := 0
  const ERROR := 1
  const ADD_SRC := 1001
  const ADD_ALL_SRCS := 1002
  const REM_SRC := 1003
  const QUERY_SRC := 1004
  const GET_SRC_DESC := 1005
  const SRC_ADDED := 10001
  const SRC_REMOVED := 10002
  const SRC_DESC := 10003
  const SRC_COUNTS := 10004

  const HEADER_SIZE := 16
  /** Size of the client's error struct: a 16-byte header and a 32-bit code, padded to 8-byte alignment. */
  const ERROR_SIZE := 24
  const EFAULT := 14

  const IPPROTO_TCP := 6
  const IPPROTO_UDP := 17

  predicate IsRequestType(ty: nat) {
    ty == ADD_SRC || ty == ADD_ALL_SRCS || ty == REM_SRC || ty == QUERY_SRC || ty == GET_SRC_DESC
  }

  // ---- requests ------------------------------------------------------------

  datatype Request = AddAllTcp | AddAllUdp | QuerySrc(ref: nat) | GetSrcDesc(ref: nat)

  /** Source references are 64 bits wide from xnu-3789 on, 32 bits before. */
  predicate Wide(v: Version) {
    v.V3789? || v.V4570?
  }

  function RefWidth(v: Version): nat {
    if Wide(v) then 8 else 4
  }

  predicate FitsRef(v: Version, k: nat) {
    k < Pow256(RefWidth(v))
  }

  function RequestType(r: Request): nat {
    match r
    case AddAllTcp => ADD_ALL_SRCS
    case AddAllUdp => ADD_ALL_SRCS
    case QuerySrc(_) => QUERY_SRC
    case GetSrcDesc(_) => GET_SRC_DESC
  }

  function AddAllPayload(v: Version, provider: nat): (p: Bytes)
    ensures |p| <= 40
  {
    match v
    case V2422 => Le(provider, 4)
    case V2782 => Le(provider, 4)
    case V3248 => Le(provider, 4) + Zeros(8)
    case V3789 => Le(provider, 4) + Zeros(36)
    case V4570 => Zeros(16) + Le(provider, 4) + Zeros(20)
  }

  function Payload(v: Version, r: Request): (p: Bytes)
    ensures |p| <= 40
  {
    match r
    case AddAllTcp => AddAllPayload(v, 2)
    case AddAllUdp => AddAllPayload(v, if Wide(v) then 4 else 3)
    case QuerySrc(k) => Le(k, RefWidth(v))
    case GetSrcDesc(k) => Le(k, RefWidth(v))
  }

  function Header(context: nat, ty: nat, length: nat): (h: Bytes)
    ensures |h| == HEADER_SIZE
  {
    Le(context, 8) + Le(ty, 4) + Le(length, 2) + [0, 0]
  }

  function Encode(v: Version, context: nat, r: Request): (b: Bytes)
    ensures HEADER_SIZE <= |b| <= HEADER_SIZE + 40
  {
    Header(context, RequestType(r), HEADER_SIZE + |Payload(v, r)|) + Payload(v, r)
  }

  // ---- received messages ---------------------------------------------------

  function ContextOf(b: Bytes): nat {
    Field(b, 0, 8)
  }

  function TypeOf(b: Bytes): nat {
    Field(b, 8, 4)
  }

  /** The reference that follows the header in every struct that carries one, SRC_ADDED of the packed layouts excepted. */
  function RefField(v: Version, b: Bytes): nat {
    Field(b, HEADER_SIZE, RefWidth(v))
  }

  /** Source reference and provider of a message; zero where the version does not extract one. */
  function SrcRefOf(v: Version, b: Bytes): (r: (nat, nat))
    ensures FitsRef(v, r.0)
  {
    var ty := TypeOf(b);
    if ty == SRC_COUNTS || ty == SRC_REMOVED then (RefField(v, b), 0)
    else if ty == SRC_DESC then (RefField(v, b), Field(b, if Wide(v) then 32 else 20, 4))
    else if ty == SRC_ADDED then
      if v.V4570? then (RefField(v, b), Field(b, 24, 4))
      else (Field(b, 20, RefWidth(v)), Field(b, 16, 4))
    else if (ty == QUERY_SRC || ty == GET_SRC_DESC || ty == REM_SRC) && ExtractsRequests(v) then (RefField(v, b), 0)
    else (0, 0)
  }

  predicate ExtractsRequests(v: Version) {
    v.V2422? || v.V3248? || v.V3789?
  }

  datatype Descriptor = Descriptor(
    v6: bool, ifindex: nat, lport: nat, rport: nat, local: Address, remote: Address,
    txwindow: nat, txcwindow: nat, state: nat, pid: nat, pname: Bytes)

  datatype Description = Tcp(d: Descriptor) | Udp(d: Descriptor) | OtherProvider(accepted: bool)

  /** How a version classifies a description by its provider. */
  function Classify(v: Version, provider: nat, d: Descriptor): Description {
    if Wide(v) then
      if provider == 2 || provider == 3 then Tcp(d)
      else if provider == 4 || provider == 5 then Udp(d)
      else OtherProvider(v.V4570?)
    else
      if provider == 2 then Tcp(d)
      else if provider == 3 then Udp(d)
      else OtherProvider(false)
  }

  datatype Body =
    | Success
    | Error(code: nat)
    | SrcAdded(ref: nat, provider: nat)
    | SrcRemoved(ref: nat)
    | SrcDesc(ref: nat, desc: Description)
    | SrcCounts(ref: nat, counters: Counters, wired: bool)
    | Unknown

  datatype Msg = Msg(context: nat, body: Body)

  /** A struct handler. The layout of the descriptor and counter payloads stays abstract. */
  datatype Handler = Handler(version: Version, descriptor: Bytes -> Descriptor, counters: Bytes -> Counters)

  function DecodeBody(h: Handler, b: Bytes): Body {
    var ty := TypeOf(b);
    var (ref, provider) := SrcRefOf(h.version, b);
    if ty == SUCCESS then Success
    else if ty == ERROR then Error(if |b| < ERROR_SIZE then EFAULT else Field(b, HEADER_SIZE, 4))
    else if ty == SRC_ADDED then SrcAdded(ref, provider)
    else if ty == SRC_REMOVED then SrcRemoved(ref)
    else if ty == SRC_DESC then SrcDesc(ref, Classify(h.version, provider, h.descriptor(b)))
    else if ty == SRC_COUNTS then SrcCounts(ref, h.counters(b), !h.version.V2422?)
    else Unknown
  }

  function Decode(h: Handler, b: Bytes): Msg {
    Msg(ContextOf(b), DecodeBody(h, b))
  }

  predicate AboutSource(body: Body) {
    body.SrcAdded? || body.SrcRemoved? || body.SrcDesc? || body.SrcCounts?
  }

  // ---- what descriptions and counts do to a stream -------------------------

  /** Storing an IPv4 address overwrites the first four bytes of the union only. */
  function StoreAddress(v6: bool, src: Address, dest: Address): Address {
    if v6 then src else src[..4] + dest[4..]
  }

  function DescribedKey(proto: nat, d: Descriptor, key: StreamKey): StreamKey {
    StreamKey(if d.v6 then 1 else 0, proto, key.pad, d.ifindex, d.lport, d.rport,
              StoreAddress(d.v6, d.local, key.local), StoreAddress(d.v6, d.remote, key.remote))
  }

  function DescribedProcess(d: Descriptor): Process {
    Process(d.pid, if d.pid > 0 && d.pname != [] then d.pname else [])
  }

  /** The described stream, or None when the handler rejects the provider. */
  function ReadDesc(obj: Stream, desc: Description): Option<Stream> {
    match desc
    case Tcp(d) =>
      Some(obj.(key := DescribedKey(IPPROTO_TCP, d, obj.key), process := DescribedProcess(d),
                states := StreamState(d.state, d.txcwindow, d.txwindow)))
    case Udp(d) =>
      Some(obj.(key := DescribedKey(IPPROTO_UDP, d, obj.key), process := DescribedProcess(d)))
    case OtherProvider(accepted) => if accepted then Some(obj) else None
  }

  function ReadCounts(old': Counters, new': Counters, wired: bool): Counters {
    if wired then new' else new'.(wiredRxbytes := old'.wiredRxbytes, wiredTxbytes := old'.wiredTxbytes)
  }

  // ---- the reference codec -------------------------------------------------

  lemma HeaderFields(context: nat, ty: nat, length: nat, payload: Bytes)
    ensures ContextOf(Header(context, ty, length) + payload) == context % Pow256(8)
    ensures TypeOf(Header(context, ty, length) + payload) == ty % Pow256(4)
  {
    hide Field, Le, Pow256;
    var b := Header(context, ty, length) + payload;
    var rest := Le(length, 2) + [0, 0] + payload;
    assert b == [] + Le(context, 8) + (Le(ty, 4) + rest);
    FieldOfLe([], context, 8, Le(ty, 4) + rest);
    assert b == Le(context, 8) + Le(ty, 4) + rest;
    FieldOfLe(Le(context, 8), ty, 4, rest);
  }

  /** Every request is recognisable as one and carries the context it was written with. */
  lemma EncodeHeader(v: Version, context: nat, r: Request)
    requires context < 0x1_0000
    ensures ContextOf(Encode(v, context, r)) == context
    ensures TypeOf(Encode(v, context, r)) == RequestType(r)
  {
    Pow256Values();
    HeaderFields(context, RequestType(r), HEADER_SIZE + |Payload(v, r)|, Payload(v, r));
  }

  lemma ModIdentity(n: nat, p: nat)
    requires p > 0
    ensures n % p == n <==> n < p
  {
  }

  lemma FieldFits(a: Bytes, n: nat, w: nat, c: Bytes)
    requires n < Pow256(w)
    ensures Field(a + Le(n, w) + c, |a|, w) == n
  {
    hide Field, Le, Pow256;
    FieldOfLe(a, n, w, c);
    ModIdentity(n, Pow256(w));
  }

  /** The size of the version's struct for a request. */
  function RequestSize(v: Version, r: Request): nat {
    match r
    case QuerySrc(_) => if Wide(v) then 24 else 20
    case GetSrcDesc(_) => if Wide(v) then 24 else 20
    case _ => if v.V2422? || v.V2782? then 20 else if v.V3248? then 28 else 56
  }

  /** The header of a request as a kernel reads it: context, type, the length of the whole message, no flags. */
  lemma RequestOnTheWire(v: Version, context: nat, r: Request)
    requires context < 0x1_0000
    ensures var b := Encode(v, context, r);
            && Field(b, 0, 8) == context
            && Field(b, 8, 4) == (match r case QuerySrc(_) => 1004 case GetSrcDesc(_) => 1005 case _ => 1002)
            && |b| == RequestSize(v, r) && Field(b, 12, 2) == |b| && Field(b, 14, 2) == 0
  {
    EncodeHeader(v, context, r);
    var p := Payload(v, r);
    var length := HEADER_SIZE + |p|;
    var a := Le(context, 8) + Le(RequestType(r), 4);
    hide Field, Le;
    Pow256Values();
    var l := Le(length, 2);
    assert Encode(v, context, r) == a + l + ([0, 0] + p);
    FieldFits(a, length, 2, [0, 0] + p);
    NoFlags(a + l, p);
    assert Encode(v, context, r) == (a + l) + [0, 0] + p;
  }

  lemma NoFlags(a: Bytes, p: Bytes)
    ensures Field(a + [0, 0] + p, |a|, 2) == 0
  {
    assert Field(a + [0, 0] + p, |a| + 1, 1) == 0;
  }

  /** Of a subscription's payload only the provider is filled in: no filter, no process, no events. */
  lemma SubscriptionIsBlank(v: Version, context: nat, r: Request, i: nat)
    requires r.AddAllTcp? || r.AddAllUdp?
    requires HEADER_SIZE <= i < |Encode(v, context, r)|
    requires var off := if v.V4570? then 32 else HEADER_SIZE; !(off <= i < off + 4)
    ensures Encode(v, context, r)[i] == 0
  {
    hide Header, Le;
    var p := Payload(v, r);
    assert Encode(v, context, r)[i] == p[i - HEADER_SIZE];
  }

  /** A request carries its reference truncated to the version's width. */
  lemma EncodeRef(v: Version, context: nat, r: Request)
    requires r.QuerySrc? || r.GetSrcDesc?
    ensures RefField(v, Encode(v, context, r)) == r.ref % Pow256(RefWidth(v))
  {
    var h := Header(context, RequestType(r), HEADER_SIZE + |Payload(v, r)|);
    assert Encode(v, context, r) == h + Le(r.ref, RefWidth(v)) + [];
    FieldOfLe(h, r.ref, RefWidth(v), []);
  }

  /** The provider named by a subscription. */
  function ProviderField(v: Version, b: Bytes): nat {
    Field(b, if v.V4570? then 32 else HEADER_SIZE, 4)
  }

  lemma AddAllProvider(v: Version, context: nat, r: Request, provider: nat)
    requires (r.AddAllTcp? || r.AddAllUdp?) && Payload(v, r) == AddAllPayload(v, provider)
    ensures ProviderField(v, Encode(v, context, r)) == provider % Pow256(4)
  {
    hide Field, Le, Pow256, Header;
    var h := Header(context, ADD_ALL_SRCS, HEADER_SIZE + |Payload(v, r)|);
    var b := Encode(v, context, r);
    match v
    case V2422 => assert b == h + Le(provider, 4) + []; FieldOfLe(h, provider, 4, []);
    case V2782 => assert b == h + Le(provider, 4) + []; FieldOfLe(h, provider, 4, []);
    case V3248 => assert b == h + Le(provider, 4) + Zeros(8); FieldOfLe(h, provider, 4, Zeros(8));
    case V3789 => assert b == h + Le(provider, 4) + Zeros(36); FieldOfLe(h, provider, 4, Zeros(36));
    case V4570 =>
      assert b == (h + Zeros(16)) + Le(provider, 4) + Zeros(20);
      FieldOfLe(h + Zeros(16), provider, 4, Zeros(20));
  }

  /** Each version subscribes to a provider whose descriptions it reads as those of the protocol it asked for. */
  lemma SubscriptionsMatchDescriptions(v: Version, context: nat, d: Descriptor)
    ensures Classify(v, ProviderField(v, Encode(v, context, AddAllTcp)), d) == Tcp(d)
    ensures Classify(v, ProviderField(v, Encode(v, context, AddAllUdp)), d) == Udp(d)
  {
    hide Encode, ProviderField;
    Pow256Values();
    AddAllProvider(v, context, AddAllTcp, 2);
    AddAllProvider(v, context, AddAllUdp, if Wide(v) then 4 else 3);
  }

  lemma RequestRef(v: Version, b: Bytes)
    requires TypeOf(b) == QUERY_SRC || TypeOf(b) == GET_SRC_DESC
    ensures ExtractsRequests(v) ==> SrcRefOf(v, b).0 == RefField(v, b)
  {
  }

  /** The reference written into a request survives exactly when it fits the version's field; where the version
      extracts references from requests, extraction gives it back. */
  lemma RefRoundTrip(v: Version, context: nat, r: Request)
    requires context < 0x1_0000
    requires r.QuerySrc? || r.GetSrcDesc?
    ensures RefField(v, Encode(v, context, r)) == r.ref <==> FitsRef(v, r.ref)
    ensures ExtractsRequests(v) ==> (SrcRefOf(v, Encode(v, context, r)).0 == r.ref <==> FitsRef(v, r.ref))
  {
    EncodeHeader(v, context, r);
    EncodeRef(v, context, r);
    ModIdentity(r.ref, Pow256(RefWidth(v)));
    RequestRef(v, Encode(v, context, r));
  }

  /** References taken from messages of any version fit that version's field, so the narrowing store in a request
      loses nothing. */
  lemma DecodedRefSurvives(h: Handler, b: Bytes, context: nat, r: Request)
    requires context < 0x1_0000
    requires r.QuerySrc? || r.GetSrcDesc?
    requires AboutSource(DecodeBody(h, b)) && r.ref == DecodeBody(h, b).ref
    ensures RefField(h.version, Encode(h.version, context, r)) == DecodeBody(h, b).ref
  {
    RefRoundTrip(h.version, context, r);
  }

  // ---- the kernel's side -----------------------------------------------------

  const TCP_PROVIDER := 2

  /** What a kernel tells unasked: such messages carry context 0. */
  datatype Notice =
    | Arrival(ref: nat, provider: nat)
    | Departure(ref: nat)
    | Details(ref: nat, provider: nat)
    | Totals(ref: nat)

  predicate Sendable(v: Version, n: Notice) {
    FitsRef(v, n.ref) && (n.Arrival? || n.Details? ==> n.provider < Pow256(4))
  }

  function NoticeType(n: Notice): nat {
    match n
    case Arrival(_, _) => 10001
    case Departure(_) => 10002
    case Details(_, _) => 10003
    case Totals(_) => 10004
  }

  /** The fields that follow the header in the struct of each version, up to its payload. */
  function NoticeFields(v: Version, n: Notice): (b: Bytes)
    ensures |b| <= 20
  {
    match n
    case Arrival(k, provider) =>
      if v.V4570? then Le(k, 8) + Le(provider, 4) else Le(provider, 4) + Le(k, RefWidth(v))
    case Departure(k) => Le(k, RefWidth(v))
    case Details(k, provider) => Le(k, RefWidth(v)) + Zeros(if Wide(v) then 8 else 0) + Le(provider, 4)
    case Totals(k) => Le(k, RefWidth(v))
  }

  function NoticeBytes(v: Version, n: Notice, payload: Bytes): (b: Bytes)
    ensures |b| == HEADER_SIZE + |NoticeFields(v, n)| + |payload|
  {
    var rest := NoticeFields(v, n) + payload;
    Header(0, NoticeType(n), HEADER_SIZE + |rest|) + rest
  }

  lemma NoticeHeader(v: Version, n: Notice, payload: Bytes)
    ensures ContextOf(NoticeBytes(v, n, payload)) == 0 && TypeOf(NoticeBytes(v, n, payload)) == NoticeType(n)
  {
    hide Header, NoticeFields, ContextOf, TypeOf, Pow256;
    Pow256Values();
    var rest := NoticeFields(v, n) + payload;
    HeaderFields(0, NoticeType(n), HEADER_SIZE + |rest|, rest);
  }

  lemma NoticeRef(v: Version, n: Notice, payload: Bytes)
    requires Sendable(v, n)
    ensures var r := SrcRefOf(v, NoticeBytes(v, n, payload));
            r.0 == n.ref && (n.Arrival? || n.Details? ==> r.1 == n.provider)
  {
    hide Header, Field, Le, Pow256, TypeOf;
    NoticeHeader(v, n, payload);
    var w, k := RefWidth(v), n.ref;
    var rest := NoticeFields(v, n) + payload;
    var h := Header(0, NoticeType(n), HEADER_SIZE + |rest|);
    match n
    case Arrival(_, provider) =>
      if v.V4570? {
        assert h + rest == h + Le(k, 8) + (Le(provider, 4) + payload);
        FieldFits(h, k, 8, Le(provider, 4) + payload);
        assert h + rest == (h + Le(k, 8)) + Le(provider, 4) + payload;
        FieldFits(h + Le(k, 8), provider, 4, payload);
      } else {
        assert h + rest == h + Le(provider, 4) + (Le(k, w) + payload);
        FieldFits(h, provider, 4, Le(k, w) + payload);
        assert h + rest == (h + Le(provider, 4)) + Le(k, w) + payload;
        FieldFits(h + Le(provider, 4), k, w, payload);
      }
    case Details(_, provider) =>
      var flags := Zeros(if Wide(v) then 8 else 0);
      assert h + rest == h + Le(k, w) + (flags + Le(provider, 4) + payload);
      FieldFits(h, k, w, flags + Le(provider, 4) + payload);
      assert h + rest == (h + Le(k, w) + flags) + Le(provider, 4) + payload;
      FieldFits(h + Le(k, w) + flags, provider, 4, payload);
    case _ =>
      assert h + rest == h + Le(k, w) + payload;
      FieldFits(h, k, w, payload);
  }

  /** What a kernel of the client's version says about a source is what the client takes it to say. */
  lemma NoticeDecodes(h: Handler, n: Notice, payload: Bytes)
    requires Sendable(h.version, n)
    ensures var b := NoticeBytes(h.version, n, payload);
            DecodeBody(h, b) ==
            match n
            case Arrival(k, provider) => SrcAdded(k, provider)
            case Departure(k) => SrcRemoved(k)
            case Details(k, provider) => SrcDesc(k, Classify(h.version, provider, h.descriptor(b)))
            case Totals(k) => SrcCounts(k, h.counters(b), !h.version.V2422?)
  {
    hide NoticeBytes, SrcRefOf, TypeOf;
    NoticeHeader(h.version, n, payload);
    NoticeRef(h.version, n, payload);
  }
}
