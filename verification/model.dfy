/** The client as a pure state machine: its state, one step per event, and runs. */
module Model {
  import opened ByteStrings
  import opened Options
  import opened Streams
  import opened Codec
  import opened Frames

  const KEEP_SECONDS := 30
  const CLEANUP_SECONDS := 60
  const MIN_INTERVAL := 30
  const MIN_QUERY_AGE := 15
  const SEQ_MODULUS := 0x1_0000
  const COUNTER_MODULUS := 0x1_0000_0000
  const ENOBUFS := 55

  // ---- state ---------------------------------------------------------------

  datatype Source = Source(
    provider: nat, obj: Stream, haveDesc: bool, notified: bool, requested: bool,
    tsAdded: nat, tsRemoved: nat, tsLastUpdate: nat)

  datatype QMsg = QMsg(seqnum: nat, bytes: Bytes)

  datatype Phase = Start | RequestTcp | RequestUdp | Running

  datatype CallKind = OnAdded | OnRemoved | OnStatsUpdate

  /** A listener callback with its snapshot of the stream; `at` and `pos` say when it was made: the clock, and
      the index in the log of the message being handled. */
  datatype Call = Call(kind: CallKind, stream: Stream, at: nat, pos: nat)

  /** History: what was written to the kernel, read from it, and which sources each scan selected. */
  datatype Entry = Sent(bytes: Bytes, at: nat) | Got(bytes: Bytes, at: nat) | Scanned(due: set<nat>, at: nat)

  datatype State = State(
    sources: map<nat, Source>,
    waitDesc: set<nat>,
    waitCount: map<nat, bool>,   // false: the entry holds a source that has been removed
    outq: seq<QMsg>,
    seqnum: nat,
    pending: map<nat, Bytes>,
    phase: Phase,
    drops: nat,
    errors: nat,
    log: seq<Entry>,
    calls: seq<Call>)

  datatype Config = Config(handler: Handler, wantTcp: bool, wantUdp: bool, interval: nat)

  const INITIAL := State(map[], {}, map[], [], 1, map[], Start, 0, 0, [], [])

  function Lookup(m: map<nat, Source>, k: nat): Option<Source> {
    if k in m then Some(m[k]) else None
  }

  // ---- one source ----------------------------------------------------------

  function Fresh(k: nat, provider: nat, now: nat): Source {
    Source(provider, BlankStream(k), false, false, false, now, 0, 0)
  }

  const KERNEL_TASK: Bytes := [107, 101, 114, 110, 101, 108, 95, 116, 97, 115, 107]

  function NameKernel(obj: Stream): Stream {
    if obj.process.pid == 0 then obj.(process := obj.process.(name := KERNEL_TASK)) else obj
  }

  /** A source after a message about it; a message about an unknown source leaves it unknown unless it adds it. */
  function Touch(o: Option<Source>, b: Body, now: nat): Option<Source>
    requires AboutSource(b)
  {
    match b
    case SrcAdded(k, provider) =>
      Some(if o.Some? && o.value.tsRemoved == 0 then o.value else Fresh(k, provider, now))
    case SrcRemoved(_) => if o.None? then None else Some(o.value.(tsRemoved := now))
    case SrcDesc(_, desc) =>
      if o.None? then None else
      (match ReadDesc(o.value.obj, desc)
       case None => o
       case Some(obj) => Some(o.value.(obj := NameKernel(obj), haveDesc := true, notified := true)))
    case SrcCounts(_, counters, wired) =>
      if o.None? then None else
      Some(o.value.(obj := o.value.obj.(stats := ReadCounts(o.value.obj.stats, counters, wired)),
                    tsLastUpdate := now, requested := false))
  }

  /** The callback, if any, that a message about a source causes. */
  function Report(o: Option<Source>, b: Body, now: nat, pos: nat): seq<Call>
    requires AboutSource(b)
  {
    if o.None? then [] else
    var src := o.value;
    match b
    case SrcAdded(_, _) => []
    case SrcRemoved(_) => if HasPorts(src.obj) then [Call(OnRemoved, src.obj, now, pos)] else []
    case SrcDesc(_, desc) =>
      (match ReadDesc(src.obj, desc)
       case None => []
       case Some(obj) =>
         if !src.notified && HasPorts(obj) then [Call(OnAdded, NameKernel(obj), now, pos)] else [])
    case SrcCounts(_, counters, wired) =>
      var obj := src.obj.(stats := ReadCounts(src.obj.stats, counters, wired));
      if src.haveDesc && src.requested && (obj.stats.rxpackets > 0 || obj.stats.txpackets > 0)
      then [Call(OnStatsUpdate, obj, now, pos)] else []
  }

  lemma UnknownStaysUnknown(b: Body, now: nat, pos: nat)
    requires AboutSource(b)
    ensures Report(None, b, now, pos) == []
    ensures !b.SrcAdded? ==> Touch(None, b, now) == None
  {
  }

  /** When the source was last heard from: its last counts, or its arrival. */
  function LastHeard(src: Source): nat {
    if src.tsLastUpdate == 0 then src.tsAdded else src.tsLastUpdate
  }

  predicate Due(src: Source, now: nat) {
    src.tsRemoved == 0 && src.obj.key.rport != 0 && HasPorts(src.obj) && now - LastHeard(src) >= MIN_QUERY_AGE
  }

  predicate Expired(src: Source, now: nat) {
    src.tsRemoved > 0 && now - src.tsRemoved > KEEP_SECONDS
  }

  // ---- messages ------------------------------------------------------------

  function OnSource(s: State, b: Body, now: nat, pos: nat): State
    requires AboutSource(b)
  {
    var k := b.ref;
    var o := Lookup(s.sources, k);
    var o' := Touch(o, b, now);
    s.(sources := if o'.Some? then s.sources[k := o'.value] else s.sources,
       waitDesc :=
         if b.SrcAdded? then (if o'.value.haveDesc then s.waitDesc else s.waitDesc + {k})
         else if o.Some? && (b.SrcRemoved? || b.SrcDesc?) then s.waitDesc - {k}
         else s.waitDesc,
       waitCount := if b.SrcRemoved? && o.Some? && k in s.waitCount then s.waitCount[k := false] else s.waitCount,
       calls := s.calls + Report(o, b, now, pos))
  }

  /** The state after a source of the table has been marked as removed. */
  function Retired(s: State, k: nat, now: nat): State
    requires k in s.sources
  {
    s.(sources := s.sources[k := s.sources[k].(tsRemoved := now)],
       waitDesc := s.waitDesc - {k},
       waitCount := if k in s.waitCount then s.waitCount[k := false] else s.waitCount)
  }

  function Enqueue(v: Version, s: State, r: Request): State {
    s.(outq := s.outq + [QMsg(s.seqnum, Encode(v, s.seqnum, r))], seqnum := (s.seqnum + 1) % SEQ_MODULUS)
  }

  function CountError(s: State, code: nat): State {
    s.(errors := (s.errors + 1) % COUNTER_MODULUS,
       drops := if code == ENOBUFS then (s.drops + 1) % COUNTER_MODULUS else s.drops)
  }

  predicate NotFatal(code: nat) {
    code == ENOBUFS || code == 0
  }

  /** SUCCESS and ERROR drive the subscription until RUNNING is reached; errors are counted in every state. */
  function OnControl(c: Config, s: State, b: Body): State
    requires b.Success? || b.Error?
  {
    var s1 := if b.Error? then CountError(s, b.code) else s;
    if s.phase == Running then s1
    else if s.phase == RequestTcp && (b.Success? || NotFatal(b.code)) && c.wantUdp then
      Enqueue(c.handler.version, s1.(phase := RequestUdp), AddAllUdp)
    else s1.(phase := Running)
  }

  function OnMessage(c: Config, s: State, m: Msg, now: nat, pos: nat): State {
    var s1 := s.(pending := s.pending - {m.context});
    if m.body.Success? || m.body.Error? then OnControl(c, s1, m.body)
    else if AboutSource(m.body) then OnSource(s1, m.body, now, pos)
    else s1
  }

  function OnReceive(c: Config, s: State, bytes: Bytes, now: nat): State {
    if bytes == [] then s
    else OnMessage(c, s.(log := s.log + [Got(bytes, now)]), Decode(c.handler, bytes), now, |s.log|)
  }

  // ---- timers and sending --------------------------------------------------

  function DueSet(s: State, now: nat): set<nat> {
    set k | k in s.sources && Due(s.sources[k], now)
  }

  /** The state with the given sources marked as wanting counts. */
  function Marked(s: State, due: set<nat>): State {
    s.(sources := map k | k in s.sources ::
                    if k in due then s.sources[k].(requested := true) else s.sources[k],
       waitCount := map k | k in s.waitCount.Keys + due :: if k in due then true else s.waitCount[k])
  }

  function OnScan(s: State, now: nat): State {
    Marked(s, DueSet(s, now)).(log := s.log + [Scanned(DueSet(s, now), now)])
  }

  function ExpiredSet(s: State, now: nat): set<nat> {
    set k | k in s.sources && Expired(s.sources[k], now)
  }

  function OnSweep(s: State, now: nat): State {
    s.(sources := s.sources - ExpiredSet(s, now))
  }

  ghost predicate IsMin(k: nat, ks: set<nat>) {
    k in ks && forall j :: j in ks ==> k <= j
  }

  lemma MinExists(ks: set<nat>)
    requires ks != {}
    ensures exists k :: IsMin(k, ks)
  {
    var k :| k in ks;
    if ks == {k} {
      assert IsMin(k, ks);
    } else {
      assert ks - {k} != {};
      MinExists(ks - {k});
      var j :| IsMin(j, ks - {k});
      var m := if j < k then j else k;
      forall i | i in ks
        ensures m <= i
      {
        assert i == k || i in ks - {k};
      }
      assert IsMin(m, ks);
    }
  }

  /** The first key of an ordered map. */
  ghost function Min(ks: set<nat>): (k: nat)
    requires ks != {}
    ensures k in ks && IsMin(k, ks)
  {
    MinExists(ks);
    var k :| IsMin(k, ks);
    k
  }

  predicate Wanted(s: State, k: nat)
    requires k in s.waitCount
  {
    s.waitCount[k] && k in s.sources && s.sources[k].requested
  }

  ghost function TakeDesc(v: Version, s: State): State {
    if s.outq == [] && s.waitDesc != {} then
      var k := Min(s.waitDesc);
      Enqueue(v, s.(waitDesc := s.waitDesc - {k}), GetSrcDesc(k))
    else s
  }

  ghost function TakeCount(v: Version, s: State): State {
    if s.outq == [] && s.waitCount.Keys != {} then
      var k := Min(s.waitCount.Keys);
      var s1 := s.(waitCount := s.waitCount - {k});
      if Wanted(s, k) then Enqueue(v, s1, QuerySrc(k)) else s1
    else s
  }

  function WriteFirst(s: State, now: nat): State {
    if s.outq == [] then s else
    var q := s.outq[0];
    s.(outq := s.outq[1..], pending := s.pending[q.seqnum := q.bytes], log := s.log + [Sent(q.bytes, now)])
  }

  ghost function OnSend(v: Version, s: State, now: nat): State {
    WriteFirst(TakeCount(v, TakeDesc(v, s)), now)
  }

  // ---- runs ----------------------------------------------------------------

  /** What can happen to the client; `now` is the clock reading the client takes while it happens. */
  datatype Event = Recv(bytes: Bytes, now: nat) | Scan(now: nat) | Sweep(now: nat) | Send(now: nat)

  ghost function Step(c: Config, s: State, e: Event): State {
    match e
    case Recv(bytes, now) => OnReceive(c, s, bytes, now)
    case Scan(now) => OnScan(s, now)
    case Sweep(now) => OnSweep(s, now)
    case Send(now) => OnSend(c.handler.version, s, now)
  }

  ghost function Exec(c: Config, s: State, evs: seq<Event>): State
    decreases |evs|
  {
    if evs == [] then s else Exec(c, Step(c, s, evs[0]), evs[1..])
  }

  /** Subscribing: the state in which the loop of `run` is entered. */
  function Started(c: Config): State {
    if c.wantTcp then Enqueue(c.handler.version, INITIAL.(phase := RequestTcp), AddAllTcp)
    else Enqueue(c.handler.version, INITIAL.(phase := RequestUdp), AddAllUdp)
  }

  lemma {:induction false} ExecAppend(c: Config, s: State, a: seq<Event>, b: seq<Event>)
    ensures Exec(c, s, a + b) == Exec(c, Exec(c, s, a), b)
    decreases |a|
  {
    if a == [] {
      assert a + b == b;
    } else {
      assert (a + b)[1..] == a[1..] + b;
      ExecAppend(c, Step(c, s, a[0]), a[1..], b);
    }
  }

  lemma ExecOne(c: Config, s: State, evs: seq<Event>, e: Event)
    ensures Exec(c, s, evs + [e]) == Step(c, Exec(c, s, evs), e)
  {
    ExecAppend(c, s, evs, [e]);
  }

  /** Clock readings are positive and do not go back. Cleanup reads a clock of its own after the loop has read the
      one it passes to the scan, so a scan may carry an earlier reading than the cleanup before it; `t` is the
      latest reading other than by a cleanup and `w` the latest by a cleanup. */
  ghost predicate Ordered(evs: seq<Event>, t: nat, w: nat)
    decreases |evs|
  {
    evs == [] ||
    match evs[0]
    case Recv(_, now) => now > 0 && t <= now && w <= now && Ordered(evs[1..], now, w)
    case Scan(now) => now > 0 && t <= now && Ordered(evs[1..], now, w)
    case Sweep(now) => now > 0 && t <= now && w <= now && Ordered(evs[1..], t, now)
    case Send(now) => now > 0 && t <= now && w <= now && Ordered(evs[1..], now, w)
  }

  // ---- invariant of every reachable state ----------------------------------

  ghost predicate GoodSource(v: Version, k: nat, src: Source) {
    && FitsRef(v, k) && src.obj.id == k
    && src.haveDesc == src.notified
    && (HasPorts(src.obj) ==> src.haveDesc)
  }

  /** Only live undescribed sources wait for a description, and only live described ones wait, effectively, for counts. */
  ghost predicate WF(v: Version, s: State) {
    && (forall k :: k in s.sources ==> GoodSource(v, k, s.sources[k]))
    && (forall k :: k in s.waitDesc ==> k in s.sources && s.sources[k].tsRemoved == 0 && !s.sources[k].haveDesc)
    && (forall k :: k in s.waitCount ==> FitsRef(v, k))
    && (forall k :: k in s.waitCount && s.waitCount[k] ==>
          k in s.sources && s.sources[k].tsRemoved == 0 && s.sources[k].haveDesc)
    && s.seqnum < SEQ_MODULUS
    && (forall i :: 0 <= i < |s.outq| ==> s.outq[i].seqnum < SEQ_MODULUS)
  }

  lemma DescKeepsId(obj: Stream, desc: Description)
    ensures ReadDesc(obj, desc).Some? ==> ReadDesc(obj, desc).value.id == obj.id
  {
  }

  lemma OnSourceKeepsWF(v: Version, s: State, b: Body, now: nat, pos: nat)
    requires WF(v, s) && AboutSource(b) && FitsRef(v, b.ref) && now > 0
    ensures WF(v, OnSource(s, b, now, pos))
  {
    hide ReadCounts, FitsRef;
  }

  lemma EnqueueKeepsWF(v: Version, s: State, r: Request)
    requires WF(v, s)
    ensures WF(v, Enqueue(v, s, r))
  {
  }

  lemma EnqueueKeeps(v: Version, s: State, r: Request)
    ensures Enqueue(v, s, r) == s.(outq := Enqueue(v, s, r).outq, seqnum := (s.seqnum + 1) % SEQ_MODULUS)
  {
    hide Encode;
  }

  lemma StartedKeepsWF(c: Config)
    ensures WF(c.handler.version, Started(c))
  {
    hide Enqueue;
    EnqueueKeepsWF(c.handler.version, INITIAL.(phase := RequestTcp), AddAllTcp);
    EnqueueKeepsWF(c.handler.version, INITIAL.(phase := RequestUdp), AddAllUdp);
  }

  lemma OnControlKeepsWF(c: Config, s: State, b: Body)
    requires WF(c.handler.version, s) && (b.Success? || b.Error?)
    ensures WF(c.handler.version, OnControl(c, s, b))
  {
    var v := c.handler.version;
    var s1 := if b.Error? then CountError(s, b.code) else s;
    assert WF(v, s1.(phase := RequestUdp));
    EnqueueKeepsWF(v, s1.(phase := RequestUdp), AddAllUdp);
  }

  lemma OnMessageKeepsWF(c: Config, s: State, m: Msg, now: nat, pos: nat)
    requires WF(c.handler.version, s) && now > 0
    requires AboutSource(m.body) ==> FitsRef(c.handler.version, m.body.ref)
    ensures WF(c.handler.version, OnMessage(c, s, m, now, pos))
  {
    var s1 := s.(pending := s.pending - {m.context});
    assert WF(c.handler.version, s1);
    if AboutSource(m.body) {
      OnSourceKeepsWF(c.handler.version, s1, m.body, now, pos);
    } else if !m.body.Unknown? {
      OnControlKeepsWF(c, s1, m.body);
    }
  }

  lemma DecodedRefFits(h: Handler, b: Bytes)
    ensures AboutSource(DecodeBody(h, b)) ==> FitsRef(h.version, DecodeBody(h, b).ref)
  {
  }

  lemma OnReceiveKeepsWF(c: Config, s: State, bytes: Bytes, now: nat)
    requires WF(c.handler.version, s) && now > 0
    ensures WF(c.handler.version, OnReceive(c, s, bytes, now))
  {
    if bytes != [] {
      DecodedRefFits(c.handler, bytes);
      OnMessageKeepsWF(c, s.(log := s.log + [Got(bytes, now)]), Decode(c.handler, bytes), now, |s.log|);
    }
  }

  lemma OnScanKeepsWF(v: Version, s: State, now: nat)
    requires WF(v, s)
    ensures WF(v, OnScan(s, now))
  {
  }

  lemma TakeDescKeepsWF(v: Version, s: State)
    requires WF(v, s)
    ensures WF(v, TakeDesc(v, s))
  {
    hide Enqueue, HasPorts;
    if s.outq == [] && s.waitDesc != {} {
      var k := Min(s.waitDesc);
      EnqueueKeepsWF(v, s.(waitDesc := s.waitDesc - {k}), GetSrcDesc(k));
    }
  }

  lemma TakeCountKeepsWF(v: Version, s: State)
    requires WF(v, s)
    ensures WF(v, TakeCount(v, s))
  {
    hide Enqueue, HasPorts;
    if s.outq == [] && s.waitCount.Keys != {} {
      var k := Min(s.waitCount.Keys);
      EnqueueKeepsWF(v, s.(waitCount := s.waitCount - {k}), QuerySrc(k));
    }
  }

  lemma OnSendKeepsWF(v: Version, s: State, now: nat)
    requires WF(v, s)
    ensures WF(v, OnSend(v, s, now))
  {
    hide TakeDesc, TakeCount, HasPorts;
    TakeDescKeepsWF(v, s);
    TakeCountKeepsWF(v, TakeDesc(v, s));
  }

  /** The invariant holds along every run. */
  lemma StepKeepsWF(c: Config, s: State, e: Event)
    requires WF(c.handler.version, s) && e.now > 0
    ensures WF(c.handler.version, Step(c, s, e))
  {
    match e
    case Recv(bytes, now) => OnReceiveKeepsWF(c, s, bytes, now);
    case Scan(now) => OnScanKeepsWF(c.handler.version, s, now);
    case Sweep(_) =>
    case Send(now) => OnSendKeepsWF(c.handler.version, s, now);
  }

  lemma {:induction false} ExecKeepsWF(c: Config, s: State, evs: seq<Event>)
    requires WF(c.handler.version, s)
    requires forall i :: 0 <= i < |evs| ==> evs[i].now > 0
    ensures WF(c.handler.version, Exec(c, s, evs))
    decreases |evs|
  {
    if evs != [] {
      StepKeepsWF(c, s, evs[0]);
      ExecKeepsWF(c, Step(c, s, evs[0]), evs[1..]);
    }
  }

  // ---- recording and replay ------------------------------------------------

  /** The frames a recording of the logged history consists of; scans leave no frame. */
  function FramesOf(log: seq<Entry>): seq<Frame> {
    if log == [] then []
    else
      var e := log[|log| - 1];
      FramesOf(log[..|log| - 1]) + (if e.Scanned? then [] else [Frame(e.at, e.bytes)])
  }

  /** One recorded message replayed: requests only enter the correlation map, all else is handled as if just received. */
  function ReplayStep(c: Config, s: State, bytes: Bytes, now: nat): State {
    if IsRequestType(TypeOf(bytes)) then s.(pending := s.pending[ContextOf(bytes) := bytes])
    else OnMessage(c, s, Decode(c.handler, bytes), now, 0)
  }

  /** Replay assumes RUNNING unless the first message is a subscription. `clock` gives the clock reading at each frame. */
  function Replay(c: Config, fs: seq<Frame>, clock: nat -> nat): State {
    if fs == [] then INITIAL.(phase := Running)
    else
      var n := |fs| - 1;
      var s := Replay(c, fs[..n], clock);
      ReplayStep(c, StartSession(s, fs[n].bytes, n == 0), fs[n].bytes, clock(n))
  }

  /** A subscription as the first message means that the recording holds a session from its start. */
  function StartSession(s: State, bytes: Bytes, first: bool): State {
    if first && TypeOf(bytes) == ADD_ALL_SRCS then s.(phase := Start) else s
  }

  lemma ReplayNothing(c: Config, clock: nat -> nat)
    ensures Replay(c, [], clock) == INITIAL.(phase := Running)
  {
  }

  lemma ReplayAppend(c: Config, fs: seq<Frame>, f: Frame, clock: nat -> nat)
    ensures Replay(c, fs + [f], clock) ==
            ReplayStep(c, StartSession(Replay(c, fs, clock), f.bytes, fs == []), f.bytes, clock(|fs|))
  {
    assert (fs + [f])[..|fs|] == fs;
  }
}
