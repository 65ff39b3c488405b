/** Which callbacks are made, and with what snapshot, as it follows from the log. */
module Reports {
  import opened ByteStrings
  import opened Options
  import opened Streams
  import opened Codec
  import opened Model
  import opened Cleanup
  import opened Isolation
  import opened ListenerProtocol
  import opened Rate
  import opened History

  /** The source has had an accepted description since entry `b`. */
  ghost predicate DescribedSince(c: Config, log: seq<Entry>, k: nat, b: nat) {
    exists j :: b <= j < |log| && Tells(c, log[j], Describing, k)
  }

  /** A scan has selected the source since entry `b` and no counts have come since that scan. */
  ghost predicate AskedSince(c: Config, log: seq<Entry>, k: nat, b: nat) {
    exists j :: b <= j < |log| && Selects(log[j], k) && forall i :: j < i < |log| ==> !Tells(c, log[i], Counting, k)
  }

  predicate NamesPorts(d: Descriptor) {
    d.lport != 0 || d.rport != 0
  }

  /** The last TCP or UDP description since entry `b` names a port. */
  ghost predicate PortsKnown(c: Config, log: seq<Entry>, k: nat, b: nat) {
    exists j :: b <= j < |log| && Tells(c, log[j], Naming, k) && NamesPorts(NamedIn(c, log[j])) &&
      forall i :: j < i < |log| ==> !Tells(c, log[i], Naming, k)
  }

  lemma SinceByLatest(c: Config, log: seq<Entry>, k: nat, b: nat)
    ensures DescribedSince(c, log, k, b) <==> Latest(c, log, Describing, k, b).Some?
  {
    hide Tells, Latest;
    var j := LatestIsLast(c, log, Describing, k, b);
  }

  lemma SelectsOrCounts(c: Config, en: Entry, k: nat)
    ensures Tells(c, en, Asking, k) <==> Selects(en, k) || Tells(c, en, Counting, k)
    ensures Selects(en, k) ==> en.Scanned?
    ensures Tells(c, en, Counting, k) ==> !en.Scanned?
  {
  }

  lemma AskedByLatest(c: Config, log: seq<Entry>, k: nat, b: nat)
    ensures var asked := Latest(c, log, Asking, k, b);
            AskedSince(c, log, k, b) <==> asked.Some? && asked.value.Scanned?
  {
    hide Tells, Selects, Latest;
    var j := LatestIsLast(c, log, Asking, k, b);
    forall i | 0 <= i < |log|
      ensures Tells(c, log[i], Asking, k) <==> Selects(log[i], k) || Tells(c, log[i], Counting, k)
      ensures Selects(log[i], k) ==> log[i].Scanned?
      ensures Tells(c, log[i], Counting, k) ==> !log[i].Scanned?
    {
      SelectsOrCounts(c, log[i], k);
    }
    if AskedSince(c, log, k, b) {
      var i :| b <= i < |log| && Selects(log[i], k) && forall m :: i < m < |log| ==> !Tells(c, log[m], Counting, k);
      assert Tells(c, log[i], Asking, k);
      assert i <= j && Tells(c, log[j], Asking, k);
    }
  }

  lemma PortsByLatest(c: Config, log: seq<Entry>, k: nat, b: nat)
    ensures var named := Latest(c, log, Naming, k, b);
            PortsKnown(c, log, k, b) <==>
            named.Some? && Tells(c, named.value, Naming, k) && NamesPorts(NamedIn(c, named.value))
  {
    var j := LatestIsLast(c, log, Naming, k, b);
    hide NamesPorts, Latest;
    if PortsKnown(c, log, k, b) {
      var i :| b <= i < |log| && Tells(c, log[i], Naming, k) && NamesPorts(NamedIn(c, log[i])) &&
               forall m :: i < m < |log| ==> !Tells(c, log[m], Naming, k);
      assert i == j;
    }
  }

  // ---- one message about a source in the table ---------------------------------

  /** Exactly one callback has been made, of that kind, with a snapshot as the log draws it. */
  ghost predicate Calls(c: Config, s: State, s': State, kind: CallKind, k: nat, b: nat, now: nat) {
    && |s'.calls| == |s.calls| + 1 && s'.calls[..|s.calls|] == s.calls
    && var call := s'.calls[|s.calls|];
       call.kind == kind && call.at == now && Portrays(c, s'.log, k, b, call.stream)
  }

  lemma OneCall(c: Config, s: State, s': State, call: Call, k: nat, b: nat)
    requires s'.calls == s.calls + [call] && Portrays(c, s'.log, k, b, call.stream)
    ensures Calls(c, s, s', call.kind, k, b, call.at)
  {
    hide Portrays;
  }

  /** What a message about a source in the table does to the callbacks, and the portrait it leaves. */
  lemma MessageReports(c: Config, s: State, e: Event, k: nat)
    requires WF(c.handler.version, s) && Recounts(c, s, k) && k in s.sources && e.now > 0
    requires IsAbout(c, e) && DecodeBody(c.handler, e.bytes).ref == k && !DecodeBody(c.handler, e.bytes).SrcAdded?
    ensures var s', b, body := Step(c, s, e), Birth(c, s.log, k).value, DecodeBody(c.handler, e.bytes);
            && s'.calls == s.calls + Report(Some(s.sources[k]), body, e.now, |s.log|)
            && Touch(Some(s.sources[k]), body, e.now).Some?
            && Portrays(c, s'.log, k, b, Touch(Some(s.sources[k]), body, e.now).value.obj)
  {
    hide DecodeBody, Touch, Report, Step, WF, Dated, Portrays;
    CallsOf(c, s, e);
    ReceiveLog(c, s, e);
    TouchSome(s.sources[k], DecodeBody(c.handler, e.bytes), e.now);
    PortraitByMessage(c, s.log, k, Birth(c, s.log, k).value, s.sources[k], e.bytes, e.now);
  }

  /** An update is reported for a source in the table exactly when the source has been described since its life began,
      a scan has asked for counts that have not come since, and the counts are of some packets. */
  lemma UpdateReported(c: Config, s: State, e: Event, k: nat)
    requires WF(c.handler.version, s) && Recounts(c, s, k) && k in s.sources && e.now > 0
    requires IsAbout(c, e) && DecodeBody(c.handler, e.bytes).SrcCounts? && DecodeBody(c.handler, e.bytes).ref == k
    ensures var s', b, n := Step(c, s, e), Birth(c, s.log, k).value, c.handler.counters(e.bytes);
            if DescribedSince(c, s.log, k, b) && AskedSince(c, s.log, k, b) && (n.rxpackets > 0 || n.txpackets > 0)
            then Calls(c, s, s', OnStatsUpdate, k, b, e.now) else s'.calls == s.calls
  {
    hide Step, WF, Portrays, SrcRefOf, TypeOf, Calls, DescribedSince, AskedSince, Latest, Birth, Said;
    var b := Birth(c, s.log, k).value;
    MessageReports(c, s, e, k);
    SinceByLatest(c, s.log, k, b);
    AskedByLatest(c, s.log, k, b);
    var r := Report(Some(s.sources[k]), DecodeBody(c.handler, e.bytes), e.now, |s.log|);
    if r == [] {
      assert s.calls + r == s.calls;
    } else {
      assert r == [r[0]];
      OneCall(c, s, Step(c, s, e), r[0], k, b);
    }
  }

  /** A departure is reported exactly when the last description of the source's life named a port. */
  lemma DepartureReported(c: Config, s: State, e: Event, k: nat)
    requires WF(c.handler.version, s) && Recounts(c, s, k) && k in s.sources && e.now > 0
    requires IsAbout(c, e) && DecodeBody(c.handler, e.bytes) == SrcRemoved(k)
    ensures var s', b := Step(c, s, e), Birth(c, s.log, k).value;
            if PortsKnown(c, s.log, k, b) then Calls(c, s, s', OnRemoved, k, b, e.now) else s'.calls == s.calls
  {
    hide Step, WF, DecodeBody, Calls, PortsKnown, Latest, Birth, Said, Tells, NamedIn;
    var b := Birth(c, s.log, k).value;
    MessageReports(c, s, e, k);
    PortsByLatest(c, s.log, k, b);
    LatestTells(c, s.log, Naming, k, b);
    var r := Report(Some(s.sources[k]), SrcRemoved(k), e.now, |s.log|);
    if r == [] {
      assert s.calls + r == s.calls;
    } else {
      assert r == [r[0]];
      OneCall(c, s, Step(c, s, e), r[0], k, b);
    }
  }

  /** An arrival is reported exactly when the description is the first accepted one of the source's life and names a
      port. */
  lemma ArrivalReported(c: Config, s: State, e: Event, k: nat)
    requires WF(c.handler.version, s) && Recounts(c, s, k) && k in s.sources && e.now > 0
    requires IsAbout(c, e) && DecodeBody(c.handler, e.bytes).SrcDesc? && DecodeBody(c.handler, e.bytes).ref == k
    ensures var s', b, desc := Step(c, s, e), Birth(c, s.log, k).value, DecodeBody(c.handler, e.bytes).desc;
            if !DescribedSince(c, s.log, k, b) && !desc.OtherProvider? && NamesPorts(desc.d)
            then Calls(c, s, s', OnAdded, k, b, e.now) else s'.calls == s.calls
  {
    hide Step, DecodeBody, Portrays, Calls, DescribedSince, Latest, Birth, Said, DescribedProcess, StoreAddress;
    hide FitsRef;
    var b := Birth(c, s.log, k).value;
    MessageReports(c, s, e, k);
    SinceByLatest(c, s.log, k, b);
    assert s.sources[k].notified || !HasPorts(s.sources[k].obj);
    var r := Report(Some(s.sources[k]), DecodeBody(c.handler, e.bytes), e.now, |s.log|);
    if r == [] {
      assert s.calls + r == s.calls;
    } else {
      assert r == [r[0]];
      OneCall(c, s, Step(c, s, e), r[0], k, b);
    }
  }

  /** Nothing else calls the listener: not the timers, not sending, not a message about an unknown source, not an
      SRC_ADDED, nor a message that is about no source. */
  lemma NothingElseReported(c: Config, s: State, e: Event)
    requires IsAbout(c, e) ==>
               DecodeBody(c.handler, e.bytes).SrcAdded? || DecodeBody(c.handler, e.bytes).ref !in s.sources
    ensures Step(c, s, e).calls == s.calls
  {
    hide DecodeBody, OnReceive, OnScan, OnSend;
    if IsAbout(c, e) {
      CallsOf(c, s, e);
      var b := DecodeBody(c.handler, e.bytes);
      UnknownStaysUnknown(b, e.now, |s.log|);
      assert s.calls + [] == s.calls;
    } else if e.Recv? {
      ReceiveOther(c, s, e);
    } else {
      OtherCalls(c, s, e);
    }
  }

  // ---- from the kernel's bytes to the listener -------------------------------------

  function Receives(c: Config, n: Notice, payload: Bytes, now: nat): Event {
    Recv(NoticeBytes(c.handler.version, n, payload), now)
  }

  /** The providers by which a kernel of the version describes TCP, and by which UDP streams. */
  function Providers(v: Version, proto: nat): set<nat> {
    if Wide(v) then (if proto == 6 then {2, 3} else {4, 5}) else (if proto == 6 then {2} else {3})
  }

  /** The descriptor in which a kernel lays out a stream. */
  function LaidOut(key: StreamKey, p: Process, st: StreamState): Descriptor {
    Descriptor(key.isV6 != 0, key.ifindex, key.lport, key.rport, key.local, key.remote,
               st.txwindow, st.txcwindow, st.state, p.pid, p.name)
  }

  /** A message that describes source `k` as that stream. */
  predicate LaysOut(c: Config, k: nat, provider: nat, payload: Bytes, key: StreamKey, p: Process, st: StreamState) {
    && key.isV6 <= 1 && key.ipproto in {6, 17} && provider in Providers(c.handler.version, key.ipproto)
    && c.handler.descriptor(NoticeBytes(c.handler.version, Details(k, provider), payload)) == LaidOut(key, p, st)
  }

  /** The snapshot is that stream, the kernel's own process being named for it. */
  predicate Shows(obj: Stream, k: nat, key: StreamKey, p: Process, st: StreamState) {
    && obj.id == k && obj.key.SameStream(key) && obj.process.pid == p.pid
    && obj.process.name == (if p.pid == 0 then KERNEL_TASK else p.name)
    && (key.ipproto == 6 ==> obj.states == st)
  }

  lemma LayoutDecodes(c: Config, k: nat, provider: nat, payload: Bytes, key: StreamKey, p: Process, st: StreamState)
    requires FitsRef(c.handler.version, k) && LaysOut(c, k, provider, payload, key, p, st)
    ensures var desc := if key.ipproto == 6 then Tcp(LaidOut(key, p, st)) else Udp(LaidOut(key, p, st));
            DecodeBody(c.handler, NoticeBytes(c.handler.version, Details(k, provider), payload)) == SrcDesc(k, desc)
  {
    hide DecodeBody, NoticeBytes, LaidOut;
    Pow256Values();
    NoticeDecodes(c.handler, Details(k, provider), payload);
  }

  /** Other providers are accepted from xnu-4570 on and rejected before; either way they name no stream. */
  lemma OtherProvidersDecode(c: Config, k: nat, provider: nat, payload: Bytes)
    requires FitsRef(c.handler.version, k) && provider < 0x1_0000_0000
    requires provider !in Providers(c.handler.version, 6) + Providers(c.handler.version, 17)
    ensures DecodeBody(c.handler, NoticeBytes(c.handler.version, Details(k, provider), payload)) ==
            SrcDesc(k, OtherProvider(c.handler.version == V4570))
  {
    hide DecodeBody, NoticeBytes;
    Pow256Values();
    NoticeDecodes(c.handler, Details(k, provider), payload);
  }

  /** Whatever is portrayed after such a message shows that stream. */
  lemma LayoutIsShown(c: Config, log: seq<Entry>, bytes: Bytes, now: nat, k: nat, b: nat, obj: Stream,
                      key: StreamKey, p: Process, st: StreamState)
    requires bytes != [] && key.isV6 <= 1 && key.ipproto in {6, 17} && Portrays(c, log, k, b, obj)
    requires DecodeBody(c.handler, bytes) ==
             SrcDesc(k, if key.ipproto == 6 then Tcp(LaidOut(key, p, st)) else Udp(LaidOut(key, p, st)))
    requires Latest(c, log, Naming, k, b) == Some(Got(bytes, now))
    requires key.ipproto == 6 ==> Latest(c, log, NamingTcp, k, b) == Some(Got(bytes, now))
    ensures Shows(obj, k, key, p, st)
  {
    hide DecodeBody, Latest;
  }

  /** In any run, the first description of a live source is announced exactly when it names a port, and as the stream
      the kernel laid out. */
  lemma AnnouncedAsLaidOut(c: Config, s: State, k: nat, provider: nat, payload: Bytes, now: nat,
                           key: StreamKey, p: Process, st: StreamState)
    requires WF(c.handler.version, s) && Recounts(c, s, k) && LiveAt(c, s.log, k, |s.log|) && now > 0
    requires FitsRef(c.handler.version, k) && LaysOut(c, k, provider, payload, key, p, st)
    requires Birth(c, s.log, k).Some? ==> !DescribedSince(c, s.log, k, Birth(c, s.log, k).value)
    ensures var s' := Step(c, s, Receives(c, Details(k, provider), payload, now));
            if key.lport != 0 || key.rport != 0
            then |s'.calls| == |s.calls| + 1 && s'.calls[..|s.calls|] == s.calls &&
                 s'.calls[|s.calls|].kind == OnAdded && Shows(s'.calls[|s.calls|].stream, k, key, p, st)
            else s'.calls == s.calls
  {
    hide DecodeBody, NoticeBytes, Step, WF, Dated, Portrays, Latest, DescribedSince, Birth, LiveAt, Shows;
    var e := Receives(c, Details(k, provider), payload, now);
    LayoutDecodes(c, k, provider, payload, key, p, st);
    hide LaysOut;
    ArrivalReported(c, s, e, k);
    ReceiveLog(c, s, e);
    LatestAppend(c, s.log, Got(e.bytes, now), k, Birth(c, s.log, k).value);
    TellsOfMessage(c, e.bytes, now, k);
    if key.lport != 0 || key.rport != 0 {
      var s' := Step(c, s, e);
      LayoutIsShown(c, s'.log, e.bytes, now, k, Birth(c, s.log, k).value, s'.calls[|s.calls|].stream, key, p, st);
    }
  }

  lemma ArrivalLives(c: Config, s: State, k: nat, provider: nat, now: nat)
    requires WF(c.handler.version, s) && Recounts(c, s, k) && s.log == [] && s.calls == [] && now > 0
    requires FitsRef(c.handler.version, k) && provider < 256
    ensures var s' := Step(c, s, Receives(c, Arrival(k, provider), [], now));
            && s'.calls == [] && Recounts(c, s', k) && WF(c.handler.version, s')
            && LiveAt(c, s'.log, k, |s'.log|) && Birth(c, s'.log, k) == Some(0) && !DescribedSince(c, s'.log, k, 0)
  {
    hide DecodeBody, NoticeBytes, Step, WF, Recounts;
    var e := Receives(c, Arrival(k, provider), [], now);
    Pow256Values();
    NoticeDecodes(c.handler, Arrival(k, provider), []);
    NothingElseReported(c, s, e);
    StepKeepsWF(c, s, e);
    RecountsAfter(c, s, e, k);
    ReceiveLog(c, s, e);
    LiveAfter(c, [], Got(e.bytes, now), k);
    BirthAppend(c, [], Got(e.bytes, now), k);
    TellsOfMessage(c, e.bytes, now, k);
    assert [] + [Got(e.bytes, now)] == [Got(e.bytes, now)];
  }

  /** From the start of the run: a source arrives, is described, and departs. If the stream names a port, local or
      remote, its arrival and its departure are reported, both as laid out; if not, nothing is. */
  lemma StreamComesAndGoes(c: Config, k: nat, provider: nat, payload: Bytes, now: nat,
                           key: StreamKey, p: Process, st: StreamState)
    requires FitsRef(c.handler.version, k) && LaysOut(c, k, provider, payload, key, p, st) && now > 0
    ensures var evs := [Receives(c, Arrival(k, provider), [], now), Receives(c, Details(k, provider), payload, now),
                        Receives(c, Departure(k), [], now)];
            var calls := Exec(c, Started(c), evs).calls;
            if key.lport != 0 || key.rport != 0
            then |calls| == 2 && calls[0].kind == OnAdded && calls[1].kind == OnRemoved &&
                 Shows(calls[0].stream, k, key, p, st) && Shows(calls[1].stream, k, key, p, st)
            else calls == []
  {
    hide DecodeBody, NoticeBytes, Step, WF, Recounts, LaysOut, Shows, Exec, DescribedSince, Birth, LiveAt;
    var s0 := Started(c);
    var e1, e2 := Receives(c, Arrival(k, provider), [], now), Receives(c, Details(k, provider), payload, now);
    var e3 := Receives(c, Departure(k), [], now);
    StartRecounts(c, k);
    assert provider < 256 by { SmallProvider(c, k, provider, payload, key, p, st); }
    ArrivalLives(c, s0, k, provider, now);
    var s1 := Step(c, s0, e1);
    AnnouncedAsLaidOut(c, s1, k, provider, payload, now, key, p, st);
    DepartsAsLaidOut(c, s1, k, provider, payload, now, key, p, st);
    assert [] + [e1] + [e2] + [e3] == [e1, e2, e3];
    ExecNone(c, s0);
    ExecOne(c, s0, [], e1);
    ExecOne(c, s0, [] + [e1], e2);
    ExecOne(c, s0, [] + [e1] + [e2], e3);
  }

  lemma ExecNone(c: Config, s: State)
    ensures Exec(c, s, []) == s
  {
  }

  lemma SmallProvider(c: Config, k: nat, provider: nat, payload: Bytes, key: StreamKey, p: Process, st: StreamState)
    requires LaysOut(c, k, provider, payload, key, p, st)
    ensures provider < 256
  {
  }

  lemma StartRecounts(c: Config, k: nat)
    ensures WF(c.handler.version, Started(c)) && Recounts(c, Started(c), k)
    ensures Started(c).log == [] && Started(c).calls == []
  {
    hide Encode;
    StartedKeepsWF(c);
  }

  /** A departure right after a description. */
  lemma DepartsAsLaidOut(c: Config, s: State, k: nat, provider: nat, payload: Bytes, now: nat,
                         key: StreamKey, p: Process, st: StreamState)
    requires WF(c.handler.version, s) && Recounts(c, s, k) && LiveAt(c, s.log, k, |s.log|) && now > 0
    requires FitsRef(c.handler.version, k) && LaysOut(c, k, provider, payload, key, p, st)
    ensures var s' := Step(c, s, Receives(c, Details(k, provider), payload, now));
            var s'' := Step(c, s', Receives(c, Departure(k), [], now));
            if key.lport != 0 || key.rport != 0
            then |s''.calls| == |s'.calls| + 1 && s''.calls[..|s'.calls|] == s'.calls &&
                 s''.calls[|s'.calls|].kind == OnRemoved && Shows(s''.calls[|s'.calls|].stream, k, key, p, st)
            else s''.calls == s'.calls
  {
    hide DecodeBody, NoticeBytes, Step, WF, Dated, Portrays, Latest, Birth, LiveAt, Shows, Tells;
    var v := c.handler.version;
    var e, e' := Receives(c, Details(k, provider), payload, now), Receives(c, Departure(k), [], now);
    LayoutDecodes(c, k, provider, payload, key, p, st);
    NoticeDecodes(c.handler, Departure(k), []);
    hide LaysOut;
    var s', b := Step(c, s, e), Birth(c, s.log, k).value;
    var s'' := Step(c, s', e');
    StepKeepsWF(c, s, e);
    RecountsAfter(c, s, e, k);
    ReceiveLog(c, s, e);
    ReceiveLog(c, s', e');
    BirthAppend(c, s.log, Got(e.bytes, now), k);
    LatestAppend(c, s.log, Got(e.bytes, now), k, b);
    LatestAppend(c, s'.log, Got(e'.bytes, now), k, b);
    TellsOfMessage(c, e.bytes, now, k);
    TellsOfMessage(c, e'.bytes, now, k);
    SourceAfter(c, s, e, k);
    TouchSome(s.sources[k], DecodeBody(c.handler, e.bytes), now);
    DepartureReported(c, s', e', k);
    PortsByLatest(c, s'.log, k, b);
    if key.lport != 0 || key.rport != 0 {
      LayoutIsShown(c, s''.log, e.bytes, now, k, b, s''.calls[|s'.calls|].stream, key, p, st);
    }
  }
}
