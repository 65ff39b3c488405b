/** Replaying a recording: a second interpreter of the message stream that must agree with the live run. */
module ReplaySimulation {
  import opened ByteStrings
  import opened Options
  import opened Streams
  import opened Codec
  import opened Frames
  import opened Model
  import opened Cleanup

  const ARRIVALS_AND_DEPARTURES := {OnAdded, OnRemoved}

  /** What a listener that ignores updates can tell: callbacks and stream snapshots, without clock readings. */
  function Outline(calls: seq<Call>): seq<(CallKind, Stream)> {
    Snapshots(Observed(calls, ARRIVALS_AND_DEPARTURES))
  }

  function Snapshots(calls: seq<Call>): seq<(CallKind, Stream)> {
    seq(|calls|, i requires 0 <= i < |calls| => (calls[i].kind, calls[i].stream))
  }

  lemma OutlineOne(calls: seq<Call>, more: seq<Call>)
    requires |more| <= 1
    ensures Outline(calls + more) == Outline(calls) + Outline(more)
  {
    hide Observed;
    ObservedOne(calls, more, ARRIVALS_AND_DEPARTURES);
  }

  // ---- requests are recognisable in a recording ----------------------------

  /** Every queued message is a request, filed under the context it carries. */
  ghost predicate Addressed(s: State) {
    && s.seqnum < SEQ_MODULUS
    && forall q :: q in s.outq ==>
         ContextOf(q.bytes) == q.seqnum && IsRequestType(TypeOf(q.bytes)) && Recordable(q.bytes)
  }

  lemma EnqueueAddressed(v: Version, s: State, r: Request)
    requires Addressed(s)
    ensures Addressed(Enqueue(v, s, r))
  {
    EncodeHeader(v, s.seqnum, r);
    assert Recordable(Encode(v, s.seqnum, r));
    hide Encode, ContextOf, TypeOf;
  }

  lemma TakesAddressed(v: Version, s: State)
    requires Addressed(s)
    ensures Addressed(TakeCount(v, TakeDesc(v, s)))
  {
    hide Enqueue, IsMin, Wanted, ContextOf, TypeOf;
    if s.outq == [] && s.waitDesc != {} {
      EnqueueAddressed(v, s.(waitDesc := s.waitDesc - {Min(s.waitDesc)}), GetSrcDesc(Min(s.waitDesc)));
    }
    var s1 := TakeDesc(v, s);
    if s1.outq == [] && s1.waitCount.Keys != {} {
      var k := Min(s1.waitCount.Keys);
      EnqueueAddressed(v, s1.(waitCount := s1.waitCount - {k}), QuerySrc(k));
    }
  }

  lemma SendAddressed(v: Version, s: State, now: nat)
    requires Addressed(s)
    ensures Addressed(OnSend(v, s, now))
  {
    hide TakeDesc, TakeCount, ContextOf, TypeOf;
    TakesAddressed(v, s);
  }

  lemma ReceiveAddressed(c: Config, s: State, e: Event)
    requires Addressed(s) && e.Recv?
    ensures Addressed(Step(c, s, e))
  {
    hide DecodeBody, Enqueue, OnSource, ContextOf, TypeOf;
    if IsAbout(c, e) {
      ReceiveAbout(c, s, e);
      OnSourceKeepsQueue(Noted(s, e.bytes, e.now), DecodeBody(c.handler, e.bytes), e.now, |s.log|);
    } else if e.bytes != [] {
      var n := Noted(s, e.bytes, e.now);
      var b := DecodeBody(c.handler, e.bytes);
      var s1 := if b.Error? then CountError(n, b.code) else n;
      EnqueueAddressed(c.handler.version, s1.(phase := RequestUdp), AddAllUdp);
    }
  }

  lemma OnSourceKeepsQueue(s: State, b: Body, now: nat, pos: nat)
    requires AboutSource(b)
    ensures OnSource(s, b, now, pos).outq == s.outq && OnSource(s, b, now, pos).seqnum == s.seqnum
    ensures OnSource(s, b, now, pos).log == s.log && OnSource(s, b, now, pos).pending == s.pending
  {
  }

  lemma StepAddressed(c: Config, s: State, e: Event)
    requires Addressed(s)
    ensures Addressed(Step(c, s, e))
  {
    hide OnReceive, OnSend, ContextOf, TypeOf, DueSet, ExpiredSet;
    match e
    case Recv(_, _) => ReceiveAddressed(c, s, e);
    case Send(now) => SendAddressed(c.handler.version, s, now);
    case _ =>
  }

  lemma StartedAddressed(c: Config)
    ensures Addressed(Started(c)) && WF(c.handler.version, Started(c))
  {
    hide Enqueue, ContextOf, TypeOf;
    EnqueueAddressed(c.handler.version, INITIAL.(phase := RequestTcp), AddAllTcp);
    EnqueueAddressed(c.handler.version, INITIAL.(phase := RequestUdp), AddAllUdp);
    StartedKeepsWF(c);
  }

  // ---- the simulation ------------------------------------------------------

  /** A replayed source differs from the live one only in clock readings and in never having counts requested. */
  predicate SameSource(l: Source, r: Source) {
    && l.provider == r.provider && l.obj == r.obj && l.haveDesc == r.haveDesc && l.notified == r.notified
    && (l.tsRemoved > 0 <==> r.tsRemoved > 0)
    && !r.requested
  }

  predicate SameOption(l: Option<Source>, r: Option<Source>) {
    (l.None? && r.None?) || (l.Some? && r.Some? && SameSource(l.value, r.value))
  }

  ghost predicate Replica(live: State, replayed: State) {
    && (forall k :: SameOption(Lookup(live.sources, k), Lookup(replayed.sources, k)))
    && replayed.pending == live.pending && replayed.drops == live.drops && replayed.errors == live.errors
    && Outline(replayed.calls) == Outline(live.calls)
    && NoUpdates(replayed.calls)
    && (replayed.phase == Start || replayed.phase == Running)
  }

  predicate NoUpdates(calls: seq<Call>) {
    forall call :: call in calls ==> call.kind != OnStatsUpdate
  }

  /** What the simulation assumes of the inbound messages: recordable sizes and no request types. */
  predicate Inbound(e: Event) {
    e.Recv? && e.bytes != [] ==> Recordable(e.bytes) && !IsRequestType(TypeOf(e.bytes))
  }

  lemma SameTouch(l: Option<Source>, r: Option<Source>, b: Body, now: nat, now': nat, pos: nat, pos': nat)
    requires SameOption(l, r) && AboutSource(b) && now > 0 && now' > 0
    ensures SameOption(Touch(l, b, now), Touch(r, b, now'))
    ensures Outline(Report(l, b, now, pos)) == Outline(Report(r, b, now', pos'))
    ensures NoUpdates(Report(r, b, now', pos'))
  {
    hide ReadDesc, ReadCounts, NameKernel, HasPorts, BlankStream;
    var x, y := Report(l, b, now, pos), Report(r, b, now', pos');
    assert x != [] ==> x[..0] == [];
    assert y != [] ==> y[..0] == [];
  }

  lemma ReplicaSource(l: State, r: State, b: Body, now: nat, now': nat, pos: nat, pos': nat)
    requires Replica(l, r) && AboutSource(b) && now > 0 && now' > 0
    ensures Replica(OnSource(l, b, now, pos), OnSource(r, b, now', pos'))
  {
    hide Touch, Report, SameSource, Outline;
    var x, y := Lookup(l.sources, b.ref), Lookup(r.sources, b.ref);
    SameTouch(x, y, b, now, now', pos, pos');
    UnknownStaysUnknown(b, now, pos);
    UnknownStaysUnknown(b, now', pos');
    ReportIsShort(x, b, now, pos);
    ReportIsShort(y, b, now', pos');
    OutlineOne(l.calls, Report(x, b, now, pos));
    OutlineOne(r.calls, Report(y, b, now', pos'));
    forall k
      ensures SameOption(Lookup(OnSource(l, b, now, pos).sources, k), Lookup(OnSource(r, b, now', pos').sources, k))
    {
      assert SameOption(Lookup(l.sources, k), Lookup(r.sources, k));
    }
  }

  lemma ReportIsShort(o: Option<Source>, b: Body, now: nat, pos: nat)
    requires AboutSource(b)
    ensures |Report(o, b, now, pos)| <= 1
  {
  }

  lemma ReplicaControl(c: Config, l: State, r: State, b: Body)
    requires Replica(l, r) && (b.Success? || b.Error?)
    ensures Replica(OnControl(c, l, b), OnControl(c, r, b))
  {
    hide Enqueue, SameOption, Outline, NoUpdates;
    var l1 := if b.Error? then CountError(l, b.code) else l;
    var r1 := if b.Error? then CountError(r, b.code) else r;
    EnqueueKeeps(c.handler.version, l1.(phase := RequestUdp), AddAllUdp);
    EnqueueKeeps(c.handler.version, r1.(phase := RequestUdp), AddAllUdp);
  }

  lemma ReplicaMessage(c: Config, l: State, r: State, m: Msg, now: nat, now': nat, pos: nat, pos': nat)
    requires Replica(l, r) && now > 0 && now' > 0
    ensures Replica(OnMessage(c, l, m, now, pos), OnMessage(c, r, m, now', pos'))
  {
    hide OnSource, OnControl, SameOption, Outline;
    var l1, r1 := l.(pending := l.pending - {m.context}), r.(pending := r.pending - {m.context});
    assert Replica(l1, r1);
    if AboutSource(m.body) {
      ReplicaSource(l1, r1, m.body, now, now', pos, pos');
    } else if !m.body.Unknown? {
      ReplicaControl(c, l1, r1, m.body);
    }
  }

  // ---- one event of the live run, as replayed from its recording ------------

  lemma FramesAppend(log: seq<Entry>, e: Entry)
    ensures FramesOf(log + [e]) == FramesOf(log) + (if e.Scanned? then [] else [Frame(e.at, e.bytes)])
  {
    assert (log + [e])[..|log|] == log;
  }

  /** The replay of the recording of a history. */
  ghost function Replayed(c: Config, log: seq<Entry>, clock: nat -> nat): State {
    Replay(c, FramesOf(log), clock)
  }

  lemma ReplayedReceive(c: Config, live: State, e: Event, clock: nat -> nat)
    requires e.Recv? && e.bytes != [] && e.now > 0 && !IsRequestType(TypeOf(e.bytes))
    requires (forall i: nat :: clock(i) > 0) && Replica(live, Replayed(c, live.log, clock))
    ensures Replica(Step(c, live, e), Replayed(c, live.log + [Got(e.bytes, e.now)], clock))
  {
    hide Decode, OnMessage, Outline, SameOption, TypeOf;
    var fs := FramesOf(live.log);
    var n := live.(log := live.log + [Got(e.bytes, e.now)]);
    FramesAppend(live.log, Got(e.bytes, e.now));
    ReplayAppend(c, fs, Frame(e.now, e.bytes), clock);
    assert clock(|fs|) > 0;
    ReplicaMessage(c, n, Replay(c, fs, clock), Decode(c.handler, e.bytes), e.now, clock(|fs|), |live.log|, 0);
  }

  lemma TakesKeep(v: Version, s: State)
    ensures var s' := TakeCount(v, TakeDesc(v, s));
            s' == s.(outq := s'.outq, seqnum := s'.seqnum, waitDesc := s'.waitDesc, waitCount := s'.waitCount)
  {
    hide Encode, Min, Wanted;
  }

  lemma ReplayedSend(c: Config, live: State, e: Event, clock: nat -> nat)
    requires e.Send? && Addressed(live) && Replica(live, Replayed(c, live.log, clock))
    ensures Replica(Step(c, live, e), Replayed(c, Step(c, live, e).log, clock))
    ensures Step(c, live, e).log == live.log ||
            exists b :: Recordable(b) && Step(c, live, e).log == live.log + [Sent(b, e.now)]
  {
    hide TakeDesc, TakeCount, WriteFirst, Outline, SameOption, Addressed, Replayed, Recordable;
    var v := c.handler.version;
    var s := TakeCount(v, TakeDesc(v, live));
    TakesKeep(v, live);
    TakesAddressed(v, live);
    assert Replica(s, Replayed(c, s.log, clock));
    ReplayedWrite(c, s, e.now, clock);
  }

  lemma ReplayedWrite(c: Config, s: State, now: nat, clock: nat -> nat)
    requires Addressed(s) && Replica(s, Replayed(c, s.log, clock))
    ensures Replica(WriteFirst(s, now), Replayed(c, WriteFirst(s, now).log, clock))
    ensures WriteFirst(s, now).log == s.log ||
            exists b :: Recordable(b) && WriteFirst(s, now).log == s.log + [Sent(b, now)]
  {
    hide Outline, SameOption, TypeOf, ContextOf, Recordable, NoUpdates;
    if s.outq != [] {
      var q := s.outq[0];
      assert q in s.outq && Recordable(q.bytes);
      FramesAppend(s.log, Sent(q.bytes, now));
      ReplayAppend(c, FramesOf(s.log), Frame(now, q.bytes), clock);
    }
  }

  lemma ReplayedScan(c: Config, live: State, e: Event, clock: nat -> nat)
    requires e.Scan? && Replica(live, Replayed(c, live.log, clock))
    ensures Replica(Step(c, live, e), Replayed(c, Step(c, live, e).log, clock))
  {
    hide Due, Outline, FramesOf, Replay, DueSet;
    ScanFrames(c, live, e);
    var r := Replayed(c, live.log, clock);
    forall k
      ensures SameOption(Lookup(Step(c, live, e).sources, k), Lookup(r.sources, k))
    {
      assert SameOption(Lookup(live.sources, k), Lookup(r.sources, k));
    }
  }

  ghost predicate Faithful(c: Config, s: State, clock: nat -> nat) {
    Replica(s, Replayed(c, s.log, clock)) && AllRecordable(FramesOf(s.log))
  }

  lemma FaithfulStep(c: Config, s: State, e: Event, clock: nat -> nat)
    requires Addressed(s) && Faithful(c, s, clock) && forall i: nat :: clock(i) > 0
    requires !e.Sweep? && e.now > 0 && Inbound(e)
    ensures Faithful(c, Step(c, s, e), clock)
  {
    hide Replica, OnReceive, OnScan, OnSend, Replayed, TypeOf, Recordable;
    match e
    case Recv(bytes, now) =>
      ReceiveLog(c, s, e);
      if bytes != [] {
        ReplayedReceive(c, s, e, clock);
        FramesAppend(s.log, Got(bytes, now));
      } else {
        assert Step(c, s, e) == s by { NothingReceived(c, s, e); }
      }
    case Scan(now) =>
      ReplayedScan(c, s, e, clock);
      ScanFrames(c, s, e);
    case Send(now) =>
      ReplayedSend(c, s, e, clock);
      if Step(c, s, e).log != s.log {
        var b :| Recordable(b) && Step(c, s, e).log == s.log + [Sent(b, e.now)];
        FramesAppend(s.log, Sent(b, e.now));
      }
  }

  lemma NothingReceived(c: Config, s: State, e: Event)
    requires e.Recv? && e.bytes == []
    ensures Step(c, s, e) == s
  {
  }

  lemma ScanFrames(c: Config, s: State, e: Event)
    requires e.Scan?
    ensures FramesOf(Step(c, s, e).log) == FramesOf(s.log)
  {
    hide DueSet;
    FramesAppend(s.log, Scanned(DueSet(s, e.now), e.now));
  }

  lemma {:induction false} FaithfulRun(c: Config, s: State, evs: seq<Event>, clock: nat -> nat)
    requires Addressed(s) && Faithful(c, s, clock) && forall i: nat :: clock(i) > 0
    requires NoSweeps(evs) && forall i :: 0 <= i < |evs| ==> evs[i].now > 0 && Inbound(evs[i])
    ensures Faithful(c, Exec(c, s, evs), clock)
    decreases |evs|
  {
    hide Addressed, Faithful, Step, Inbound;
    if evs != [] {
      FaithfulStep(c, s, evs[0], clock);
      StepAddressed(c, s, evs[0]);
      FaithfulRun(c, Step(c, s, evs[0]), evs[1..], clock);
    }
  }

  // ---- from the recording file ---------------------------------------------

  /** Replay does not look at the recorded timestamps. */
  lemma {:induction false} ReplayIgnoresTimestamps(c: Config, fs: seq<Frame>, clock: nat -> nat)
    ensures Replay(c, AllStored(fs), clock) == Replay(c, fs, clock)
    decreases |fs|
  {
    hide ReplayStep, StartSession;
    if fs != [] {
      var n := |fs| - 1;
      assert AllStored(fs)[..n] == AllStored(fs[..n]);
      ReplayIgnoresTimestamps(c, fs[..n], clock);
    }
  }

  ghost function Live(c: Config, evs: seq<Event>): State {
    Exec(c, Started(c), evs)
  }

  /** The recording file of a live run. */
  ghost function RecordingOf(c: Config, evs: seq<Event>): Bytes {
    FileOf(FramesOf(Live(c, evs).log))
  }

  ghost predicate Recordings(evs: seq<Event>) {
    Ordered(evs, 0, 0) && forall i :: 0 <= i < |evs| ==> Inbound(evs[i])
  }

  lemma {:induction false} StripKeeps(evs: seq<Event>)
    ensures forall e :: e in Strip(evs) ==> e in evs
    decreases |evs|
  {
    if evs != [] {
      StripKeeps(evs[1..]);
    }
  }

  /** The run without cleanups writes the same log, and the replay of that log is its replica. */
  lemma LiveIsFaithful(c: Config, evs: seq<Event>, clock: nat -> nat)
    requires Recordings(evs) && forall i: nat :: clock(i) > 0
    ensures Faithful(c, Live(c, Strip(evs)), clock)
    ensures var l, m := Live(c, evs), Live(c, Strip(evs));
            l.log == m.log && l.pending == m.pending && l.drops == m.drops && l.errors == m.errors
    ensures AllRecordable(FramesOf(Live(c, evs).log))
  {
    hide Outline, WF, Addressed, Exec, Ordered, Replica, FramesOf;
    var s, ms := Started(c), Strip(evs);
    StartedAddressed(c);
    PositiveClocks(evs, 0, 0);
    StripKeeps(evs);
    forall i | 0 <= i < |ms|
      ensures ms[i].now > 0 && Inbound(ms[i])
    {
      assert ms[i] in evs;
    }
    StartFaithful(c, clock);
    FaithfulRun(c, s, ms, clock);
    CleanupNeverChangesRequests(c, s, s, evs);
  }

  /** Replaying the recording of any live run reproduces the run as it would have been without cleanups: the same
      arrivals and departures with the same snapshots, the same correlation map, the same error counters. Only
      updates are lost. */
  lemma ReplayReproduces(c: Config, evs: seq<Event>, clock: nat -> nat)
    requires Recordings(evs) && forall i: nat :: clock(i) > 0
    ensures var replayed := Replay(c, ReadAll(RecordingOf(c, evs)), clock);
            && Outline(replayed.calls) == Outline(Live(c, Strip(evs)).calls)
            && NoUpdates(replayed.calls)
            && replayed.pending == Live(c, evs).pending
            && replayed.drops == Live(c, evs).drops && replayed.errors == Live(c, evs).errors
  {
    hide Outline, Exec, Ordered, FramesOf, AllRecordable;
    var fs := FramesOf(Live(c, evs).log);
    LiveIsFaithful(c, evs, clock);
    RecordingRoundTrip(fs);
    ReplayIgnoresTimestamps(c, fs, clock);
  }

  lemma StartFaithful(c: Config, clock: nat -> nat)
    ensures Faithful(c, Started(c), clock)
  {
    hide Encode;
  }

  /** The replay of a run's own recording agrees with the run exactly when no arrival or departure was lost: none
      was about a source that the run's cleanups had dropped by then. */
  lemma ReplayAgreesExactlyWhenNoneLost(c: Config, evs: seq<Event>, clock: nat -> nat)
    requires Recordings(evs) && forall i: nat :: clock(i) > 0
    ensures Outline(Replay(c, ReadAll(RecordingOf(c, evs)), clock).calls) == Outline(Live(c, evs).calls) <==>
            NoneLost(c, Started(c), Started(c), evs, ARRIVALS_AND_DEPARTURES)
  {
    hide NoneLost, Observed, WF, Ordered, Strip, RecordingOf, Replay, Exec, Inbound;
    StartedAddressed(c);
    PositiveClocks(evs, 0, 0);
    ReplayReproduces(c, evs, clock);
    HiddenExactlyWhenNoneLost(c, Started(c), evs, ARRIVALS_AND_DEPARTURES);
    if !NoneLost(c, Started(c), Started(c), evs, ARRIVALS_AND_DEPARTURES) {
      assert |Outline(Live(c, evs).calls)| < |Outline(Live(c, Strip(evs)).calls)|;
    }
  }

  /** The replay agrees with the live run, for every placement of the run's cleanups, exactly when the live run has
      no arrival or departure about a source that a cleanup may have dropped. */
  lemma ReplayAgreesWithLive(c: Config, evs: seq<Event>, clock: nat -> nat)
    requires NoSweeps(evs) && Recordings(evs) && forall i: nat :: clock(i) > 0
    ensures Timely(c, Started(c), evs, {}, ARRIVALS_AND_DEPARTURES) <==>
            forall placed: seq<Event> | Strip(placed) == evs && Ordered(placed, 0, 0) ::
              Outline(Replay(c, ReadAll(RecordingOf(c, placed)), clock).calls) == Outline(Live(c, placed).calls)
  {
    hide Timely, Observed, WF, Ordered, Strip, RecordingOf, Replay, Inbound;
    StartedAddressed(c);
    var s := Started(c);
    forall placed: seq<Event> | Strip(placed) == evs && Ordered(placed, 0, 0)
      ensures Outline(Replay(c, ReadAll(RecordingOf(c, placed)), clock).calls) == Outline(Live(c, evs).calls)
    {
      PlacedRecordings(placed);
      ReplayReproduces(c, placed, clock);
    }
    CleanupUnobservable(c, s, evs, 0, ARRIVALS_AND_DEPARTURES);
    if Timely(c, s, evs, {}, ARRIVALS_AND_DEPARTURES) {
    } else {
      PositiveClocks(evs, 0, 0);
      EagerLosesLateCallbacks(c, s, s, evs, {}, ARRIVALS_AND_DEPARTURES);
      EagerIsAPlacement(evs, 0, 0);
      var placed := Eager(evs);
      assert Strip(placed) == evs && Ordered(placed, 0, 0);
      assert |Outline(Live(c, placed).calls)| < |Outline(Live(c, evs).calls)|;
    }
  }

  lemma PlacedRecordings(placed: seq<Event>)
    requires Ordered(placed, 0, 0) && forall i :: 0 <= i < |Strip(placed)| ==> Inbound(Strip(placed)[i])
    ensures Recordings(placed)
  {
    hide Recordable, TypeOf;
    StripHolds(placed);
    forall i | 0 <= i < |placed|
      ensures Inbound(placed[i])
    {
      if !placed[i].Sweep? {
        assert placed[i] in Strip(placed);
      }
    }
  }

  lemma {:induction false} StripHolds(evs: seq<Event>)
    ensures forall e :: e in evs && !e.Sweep? ==> e in Strip(evs)
    decreases |evs|
  {
    if evs != [] {
      StripHolds(evs[1..]);
    }
  }

  // ---- recordings cut short --------------------------------------------------

  lemma OneEntry(c: Config, s: State, e: Event)
    ensures Step(c, s, e).log == s.log || exists en :: Step(c, s, e).log == s.log + [en]
  {
    hide OnReceive, TakeDesc, TakeCount, DueSet, ExpiredSet;
    if e.Recv? {
      ReceiveLog(c, s, e);
    } else if e.Send? {
      TakesKeep(c.handler.version, s);
    }
  }

  /** Some prefix of the run has exactly the first `m` frames. */
  lemma {:induction false} SomePrefix(c: Config, s: State, evs: seq<Event>, m: nat) returns (q: nat)
    requires FramesOf(s.log) == [] && m <= |FramesOf(Exec(c, s, evs).log)|
    ensures q <= |evs| && FramesOf(Exec(c, s, evs[..q]).log) == FramesOf(Exec(c, s, evs).log)[..m]
    decreases |evs|
  {
    hide Step, FramesOf;
    if m == |FramesOf(Exec(c, s, evs).log)| {
      q := |evs|;
      assert evs[..q] == evs;
    } else {
      assert evs != [];
      var init, last := evs[..|evs| - 1], evs[|evs| - 1];
      assert evs == init + [last];
      ExecOne(c, s, init, last);
      var before := Exec(c, s, init);
      OneEntry(c, before, last);
      if Step(c, before, last).log != before.log {
        var en :| Step(c, before, last).log == before.log + [en];
        FramesAppend(before.log, en);
      }
      q := SomePrefix(c, s, init, m);
      assert init[..q] == evs[..q];
    }
  }

  lemma {:induction false} RecordingsPrefix(evs: seq<Event>, q: nat, t: nat, w: nat)
    requires Ordered(evs, t, w) && q <= |evs|
    ensures Ordered(evs[..q], t, w)
    decreases q
  {
    if q > 0 {
      assert evs[..q][1..] == evs[1..][..q - 1];
      var sweep := evs[0].Sweep?;
      RecordingsPrefix(evs[1..], q - 1, if sweep then t else evs[0].now, if sweep then evs[0].now else w);
    }
  }

  /** A recording cut off at any byte replays a prefix of the run, the one that left as many frames as lie wholly
      before the cut: no frame is misread, none is made up. */
  lemma TruncatedRecordingReplaysPrefix(c: Config, evs: seq<Event>, n: nat, clock: nat -> nat) returns (q: nat)
    requires Recordings(evs) && (forall i: nat :: clock(i) > 0) && n <= |RecordingOf(c, evs)|
    ensures q <= |evs| && |FramesOf(Live(c, evs[..q]).log)| == WhollyWithin(FramesOf(Live(c, evs).log), n)
    ensures var replayed := Replay(c, ReadAll(RecordingOf(c, evs)[..n]), clock);
            && Outline(replayed.calls) == Outline(Live(c, Strip(evs[..q])).calls)
            && replayed.pending == Live(c, evs[..q]).pending
            && replayed.drops == Live(c, evs[..q]).drops
  {
    hide Outline, Replay, ReadAll, FileOf, Exec, WF, Inbound, Ordered;
    var fs := FramesOf(Live(c, evs).log);
    LiveIsFaithful(c, evs, clock);
    var m := WhollyWithin(fs, n);
    TruncatedRecording(fs, n);
    assert FramesOf(Started(c).log) == [];
    q := SomePrefix(c, Started(c), evs, m);
    RecordingsPrefix(evs, q, 0, 0);
    assert Recordings(evs[..q]);
    LiveIsFaithful(c, evs[..q], clock);
    RecordingRoundTrip(fs[..m]);
    ReplayReproduces(c, evs[..q], clock);
  }

  // ---- the subscription state of a replay -------------------------------------

  predicate Settles(f: Frame) {
    TypeOf(f.bytes) == SUCCESS || TypeOf(f.bytes) == ERROR
  }

  /** A replay starts over when the recording opens with a subscription, and is RUNNING otherwise and from the first
      SUCCESS or ERROR on. */
  lemma {:induction false} ReplayPhase(c: Config, fs: seq<Frame>, clock: nat -> nat)
    ensures Replay(c, fs, clock).phase ==
            if fs != [] && TypeOf(fs[0].bytes) == ADD_ALL_SRCS && (forall f :: f in fs ==> !Settles(f)) then Start
            else Running
    decreases |fs|
  {
    hide Replay, Settles, TypeOf;
    if fs == [] {
      ReplayNothing(c, clock);
    } else {
      var n := |fs| - 1;
      var init, last := fs[..n], fs[n];
      assert fs == init + [last];
      ReplayPhase(c, init, clock);
      ReplayAppend(c, init, last, clock);
      PhaseAfterFrame(c, StartSession(Replay(c, init, clock), last.bytes, init == []), last, clock(n));
      SubscriptionIsNoAnswer(last);
      assert init != [] ==> init[0] == fs[0];
      assert forall f :: f in fs <==> f in init || f == last;
    }
  }

  lemma SubscriptionIsNoAnswer(f: Frame)
    ensures TypeOf(f.bytes) == ADD_ALL_SRCS ==> !Settles(f)
  {
    hide TypeOf;
  }

  lemma PhaseAfterFrame(c: Config, s: State, f: Frame, now: nat)
    requires s.phase == Start || s.phase == Running
    ensures ReplayStep(c, s, f.bytes, now).phase == if Settles(f) then Running else s.phase
  {
    hide SrcRefOf, TypeOf, Field, Enqueue, Touch, Report;
  }
}
