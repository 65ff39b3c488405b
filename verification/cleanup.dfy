/** Garbage collection of removed sources: it never changes what is written to the kernel, and it changes what
    the listener sees exactly when the kernel speaks up about a source too late. */
module Cleanup {
  import opened ByteStrings
  import opened Options
  import opened Streams
  import opened Codec
  import opened Model

  /** The second state is the first, except that it may lack removed sources and that callbacks may differ. */
  ghost predicate Shadow(s1: State, s2: State) {
    && s2 == s1.(sources := s2.sources, calls := s2.calls)
    && (forall k :: k in s2.sources ==> k in s1.sources && s2.sources[k] == s1.sources[k])
    && (forall k :: k in s1.sources && k !in s2.sources ==> s1.sources[k].tsRemoved > 0)
  }

  function Strip(evs: seq<Event>): (ms: seq<Event>)
    ensures NoSweeps(ms)
    decreases |evs|
  {
    if evs == [] then []
    else if evs[0].Sweep? then Strip(evs[1..])
    else [evs[0]] + Strip(evs[1..])
  }

  predicate NoSweeps(evs: seq<Event>) {
    forall i :: 0 <= i < |evs| ==> !evs[i].Sweep?
  }

  // ---- requests are unaffected ---------------------------------------------

  lemma TouchOfRemoved(o: Option<Source>, b: Body, now: nat)
    requires AboutSource(b) && o.Some? && o.value.tsRemoved > 0 && now > 0
    ensures b.SrcAdded? ==> Touch(o, b, now) == Touch(None, b, now)
    ensures !b.SrcAdded? ==> Touch(None, b, now) == None
    ensures !b.SrcAdded? ==> Touch(o, b, now).Some? && Touch(o, b, now).value.tsRemoved > 0
    ensures b.SrcAdded? ==> Touch(o, b, now).Some? && !Touch(o, b, now).value.haveDesc
  {
  }

  lemma ShadowPresent(s1: State, s2: State, b: Body, now: nat, pos: nat)
    requires Shadow(s1, s2) && AboutSource(b) && Lookup(s1.sources, b.ref) == Lookup(s2.sources, b.ref)
    ensures Shadow(OnSource(s1, b, now, pos), OnSource(s2, b, now, pos))
  {
    hide Touch, Report;
  }

  lemma ShadowAbsent(v: Version, s1: State, s2: State, b: Body, now: nat, pos: nat)
    requires Shadow(s1, s2) && WF(v, s1) && AboutSource(b) && now > 0
    requires b.ref in s1.sources && b.ref !in s2.sources
    ensures Shadow(OnSource(s1, b, now, pos), OnSource(s2, b, now, pos))
  {
    hide Touch, Report, GoodSource, FitsRef;
    var k := b.ref;
    TouchOfRemoved(Some(s1.sources[k]), b, now);
    assert k !in s1.waitDesc && (k in s1.waitCount ==> !s1.waitCount[k]);
    assert s1.waitDesc - {k} == s1.waitDesc;
    assert k in s1.waitCount ==> s1.waitCount[k := false] == s1.waitCount;
  }

  lemma ShadowSource(v: Version, s1: State, s2: State, b: Body, now: nat, pos: nat)
    requires Shadow(s1, s2) && WF(v, s1) && AboutSource(b) && now > 0
    ensures Shadow(OnSource(s1, b, now, pos), OnSource(s2, b, now, pos))
  {
    hide WF, OnSource;
    if b.ref in s1.sources && b.ref !in s2.sources {
      ShadowAbsent(v, s1, s2, b, now, pos);
    } else {
      ShadowPresent(s1, s2, b, now, pos);
    }
  }

  lemma ShadowControl(c: Config, s1: State, s2: State, b: Body)
    requires Shadow(s1, s2) && (b.Success? || b.Error?)
    ensures Shadow(OnControl(c, s1, b), OnControl(c, s2, b))
    ensures OnControl(c, s1, b).calls == s1.calls && OnControl(c, s2, b).calls == s2.calls
    ensures OnControl(c, s1, b).sources == s1.sources && OnControl(c, s2, b).sources == s2.sources
  {
    hide Enqueue;
    var t1, t2 := if b.Error? then CountError(s1, b.code) else s1, if b.Error? then CountError(s2, b.code) else s2;
    EnqueueKeeps(c.handler.version, t1.(phase := RequestUdp), AddAllUdp);
    EnqueueKeeps(c.handler.version, t2.(phase := RequestUdp), AddAllUdp);
    ShadowEnqueue(c.handler.version, t1.(phase := RequestUdp), t2.(phase := RequestUdp), AddAllUdp);
  }

  /** The state in which the message at hand is looked at: it is logged, and its request is no longer pending. */
  function Noted(s: State, bytes: Bytes, now: nat): State {
    s.(log := s.log + [Got(bytes, now)], pending := s.pending - {ContextOf(bytes)})
  }

  predicate Adds(c: Config, e: Event, k: nat) {
    IsAbout(c, e) && DecodeBody(c.handler, e.bytes).SrcAdded? && DecodeBody(c.handler, e.bytes).ref == k
  }

  predicate IsAbout(c: Config, e: Event) {
    e.Recv? && e.bytes != [] && AboutSource(DecodeBody(c.handler, e.bytes))
  }

  lemma ReceiveAbout(c: Config, s: State, e: Event)
    requires IsAbout(c, e)
    ensures Step(c, s, e) ==
            OnSource(Noted(s, e.bytes, e.now), DecodeBody(c.handler, e.bytes), e.now, |s.log|)
  {
    hide DecodeBody, OnSource;
  }

  lemma ReceiveOther(c: Config, s: State, e: Event)
    requires e.Recv? && !IsAbout(c, e)
    ensures Step(c, s, e).calls == s.calls && Step(c, s, e).sources == s.sources
  {
    hide DecodeBody, OnSource, Encode;
  }

  lemma ReceiveLog(c: Config, s: State, e: Event)
    requires e.Recv?
    ensures Step(c, s, e).log == if e.bytes == [] then s.log else s.log + [Got(e.bytes, e.now)]
  {
    hide DecodeBody, Encode, Touch, Report;
  }

  lemma ShadowReceive(c: Config, s1: State, s2: State, e: Event)
    requires Shadow(s1, s2) && WF(c.handler.version, s1) && e.Recv? && e.now > 0
    ensures Shadow(Step(c, s1, e), Step(c, s2, e))
  {
    hide DecodeBody, OnSource, OnControl;
    if e.bytes != [] {
      var b := DecodeBody(c.handler, e.bytes);
      var n1, n2 := Noted(s1, e.bytes, e.now), Noted(s2, e.bytes, e.now);
      assert Shadow(n1, n2) && WF(c.handler.version, n1);
      if AboutSource(b) {
        ShadowSource(c.handler.version, n1, n2, b, e.now, |s1.log|);
      } else if !b.Unknown? {
        ShadowControl(c, n1, n2, b);
      }
    }
  }

  lemma ShadowEnqueue(v: Version, s1: State, s2: State, r: Request)
    requires Shadow(s1, s2)
    ensures Shadow(Enqueue(v, s1, r), Enqueue(v, s2, r))
  {
    hide Encode;
  }

  lemma ShadowTakeDesc(v: Version, s1: State, s2: State)
    requires Shadow(s1, s2)
    ensures Shadow(TakeDesc(v, s1), TakeDesc(v, s2))
  {
    hide Enqueue, IsMin;
    if s1.outq == [] && s1.waitDesc != {} {
      var k := Min(s1.waitDesc);
      ShadowEnqueue(v, s1.(waitDesc := s1.waitDesc - {k}), s2.(waitDesc := s1.waitDesc - {k}), GetSrcDesc(k));
    }
  }

  lemma ShadowTakeCount(v: Version, s1: State, s2: State)
    requires Shadow(s1, s2) && WF(v, s1)
    ensures Shadow(TakeCount(v, s1), TakeCount(v, s2))
  {
    hide Enqueue, IsMin, HasPorts, FitsRef;
    if s1.outq == [] && s1.waitCount.Keys != {} {
      var k := Min(s1.waitCount.Keys);
      assert k in s1.waitCount;
      assert Wanted(s1, k) == Wanted(s2, k);
      ShadowEnqueue(v, s1.(waitCount := s1.waitCount - {k}), s2.(waitCount := s1.waitCount - {k}), QuerySrc(k));
    }
  }

  lemma ShadowSend(v: Version, s1: State, s2: State, now: nat)
    requires Shadow(s1, s2) && WF(v, s1)
    ensures Shadow(OnSend(v, s1, now), OnSend(v, s2, now))
  {
    hide TakeDesc, TakeCount, WF;
    TakeDescKeepsWF(v, s1);
    ShadowTakeDesc(v, s1, s2);
    ShadowTakeCount(v, TakeDesc(v, s1), TakeDesc(v, s2));
  }

  lemma ShadowScan(s1: State, s2: State, now: nat)
    requires Shadow(s1, s2)
    ensures Shadow(OnScan(s1, now), OnScan(s2, now))
  {
    hide HasPorts;
    assert DueSet(s1, now) == DueSet(s2, now);
  }

  lemma ShadowStep(c: Config, s1: State, s2: State, e: Event)
    requires Shadow(s1, s2) && WF(c.handler.version, s1) && e.now > 0
    ensures Shadow(if e.Sweep? then s1 else Step(c, s1, e), Step(c, s2, e))
  {
    hide OnReceive, OnScan, OnSend;
    match e
    case Recv(_, _) => ShadowReceive(c, s1, s2, e);
    case Scan(now) => ShadowScan(s1, s2, now);
    case Sweep(_) =>
    case Send(now) => ShadowSend(c.handler.version, s1, s2, now);
  }

  /** Whatever cleanups a run contains, dropping them changes neither the requests written, nor the waiting
      queues, the correlation map, the subscription state or the counters. */
  lemma {:induction false} CleanupNeverChangesRequests(c: Config, s1: State, s2: State, evs: seq<Event>)
    requires Shadow(s1, s2) && WF(c.handler.version, s1)
    requires forall i :: 0 <= i < |evs| ==> evs[i].now > 0
    ensures Shadow(Exec(c, s1, Strip(evs)), Exec(c, s2, evs))
    decreases |evs|
  {
    hide Step, WF, Shadow;
    if evs != [] {
      var e := evs[0];
      ShadowStep(c, s1, s2, e);
      if e.Sweep? {
        CleanupNeverChangesRequests(c, s1, Step(c, s2, e), evs[1..]);
      } else {
        StepKeepsWF(c, s1, e);
        CleanupNeverChangesRequests(c, Step(c, s1, e), Step(c, s2, e), evs[1..]);
        assert Strip(evs)[1..] == Strip(evs[1..]);
      }
    }
  }

  // ---- callbacks -----------------------------------------------------------

  /** The callbacks of the given kinds. */
  function Observed(calls: seq<Call>, kinds: set<CallKind>): seq<Call> {
    if calls == [] then []
    else
      var n := |calls| - 1;
      Observed(calls[..n], kinds) + (if calls[n].kind in kinds then [calls[n]] else [])
  }

  lemma ObservedOne(calls: seq<Call>, more: seq<Call>, kinds: set<CallKind>)
    requires |more| <= 1
    ensures Observed(calls + more, kinds) == Observed(calls, kinds) + Observed(more, kinds)
  {
    if more == [] {
      assert calls + more == calls;
    } else {
      assert (calls + more)[..|calls|] == calls;
      assert more[..0] == [];
    }
  }

  /** A cleanup may have dropped the source by now: it was due when the source was last heard about, or is now. */
  predicate CouldBeGone(s: State, gone: set<nat>, k: nat, now: nat) {
    k in s.sources && s.sources[k].tsRemoved > 0 && (k in gone || Expired(s.sources[k], now))
  }

  ghost function ReportOf(c: Config, s: State, e: Event): (r: seq<Call>)
    requires IsAbout(c, e)
    ensures |r| <= 1
  {
    var b := DecodeBody(c.handler, e.bytes);
    Report(Lookup(s.sources, b.ref), b, e.now, |s.log|)
  }

  /** The message causes a callback about a source that a cleanup may have dropped. */
  ghost predicate Missed(c: Config, s: State, e: Event, gone: set<nat>, kinds: set<CallKind>) {
    IsAbout(c, e) && CouldBeGone(s, gone, DecodeBody(c.handler, e.bytes).ref, e.now) &&
    Observed(ReportOf(c, s, e), kinds) != []
  }

  ghost function NextGone(c: Config, s: State, e: Event, gone: set<nat>): set<nat> {
    if !IsAbout(c, e) then gone
    else
      var b := DecodeBody(c.handler, e.bytes);
      if b.SrcAdded? then gone - {b.ref}
      else if CouldBeGone(s, gone, b.ref, e.now) then gone + {b.ref}
      else gone
  }

  /** In the run without any cleanup, no callback of the given kinds is about a source that was already due for
      dropping at that message or at an earlier one since it was last added. */
  ghost predicate Timely(c: Config, s: State, evs: seq<Event>, gone: set<nat>, kinds: set<CallKind>)
    decreases |evs|
  {
    evs == [] ||
    (!Missed(c, s, evs[0], gone, kinds) &&
     Timely(c, Step(c, s, evs[0]), evs[1..], NextGone(c, s, evs[0], gone), kinds))
  }

  /** Calls and sources after an event, with and without the source at hand dropped. */
  lemma CallsAfter(c: Config, s: State, e: Event, kinds: set<CallKind>)
    ensures Observed(Step(c, s, e).calls, kinds) ==
            Observed(s.calls, kinds) + (if IsAbout(c, e) then Observed(ReportOf(c, s, e), kinds) else [])
  {
    hide DecodeBody, OnReceive, OnScan, OnSend, Report, Observed;
    if IsAbout(c, e) {
      ReceiveAbout(c, s, e);
      ObservedOne(s.calls, ReportOf(c, s, e), kinds);
    } else if e.Recv? {
      ReceiveOther(c, s, e);
    } else {
      OtherCalls(c, s, e);
    }
  }

  lemma OtherCalls(c: Config, s: State, e: Event)
    requires !e.Recv?
    ensures Step(c, s, e).calls == s.calls
  {
    hide Encode, Min, DueSet, ExpiredSet;
  }

  /** What is absent from the second state but not from the first. */
  ghost predicate Excused(s1: State, s2: State, gone: set<nat>, w: nat) {
    forall k :: k in s1.sources && k !in s2.sources ==> k in gone || s1.sources[k].tsRemoved + KEEP_SECONDS < w
  }

  lemma SourcesAfter(c: Config, s: State, e: Event)
    requires !e.Sweep?
    ensures Step(c, s, e).sources.Keys ==
            s.sources.Keys + (if IsAbout(c, e) && DecodeBody(c.handler, e.bytes).SrcAdded?
                              then {DecodeBody(c.handler, e.bytes).ref} else {})
    ensures forall k :: k in s.sources && !(IsAbout(c, e) && DecodeBody(c.handler, e.bytes).ref == k) ==>
              Step(c, s, e).sources[k].tsRemoved == s.sources[k].tsRemoved
    ensures forall k :: k in s.sources && s.sources[k].tsRemoved > 0 && e.now > 0 && !Adds(c, e, k) ==>
              Step(c, s, e).sources[k].tsRemoved > 0
  {
    hide DecodeBody, Report, ReadDesc, ReadCounts, Fresh, Encode, Min, DueSet;
    if IsAbout(c, e) {
      ReceiveAbout(c, s, e);
    } else if e.Recv? {
      ReceiveOther(c, s, e);
    }
  }

  lemma ExcusedAfter(c: Config, s1: State, s2: State, e: Event, gone: set<nat>, t: nat, w: nat)
    requires Shadow(s1, s2) && WF(c.handler.version, s1) && Excused(s1, s2, gone, w)
    requires Ordered([e], t, w)
    ensures e.Sweep? ==> Excused(s1, Step(c, s2, e), gone, e.now)
    ensures !e.Sweep? ==> Excused(Step(c, s1, e), Step(c, s2, e), NextGone(c, s1, e, gone), w)
  {
    hide DecodeBody, WF, OnReceive, OnScan, OnSend;
    if e.Sweep? {
      assert Step(c, s2, e) == OnSweep(s2, e.now);
    } else {
      SourcesAfter(c, s1, e);
      SourcesAfter(c, s2, e);
    }
  }

  /** A callback is the same in both runs unless its source has been dropped in the second. */
  lemma ReportAfter(c: Config, s1: State, s2: State, e: Event, gone: set<nat>, kinds: set<CallKind>, t: nat, w: nat)
    requires Shadow(s1, s2) && IsAbout(c, e)
    ensures ReportOf(c, s2, e) == ReportOf(c, s1, e) ||
            (ReportOf(c, s2, e) == [] && DecodeBody(c.handler, e.bytes).ref !in s2.sources)
    ensures Excused(s1, s2, gone, w) && Ordered([e], t, w) && !Missed(c, s1, e, gone, kinds) ==>
            Observed(ReportOf(c, s2, e), kinds) == Observed(ReportOf(c, s1, e), kinds)
  {
    hide DecodeBody, Report;
    var b := DecodeBody(c.handler, e.bytes);
    UnknownStaysUnknown(b, e.now, |s1.log|);
    if b.ref !in s2.sources && b.ref in s1.sources && Excused(s1, s2, gone, w) && Ordered([e], t, w) {
      assert CouldBeGone(s1, gone, b.ref, e.now);
    }
  }

  /** If no callback comes too late then no placement of cleanups changes the callbacks. */
  lemma {:induction false} TimelyHidesCleanup(c: Config, s1: State, s2: State, evs: seq<Event>, t: nat, w: nat,
                                              gone: set<nat>, kinds: set<CallKind>)
    requires Shadow(s1, s2) && WF(c.handler.version, s1) && Excused(s1, s2, gone, w)
    requires Ordered(evs, t, w) && Timely(c, s1, Strip(evs), gone, kinds)
    requires Observed(s1.calls, kinds) == Observed(s2.calls, kinds)
    ensures Observed(Exec(c, s1, Strip(evs)).calls, kinds) == Observed(Exec(c, s2, evs).calls, kinds)
    decreases |evs|
  {
    hide WF, Shadow, Excused, Step, Missed, NextGone, IsAbout, Observed, ReportOf;
    if evs != [] {
      var e := evs[0];
      assert Ordered([e], t, w);
      ShadowStep(c, s1, s2, e);
      ExcusedAfter(c, s1, s2, e, gone, t, w);
      CallsAfter(c, s2, e, kinds);
      if e.Sweep? {
        assert !IsAbout(c, e) by { NotAbout(c, e); }
        TimelyHidesCleanup(c, s1, Step(c, s2, e), evs[1..], t, e.now, gone, kinds);
      } else {
        StepKeepsWF(c, s1, e);
        CallsAfter(c, s1, e, kinds);
        if IsAbout(c, e) {
          ReportAfter(c, s1, s2, e, gone, kinds, t, w);
        }
        assert Strip(evs)[1..] == Strip(evs[1..]);
        TimelyHidesCleanup(c, Step(c, s1, e), Step(c, s2, e), evs[1..], e.now, w,
                           NextGone(c, s1, e, gone), kinds);
      }
    }
  }

  lemma NotAbout(c: Config, e: Event)
    requires !e.Recv?
    ensures !IsAbout(c, e)
  {
  }

  // ---- one run and its own cleanups ------------------------------------------

  /** The message is reported in the first state; in the second its source has been dropped. */
  ghost predicate Lost(c: Config, s1: State, s2: State, e: Event, kinds: set<CallKind>) {
    IsAbout(c, e) && DecodeBody(c.handler, e.bytes).ref !in s2.sources && Observed(ReportOf(c, s1, e), kinds) != []
  }

  /** No message of the run, as it goes without cleanups and with its own, is lost. */
  ghost predicate NoneLost(c: Config, s1: State, s2: State, evs: seq<Event>, kinds: set<CallKind>)
    decreases |evs|
  {
    evs == [] ||
    (!Lost(c, s1, s2, evs[0], kinds) &&
     NoneLost(c, if evs[0].Sweep? then s1 else Step(c, s1, evs[0]), Step(c, s2, evs[0]), evs[1..], kinds))
  }

  /** What a lost message leaves out, and that any other leaves nothing out. */
  lemma LostIsExact(c: Config, s1: State, s2: State, e: Event, kinds: set<CallKind>)
    requires Shadow(s1, s2) && IsAbout(c, e)
    ensures var r1, r2 := Observed(ReportOf(c, s1, e), kinds), Observed(ReportOf(c, s2, e), kinds);
            if Lost(c, s1, s2, e, kinds) then r1 != [] && r2 == [] else r1 == r2
  {
    hide DecodeBody, Report, Observed;
    UnknownStaysUnknown(DecodeBody(c.handler, e.bytes), e.now, |s1.log|);
    ObservedNothing(kinds);
  }

  lemma {:induction false} LosesTheLost(c: Config, s1: State, s2: State, evs: seq<Event>, kinds: set<CallKind>)
    requires Shadow(s1, s2) && WF(c.handler.version, s1)
    requires forall i :: 0 <= i < |evs| ==> evs[i].now > 0
    ensures var o1, o2 := Observed(s1.calls, kinds), Observed(s2.calls, kinds);
            var p1, p2 := Observed(Exec(c, s1, Strip(evs)).calls, kinds), Observed(Exec(c, s2, evs).calls, kinds);
            && (o1 == o2 ==> (p1 == p2 <==> NoneLost(c, s1, s2, evs, kinds)))
            && (|o2| < |o1| || (|o2| == |o1| && !NoneLost(c, s1, s2, evs, kinds)) ==> |p2| < |p1|)
    decreases |evs|
  {
    hide WF, Shadow, Step, IsAbout, Observed, ReportOf, Lost;
    if evs != [] {
      var e := evs[0];
      var s1' := if e.Sweep? then s1 else Step(c, s1, e);
      ShadowStep(c, s1, s2, e);
      CallsAfter(c, s2, e, kinds);
      if e.Sweep? {
        NotAbout(c, e);
      } else {
        StepKeepsWF(c, s1, e);
        CallsAfter(c, s1, e, kinds);
        assert Strip(evs)[1..] == Strip(evs[1..]);
      }
      if IsAbout(c, e) {
        LostIsExact(c, s1, s2, e, kinds);
      } else {
        NotLost(c, s1, s2, e, kinds);
      }
      LosesTheLost(c, s1', Step(c, s2, e), evs[1..], kinds);
    }
  }

  /** The callbacks of a run are those it would have made without its cleanups exactly when none is lost; otherwise
      there are fewer of them. */
  lemma HiddenExactlyWhenNoneLost(c: Config, s: State, evs: seq<Event>, kinds: set<CallKind>)
    requires WF(c.handler.version, s) && forall i :: 0 <= i < |evs| ==> evs[i].now > 0
    ensures Observed(Exec(c, s, evs).calls, kinds) == Observed(Exec(c, s, Strip(evs)).calls, kinds) <==>
            NoneLost(c, s, s, evs, kinds)
    ensures !NoneLost(c, s, s, evs, kinds) ==>
            |Observed(Exec(c, s, evs).calls, kinds)| < |Observed(Exec(c, s, Strip(evs)).calls, kinds)|
  {
    hide WF, NoneLost, Observed, Exec, Strip;
    LosesTheLost(c, s, s, evs, kinds);
  }

  lemma NotLost(c: Config, s1: State, s2: State, e: Event, kinds: set<CallKind>)
    requires !IsAbout(c, e)
    ensures !Lost(c, s1, s2, e, kinds)
  {
  }

  // ---- the eager placement -------------------------------------------------

  /** A cleanup right before every message. */
  function Eager(evs: seq<Event>): seq<Event>
    decreases |evs|
  {
    if evs == [] then []
    else (if evs[0].Recv? then [Sweep(evs[0].now), evs[0]] else [evs[0]]) + Eager(evs[1..])
  }

  lemma StripCons(e: Event, evs: seq<Event>)
    ensures Strip([e] + evs) == if e.Sweep? then Strip(evs) else [e] + Strip(evs)
  {
    assert ([e] + evs)[1..] == evs;
  }

  lemma OrderedCons(e: Event, evs: seq<Event>, t: nat, w: nat)
    ensures Ordered([e] + evs, t, w) ==
            (Ordered([e], t, w) && Ordered(evs, if e.Sweep? then t else e.now, if e.Sweep? then e.now else w))
  {
    assert ([e] + evs)[1..] == evs && [e][1..] == [];
  }

  lemma NoEvents(t: nat, w: nat)
    ensures Ordered([], t, w) && Strip([]) == [] && Eager([]) == []
  {
  }

  lemma EagerCons(e: Event, evs: seq<Event>)
    ensures Eager([e] + evs) == if e.Recv? then [Sweep(e.now)] + ([e] + Eager(evs)) else [e] + Eager(evs)
  {
    assert ([e] + evs)[1..] == evs;
  }

  /** Taking the cleanups out again gives the run back. */
  lemma {:induction false} EagerStrips(evs: seq<Event>)
    requires NoSweeps(evs)
    ensures Strip(Eager(evs)) == evs
    ensures (forall i :: 0 <= i < |evs| ==> evs[i].now > 0) ==>
              forall i :: 0 <= i < |Eager(evs)| ==> Eager(evs)[i].now > 0
    decreases |evs|
  {
    hide Strip, Eager;
    if evs == [] {
      NoEvents(0, 0);
    } else {
      var e, rest := evs[0], Eager(evs[1..]);
      assert evs == [e] + evs[1..] && NoSweeps(evs[1..]);
      EagerCons(e, evs[1..]);
      EagerStrips(evs[1..]);
      StripCons(e, rest);
      StripCons(Sweep(e.now), [e] + rest);
    }
  }

  lemma {:induction false} EagerIsAPlacement(evs: seq<Event>, t: nat, w: nat)
    requires NoSweeps(evs) && Ordered(evs, t, w)
    ensures Strip(Eager(evs)) == evs && Ordered(Eager(evs), t, w)
    decreases |evs|
  {
    hide Ordered, Strip, Eager;
    EagerStrips(evs);
    if evs == [] {
      NoEvents(t, w);
    } else {
      var e, rest := evs[0], Eager(evs[1..]);
      assert evs == [e] + evs[1..] && NoSweeps(evs[1..]);
      OrderedCons(e, evs[1..], t, w);
      EagerCons(e, evs[1..]);
      if e.Recv? {
        LaterSweepClock(evs[1..], e.now, w, e.now);
        EagerIsAPlacement(evs[1..], e.now, e.now);
        SweptFirst(e, rest, t, w);
      } else {
        EagerIsAPlacement(evs[1..], e.now, w);
        OrderedCons(e, rest, t, w);
      }
    }
  }

  lemma SweptFirst(e: Event, rest: seq<Event>, t: nat, w: nat)
    requires e.Recv? && Ordered([e], t, w) && Ordered(rest, e.now, e.now)
    ensures Ordered([Sweep(e.now)] + ([e] + rest), t, w)
  {
    assert Ordered([Sweep(e.now)], t, w) && Ordered([e], t, e.now);
    hide Ordered;
    OrderedCons(Sweep(e.now), [e] + rest, t, w);
    OrderedCons(e, rest, t, e.now);
  }

  lemma {:induction false} LaterSweepClock(evs: seq<Event>, t: nat, w: nat, w': nat)
    requires Ordered(evs, t, w) && w' <= t
    ensures Ordered(evs, t, w')
    decreases |evs|
  {
    if evs != [] {
      if evs[0].Sweep? {
      } else {
        LaterSweepClock(evs[1..], evs[0].now, w, w');
      }
    }
  }

  /** Sources that a cleanup could have dropped have been dropped. */
  ghost predicate Dropped(s1: State, s2: State, gone: set<nat>) {
    forall k :: k in gone ==> k in s1.sources && s1.sources[k].tsRemoved > 0 && k !in s2.sources
  }

  lemma DroppedAfter(c: Config, s1: State, s2: State, e: Event, gone: set<nat>)
    requires Shadow(s1, s2) && !e.Sweep? && e.now > 0 && Dropped(s1, s2, gone)
    requires IsAbout(c, e) ==> forall k :: k in s2.sources ==> !Expired(s2.sources[k], e.now)
    ensures Dropped(Step(c, s1, e), Step(c, s2, e), NextGone(c, s1, e, gone))
  {
    hide DecodeBody, OnReceive, OnScan, OnSend;
    SourcesAfter(c, s1, e);
    SourcesAfter(c, s2, e);
  }

  lemma ObservedNothing(kinds: set<CallKind>)
    ensures Observed([], kinds) == []
  {
  }

  lemma MissedIsLost(c: Config, s1: State, s2: State, e: Event, gone: set<nat>, kinds: set<CallKind>)
    requires Shadow(s1, s2) && Dropped(s1, s2, gone) && Missed(c, s1, e, gone, kinds)
    requires forall k :: k in s2.sources ==> !Expired(s2.sources[k], e.now)
    ensures Lost(c, s1, s2, e, kinds)
  {
    hide DecodeBody, Report, Observed;
  }

  lemma NoneLostCons(c: Config, s1: State, s2: State, e: Event, evs: seq<Event>, kinds: set<CallKind>)
    ensures NoneLost(c, s1, s2, [e] + evs, kinds) <==>
            !Lost(c, s1, s2, e, kinds) &&
            NoneLost(c, if e.Sweep? then s1 else Step(c, s1, e), Step(c, s2, e), evs, kinds)
  {
    hide Step, Lost;
    assert ([e] + evs)[1..] == evs;
  }

  lemma {:induction false} EagerLosesTheLate(c: Config, s1: State, s2: State, evs: seq<Event>, gone: set<nat>,
                                             kinds: set<CallKind>)
    requires Shadow(s1, s2) && WF(c.handler.version, s1) && Dropped(s1, s2, gone)
    requires NoSweeps(evs) && forall i :: 0 <= i < |evs| ==> evs[i].now > 0
    requires !Timely(c, s1, evs, gone, kinds)
    ensures !NoneLost(c, s1, s2, Eager(evs), kinds)
    decreases |evs|
  {
    hide WF, Shadow, Dropped, Step, Missed, NextGone, Lost, Eager, NoneLost, IsAbout;
    var e, rest := evs[0], evs[1..];
    var s2' := if e.Recv? then Step(c, s2, Sweep(e.now)) else s2;
    assert evs == [e] + rest;
    EagerCons(e, rest);
    if e.Recv? {
      ShadowStep(c, s1, s2, Sweep(e.now));
      SweptState(c, s1, s2, e.now, gone);
      NoneLostCons(c, s1, s2, Sweep(e.now), [e] + Eager(rest), kinds);
    } else {
      NotAbout(c, e);
    }
    NoneLostCons(c, s1, s2', e, Eager(rest), kinds);
    if Missed(c, s1, e, gone, kinds) {
      MissedIsAbout(c, s1, e, gone, kinds);
      MissedIsLost(c, s1, s2', e, gone, kinds);
    } else {
      ShadowStep(c, s1, s2', e);
      StepKeepsWF(c, s1, e);
      DroppedAfter(c, s1, s2', e, gone);
      EagerLosesTheLate(c, Step(c, s1, e), Step(c, s2', e), rest, NextGone(c, s1, e, gone), kinds);
    }
  }

  lemma MissedIsAbout(c: Config, s: State, e: Event, gone: set<nat>, kinds: set<CallKind>)
    requires Missed(c, s, e, gone, kinds)
    ensures IsAbout(c, e)
  {
  }

  /** A callback that comes too late is lost when cleanups are placed eagerly. */
  lemma EagerLosesLateCallbacks(c: Config, s1: State, s2: State, evs: seq<Event>, gone: set<nat>, kinds: set<CallKind>)
    requires Shadow(s1, s2) && WF(c.handler.version, s1) && Dropped(s1, s2, gone)
    requires NoSweeps(evs) && forall i :: 0 <= i < |evs| ==> evs[i].now > 0
    requires |Observed(s2.calls, kinds)| <= |Observed(s1.calls, kinds)|
    requires |Observed(s2.calls, kinds)| == |Observed(s1.calls, kinds)| ==> !Timely(c, s1, evs, gone, kinds)
    ensures |Observed(Exec(c, s2, Eager(evs)).calls, kinds)| < |Observed(Exec(c, s1, evs).calls, kinds)|
  {
    hide WF, Shadow, Dropped, Timely, NoneLost, Observed, Exec, Eager, Strip;
    if !Timely(c, s1, evs, gone, kinds) {
      EagerLosesTheLate(c, s1, s2, evs, gone, kinds);
    }
    EagerStrips(evs);
    LosesTheLost(c, s1, s2, Eager(evs), kinds);
  }

  lemma SweptState(c: Config, s1: State, s2: State, now: nat, gone: set<nat>)
    requires Dropped(s1, s2, gone)
    ensures Step(c, s2, Sweep(now)).calls == s2.calls
    ensures Dropped(s1, Step(c, s2, Sweep(now)), gone)
    ensures var s := Step(c, s2, Sweep(now)); forall k :: k in s.sources ==> !Expired(s.sources[k], now)
  {
  }

  // ---- the exact condition -------------------------------------------------

  /** Cleanup is unobservable, wherever it is placed, exactly when no callback comes too late. */
  lemma CleanupUnobservable(c: Config, s: State, evs: seq<Event>, t: nat, kinds: set<CallKind>)
    requires WF(c.handler.version, s) && NoSweeps(evs) && Ordered(evs, t, 0)
    ensures Timely(c, s, evs, {}, kinds) <==>
            forall placed: seq<Event> | Strip(placed) == evs && Ordered(placed, t, 0) ::
              Observed(Exec(c, s, placed).calls, kinds) == Observed(Exec(c, s, evs).calls, kinds)
  {
    hide Timely, Observed, Exec, WF, Ordered, Strip;
    if Timely(c, s, evs, {}, kinds) {
      forall placed: seq<Event> | Strip(placed) == evs && Ordered(placed, t, 0)
        ensures Observed(Exec(c, s, placed).calls, kinds) == Observed(Exec(c, s, evs).calls, kinds)
      {
        TimelyHidesCleanup(c, s, s, placed, t, 0, {}, kinds);
      }
    } else {
      PositiveClocks(evs, t, 0);
      EagerLosesLateCallbacks(c, s, s, evs, {}, kinds);
      EagerIsAPlacement(evs, t, 0);
      assert Strip(Eager(evs)) == evs;
    }
  }

  lemma {:induction false} PositiveClocks(evs: seq<Event>, t: nat, w: nat)
    requires Ordered(evs, t, w)
    ensures forall i :: 0 <= i < |evs| ==> evs[i].now > 0
    decreases |evs|
  {
    if evs != [] {
      PositiveClocks(evs[1..], if evs[0].Sweep? then t else evs[0].now, if evs[0].Sweep? then evs[0].now else w);
      forall i | 0 <= i < |evs|
        ensures evs[i].now > 0
      {
        assert i > 0 ==> evs[i] == evs[1..][i - 1];
      }
    }
  }

  /** The kernel says nothing about a removed source, short of adding it again, once the grace period is over. */
  ghost predicate WithinGrace(c: Config, s: State, evs: seq<Event>)
    decreases |evs|
  {
    evs == [] ||
    (&& (IsAbout(c, evs[0]) && !DecodeBody(c.handler, evs[0].bytes).SrcAdded? ==>
           var k := DecodeBody(c.handler, evs[0].bytes).ref;
           k in s.sources ==> !Expired(s.sources[k], evs[0].now))
     && WithinGrace(c, Step(c, s, evs[0]), evs[1..]))
  }

  lemma {:induction false} WithinGraceIsTimely(c: Config, s: State, evs: seq<Event>, kinds: set<CallKind>)
    requires WithinGrace(c, s, evs)
    ensures Timely(c, s, evs, {}, kinds)
    decreases |evs|
  {
    hide DecodeBody, Step, Observed;
    if evs != [] {
      assert NextGone(c, s, evs[0], {}) == {};
      ObservedNothing(kinds);
      WithinGraceIsTimely(c, Step(c, s, evs[0]), evs[1..], kinds);
    }
  }
}
