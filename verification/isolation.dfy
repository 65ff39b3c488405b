/** Sources do not interfere: what is reported about one depends only on the messages about it and on the timers. */
module Isolation {
  import opened Options
  import opened Streams
  import opened Codec
  import opened Model
  import opened Cleanup

  /** The callbacks about one source, without their place in the log. */
  function About(calls: seq<Call>, k: nat): seq<Call> {
    if calls == [] then []
    else
      var n := |calls| - 1;
      About(calls[..n], k) + (if calls[n].stream.id == k then [calls[n].(pos := 0)] else [])
  }

  lemma AboutOne(calls: seq<Call>, more: seq<Call>, k: nat)
    requires |more| <= 1
    ensures About(calls + more, k) == About(calls, k) + About(more, k)
  {
    if more == [] {
      assert calls + more == calls;
    } else {
      assert (calls + more)[..|calls|] == calls && more[..0] == [];
    }
  }

  predicate Relevant(c: Config, e: Event, k: nat) {
    e.Scan? || e.Sweep? || (IsAbout(c, e) && DecodeBody(c.handler, e.bytes).ref == k)
  }

  /** The timers and the messages about one source. */
  function Project(c: Config, evs: seq<Event>, k: nat): seq<Event>
    decreases |evs|
  {
    if evs == [] then []
    else (if Relevant(c, evs[0], k) then [evs[0]] else []) + Project(c, evs[1..], k)
  }

  /** Two runs in which the source is in the same state and has been reported on alike. */
  ghost predicate Alike(s1: State, s2: State, k: nat) {
    Lookup(s1.sources, k) == Lookup(s2.sources, k) && About(s1.calls, k) == About(s2.calls, k)
  }

  lemma ReportIsAbout(c: Config, s: State, e: Event)
    requires IsAbout(c, e) && WF(c.handler.version, s)
    ensures forall call :: call in ReportOf(c, s, e) ==> call.stream.id == DecodeBody(c.handler, e.bytes).ref
  {
    hide DecodeBody, HasPorts;
  }

  /** Calls and the source after an event. */
  lemma SourceAfter(c: Config, s: State, e: Event, k: nat)
    requires WF(c.handler.version, s)
    ensures !Relevant(c, e, k) ==> Alike(s, Step(c, s, e), k)
    ensures IsAbout(c, e) && DecodeBody(c.handler, e.bytes).ref == k ==>
              Lookup(Step(c, s, e).sources, k) == Touch(Lookup(s.sources, k), DecodeBody(c.handler, e.bytes), e.now) &&
              About(Step(c, s, e).calls, k) == About(s.calls, k) + About(ReportOf(c, s, e), k)
  {
    hide DecodeBody, Report, Touch, OnReceive, OnSend, WF;
    if IsAbout(c, e) {
      ReceiveAbout(c, s, e);
      TouchKeeps(DecodeBody(c.handler, e.bytes), e.now);
      AboutOne(s.calls, ReportOf(c, s, e), k);
      ReportIsAbout(c, s, e);
      if DecodeBody(c.handler, e.bytes).ref != k {
        AboutOthers(ReportOf(c, s, e), k);
      }
    } else if e.Recv? {
      ReceiveOther(c, s, e);
    } else if e.Send? {
      OtherCalls(c, s, e);
      SendKeepsSources(c, s, e);
    }
  }

  lemma TouchKeeps(b: Body, now: nat)
    requires AboutSource(b)
    ensures !b.SrcAdded? ==> Touch(None, b, now) == None
    ensures forall src :: Touch(Some(src), b, now).Some?
    ensures b.SrcAdded? ==> Touch(None, b, now).Some?
  {
  }

  lemma {:induction false} AboutOthers(calls: seq<Call>, k: nat)
    requires forall call :: call in calls ==> call.stream.id != k
    ensures About(calls, k) == []
  {
    if calls != [] {
      AboutOthers(calls[..|calls| - 1], k);
    }
  }

  lemma SendKeepsSources(c: Config, s: State, e: Event)
    requires e.Send?
    ensures Step(c, s, e).sources == s.sources
  {
    hide Encode, Min;
  }

  lemma TimerAlike(c: Config, s1: State, s2: State, e: Event, k: nat)
    requires Alike(s1, s2, k) && (e.Scan? || e.Sweep?)
    ensures Alike(Step(c, s1, e), Step(c, s2, e), k)
  {
    hide Due, Expired;
    OtherCalls(c, s1, e);
    OtherCalls(c, s2, e);
  }

  lemma ReportAlike(c: Config, s1: State, s2: State, e: Event, k: nat)
    requires IsAbout(c, e) && DecodeBody(c.handler, e.bytes).ref == k
    requires Lookup(s1.sources, k) == Lookup(s2.sources, k)
    ensures About(ReportOf(c, s1, e), k) == About(ReportOf(c, s2, e), k)
  {
    hide DecodeBody, HasPorts;
    var r1, r2 := ReportOf(c, s1, e), ReportOf(c, s2, e);
    assert |r1| == |r2| && (r1 != [] ==> r1[0].(pos := 0) == r2[0].(pos := 0));
    assert r1[..0] == [] && r2[..0] == [];
  }

  /** For every source, the callbacks about it are those of the run that sees only the messages about it. */
  lemma {:induction false} Noninterference(c: Config, s1: State, s2: State, evs: seq<Event>, k: nat)
    requires WF(c.handler.version, s1) && WF(c.handler.version, s2) && Alike(s1, s2, k)
    requires forall i :: 0 <= i < |evs| ==> evs[i].now > 0
    ensures Alike(Exec(c, s1, evs), Exec(c, s2, Project(c, evs, k)), k)
    decreases |evs|
  {
    hide WF, Step, IsAbout, DecodeBody, About, ReportOf, Touch, Lookup;
    if evs != [] {
      var e := evs[0];
      var s1' := Step(c, s1, e);
      StepKeepsWF(c, s1, e);
      SourceAfter(c, s1, e, k);
      if Relevant(c, e, k) {
        var s2' := Step(c, s2, e);
        StepKeepsWF(c, s2, e);
        assert Project(c, evs, k)[1..] == Project(c, evs[1..], k);
        if e.Scan? || e.Sweep? {
          TimerAlike(c, s1, s2, e, k);
        } else {
          SourceAfter(c, s2, e, k);
          ReportAlike(c, s1, s2, e, k);
        }
        Noninterference(c, s1', s2', evs[1..], k);
      } else {
        assert Project(c, evs, k) == Project(c, evs[1..], k);
        Noninterference(c, s1', s2, evs[1..], k);
      }
    }
  }
}
