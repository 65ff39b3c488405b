/** How often updates can be reported for one source, over a whole run and across reuse of its reference. */
module Rate {
  import opened Streams
  import opened Codec
  import opened Model
  import opened Cleanup
  import opened Isolation

  /** When updates were reported for a source. */
  function UpdateTimes(calls: seq<Call>, k: nat): seq<nat> {
    if calls == [] then []
    else
      var n := |calls| - 1;
      UpdateTimes(calls[..n], k) +
      (if calls[n].kind == OnStatsUpdate && calls[n].stream.id == k then [calls[n].at] else [])
  }

  lemma UpdateTimesOne(calls: seq<Call>, more: seq<Call>, k: nat)
    requires |more| <= 1
    ensures UpdateTimes(calls + more, k) == UpdateTimes(calls, k) + UpdateTimes(more, k)
  {
    if more == [] {
      assert calls + more == calls;
    } else {
      assert (calls + more)[..|calls|] == calls && more[..0] == [];
    }
  }

  /** Scans are at least `interval` apart, the first at least that long after `last`. */
  ghost predicate Spaced(evs: seq<Event>, last: nat, interval: nat)
    decreases |evs|
  {
    evs == [] ||
    if evs[0].Scan? then last + interval <= evs[0].now && Spaced(evs[1..], evs[0].now, interval)
    else Spaced(evs[1..], last, interval)
  }

  /** The earliest time for the update with index `j`, given the one with index `i`. */
  function Bound(u: seq<nat>, i: nat, j: int, interval: nat): int
    requires i < |u|
  {
    u[i] + MIN_QUERY_AGE + (j - i - 1) * interval
  }

  /** `last` is the time of the latest scan and `t` that of the latest event. */
  ghost predicate Paced(s: State, k: nat, i: nat, last: nat, t: nat, interval: nat) {
    var u := UpdateTimes(s.calls, k);
    && last <= t
    && (forall j :: 0 <= j < |u| ==> u[j] <= t)
    && (i < |u| && k in s.sources ==> LastHeard(s.sources[k]) >= u[|u| - 1])
    && (forall j :: i < j < |u| ==> u[j] >= Bound(u, i, j, interval))
    && (i + 1 < |u| ==> last >= Bound(u, i, |u| - 1, interval))
    && (i < |u| && k in s.sources && s.sources[k].requested ==> last >= Bound(u, i, |u|, interval))
  }

  lemma NextBound(u: seq<nat>, i: nat, j: int, interval: nat)
    requires i < |u|
    ensures Bound(u, i, j + 1, interval) == Bound(u, i, j, interval) + interval
    ensures Bound(u, i, i + 1, interval) == u[i] + MIN_QUERY_AGE
  {
    assert (j + 1 - i - 1) * interval == (j - i - 1) * interval + interval;
  }

  /** The updates that a message about a source causes, and what the source was like. */
  lemma UpdateCause(c: Config, s: State, e: Event, k: nat)
    requires IsAbout(c, e) && WF(c.handler.version, s)
    ensures var u := UpdateTimes(ReportOf(c, s, e), k);
            u == [] || (u == [e.now] && k in s.sources && s.sources[k].requested &&
                        DecodeBody(c.handler, e.bytes).SrcCounts? && DecodeBody(c.handler, e.bytes).ref == k)
  {
    hide DecodeBody, HasPorts;
    var r := ReportOf(c, s, e);
    if r != [] {
      ReportIsAbout(c, s, e);
      assert r[0] in r && r[..0] == [];
    }
  }

  /** What a message leaves of the source. */
  lemma HeardAfter(s: State, b: Body, now: nat, k: nat)
    requires AboutSource(b) && b.ref == k && now > 0
    ensures k in s.sources ==> Touch(Lookup(s.sources, k), b, now).Some?
    ensures var o, o' := Lookup(s.sources, k), Touch(Lookup(s.sources, k), b, now);
            o'.Some? ==>
              ((b.SrcCounts? && LastHeard(o'.value) == now && !o'.value.requested) ||
               (b.SrcAdded? && LastHeard(o'.value) == now && !o'.value.requested) ||
               (o.Some? && !b.SrcCounts? && LastHeard(o'.value) == LastHeard(o.value) &&
                o'.value.requested == o.value.requested))
  {
  }

  lemma UpdateTimesAfter(c: Config, s: State, e: Event, k: nat)
    requires IsAbout(c, e)
    ensures UpdateTimes(Step(c, s, e).calls, k) == UpdateTimes(s.calls, k) + UpdateTimes(ReportOf(c, s, e), k)
  {
    hide DecodeBody, ReportOf;
    CallsOf(c, s, e);
    UpdateTimesOne(s.calls, ReportOf(c, s, e), k);
  }

  lemma PacedUpdate(s: State, s': State, now: nat, k: nat, i: nat, last: nat, t: nat, interval: nat)
    requires Paced(s, k, i, last, t, interval) && t <= now
    requires k in s.sources && s.sources[k].requested
    requires k in s'.sources && !s'.sources[k].requested && LastHeard(s'.sources[k]) == now
    requires UpdateTimes(s'.calls, k) == UpdateTimes(s.calls, k) + [now]
    ensures Paced(s', k, i, last, now, interval)
  {
    hide UpdateTimes, LastHeard;
    var u, u' := UpdateTimes(s.calls, k), UpdateTimes(s'.calls, k);
    if i < |u| {
      NextBound(u, i, |u|, interval);
      assert forall j {:trigger Bound(u', i, j, interval)} :: Bound(u', i, j, interval) == Bound(u, i, j, interval);
    }
  }

  /** Nothing was reported, and if the source is still there it was heard from no earlier and is asked of no more. */
  lemma PacedSilence(s: State, s': State, now: nat, k: nat, i: nat, last: nat, t: nat, interval: nat)
    requires Paced(s, k, i, last, t, interval) && t <= now
    requires UpdateTimes(s'.calls, k) == UpdateTimes(s.calls, k)
    requires k in s'.sources ==>
               (LastHeard(s'.sources[k]) == now && !s'.sources[k].requested) ||
               (k in s.sources && LastHeard(s'.sources[k]) == LastHeard(s.sources[k]) &&
                s'.sources[k].requested == s.sources[k].requested)
    ensures Paced(s', k, i, last, now, interval)
  {
    hide UpdateTimes, LastHeard, Bound;
  }

  /** A message that causes no update, and one that does. */
  lemma PacedReceive(c: Config, s: State, e: Event, k: nat, i: nat, last: nat, t: nat, interval: nat)
    requires WF(c.handler.version, s) && Paced(s, k, i, last, t, interval)
    requires IsAbout(c, e) && t <= e.now && e.now > 0
    ensures Paced(Step(c, s, e), k, i, last, e.now, interval)
  {
    hide DecodeBody, Touch, ReportOf, WF, LastHeard, UpdateTimes, Step, Paced, About;
    var b := DecodeBody(c.handler, e.bytes);
    UpdateTimesAfter(c, s, e, k);
    UpdateCause(c, s, e, k);
    SourceAfter(c, s, e, k);
    if b.ref == k {
      HeardAfter(s, b, e.now, k);
    }
    if UpdateTimes(ReportOf(c, s, e), k) != [] {
      PacedUpdate(s, Step(c, s, e), e.now, k, i, last, t, interval);
    } else {
      PacedSilence(s, Step(c, s, e), e.now, k, i, last, t, interval);
    }
  }

  lemma CallsOf(c: Config, s: State, e: Event)
    requires IsAbout(c, e)
    ensures Step(c, s, e).calls == s.calls + ReportOf(c, s, e)
  {
    hide DecodeBody, Report;
    ReceiveAbout(c, s, e);
  }

  lemma PacedScan(s: State, now: nat, k: nat, i: nat, last: nat, t: nat, interval: nat)
    requires Paced(s, k, i, last, t, interval) && t <= now && last + interval <= now
    ensures Paced(OnScan(s, now), k, i, now, now, interval)
  {
    var u := UpdateTimes(s.calls, k);
    if i < |u| {
      NextBound(u, i, |u| - 1, interval);
    }
  }

  lemma PacedStep(c: Config, s: State, e: Event, k: nat, i: nat, last: nat, t: nat, interval: nat)
    requires WF(c.handler.version, s) && Paced(s, k, i, last, t, interval)
    requires e.now > 0 && t <= e.now && (e.Scan? ==> last + interval <= e.now)
    ensures Paced(Step(c, s, e), k, i, if e.Scan? then e.now else last, if e.Sweep? then t else e.now, interval)
  {
    hide DecodeBody, OnReceive, OnSend, WF;
    if IsAbout(c, e) {
      PacedReceive(c, s, e, k, i, last, t, interval);
    } else if e.Recv? {
      ReceiveOther(c, s, e);
    } else if e.Scan? {
      PacedScan(s, e.now, k, i, last, t, interval);
    } else {
      OtherCalls(c, s, e);
      if e.Send? {
        SendKeepsSources(c, s, e);
      }
    }
  }

  lemma {:induction false} PacedRun(c: Config, s: State, evs: seq<Event>, k: nat, i: nat, last: nat, t: nat, w: nat,
                                    interval: nat)
    requires WF(c.handler.version, s) && Paced(s, k, i, last, t, interval)
    requires Ordered(evs, t, w) && Spaced(evs, last, interval)
    ensures var u := UpdateTimes(Exec(c, s, evs).calls, k);
            forall j :: i < j < |u| ==> u[j] >= Bound(u, i, j, interval)
    decreases |evs|
  {
    hide WF, Step, UpdateTimes;
    if evs == [] {
      assert Exec(c, s, evs) == s;
    } else {
      var e := evs[0];
      PacedStep(c, s, e, k, i, last, t, interval);
      StepKeepsWF(c, s, e);
      PacedRun(c, Step(c, s, e), evs[1..], k, i, if e.Scan? then e.now else last, if e.Sweep? then t else e.now,
               if e.Sweep? then e.now else w, interval);
      assert Exec(c, s, evs) == Exec(c, Step(c, s, e), evs[1..]);
    }
  }

  /** In every run that starts without sources, if scans are `interval` apart, an update for a source is followed
      by the next no sooner than 15 seconds later and by the n-th no sooner than 15 + (n - 1) * interval. */
  lemma UpdateRate(c: Config, s: State, evs: seq<Event>, k: nat, i: nat, j: nat, last: nat, t: nat, interval: nat)
    requires WF(c.handler.version, s) && s.sources == map[] && s.calls == []
    requires last <= t && Ordered(evs, t, 0) && Spaced(evs, last, interval)
    requires i < j < |UpdateTimes(Exec(c, s, evs).calls, k)|
    ensures var u := UpdateTimes(Exec(c, s, evs).calls, k);
            u[j] - u[i] >= 15 + (j - i - 1) * interval
  {
    hide WF, Ordered, Spaced;
    PacedRun(c, s, evs, k, i, last, t, 0, interval);
  }
}
