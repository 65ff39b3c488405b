/** The two timers of the main loop: what they guarantee over whole runs. */
module Timers {
  import opened ByteStrings
  import opened Options
  import opened Codec
  import opened Model
  import opened RunLoop
  import opened Cleanup
  import opened Isolation
  import opened ListenerProtocol
  import opened Requests
  import opened Rate

  // ---- the schedule ----------------------------------------------------------

  /** The clock does not go back while an inbox is read. */
  predicate InboxClock(msgs: seq<(Bytes, nat)>, t: nat)
    decreases |msgs|
  {
    msgs == [] || (t <= msgs[0].1 && InboxClock(msgs[1..], msgs[0].1))
  }

  function LastClock(msgs: seq<(Bytes, nat)>, t: nat): nat {
    if msgs == [] then t else msgs[|msgs| - 1].1
  }

  predicate TickClock(tick: Tick, t: nat) {
    0 < tick.now && t <= tick.now <= tick.sweepNow <= tick.sendNow && InboxClock(tick.inbox, tick.sendNow)
  }

  /** The clock is positive and does not go back. */
  predicate ClockRuns(ticks: seq<Tick>, t: nat)
    decreases |ticks|
  {
    ticks == [] ||
    (TickClock(ticks[0], t) && ClockRuns(ticks[1..], LastClock(ticks[0].inbox, ticks[0].sendNow)))
  }

  lemma InboxCons(msgs: seq<(Bytes, nat)>, rest: seq<Event>)
    requires msgs != []
    ensures Inbox(msgs) + rest == [Recv(msgs[0].0, msgs[0].1)] + (Inbox(msgs[1..]) + rest)
  {
  }

  lemma OrderedRecv(e: Event, evs: seq<Event>, t: nat, w: nat)
    requires e.Recv? && e.now > 0 && t <= e.now && w <= e.now && Ordered(evs, e.now, w)
    ensures Ordered([e] + evs, t, w)
  {
    OrderedCons(e, evs, t, w);
  }

  lemma {:induction false} OrderedInbox(msgs: seq<(Bytes, nat)>, rest: seq<Event>, t: nat, w: nat)
    requires InboxClock(msgs, t) && 0 < t && w <= t && Ordered(rest, LastClock(msgs, t), w)
    ensures Ordered(Inbox(msgs) + rest, t, w)
    ensures t <= LastClock(msgs, t)
    decreases |msgs|
  {
    hide Ordered;
    if msgs == [] {
      assert Inbox(msgs) + rest == rest;
    } else {
      OrderedInbox(msgs[1..], rest, msgs[0].1, w);
      InboxCons(msgs, rest);
      OrderedRecv(Recv(msgs[0].0, msgs[0].1), Inbox(msgs[1..]) + rest, t, w);
    }
  }

  /** The events of an iteration in their order, in front of what follows it. */
  lemma TickShape(c: Config, tC: nat, tU: nat, tick: Tick, rest: seq<Event>)
    ensures TickEvents(c, tC, tU, tick) + rest ==
            (if SweepDue(tC, tick) then [Sweep(tick.sweepNow)] else []) +
            ((if ScanDue(c, tU, tick) then [Scan(tick.now)] else []) +
             ([Event.Send(tick.sendNow)] + (Inbox(tick.inbox) + rest)))
  {
    hide Inbox;
  }

  lemma OrderedMaybe(due: bool, e: Event, evs: seq<Event>, t: nat, w: nat)
    requires if due then Ordered([e] + evs, t, w) else Ordered(evs, t, w)
    ensures Ordered((if due then [e] else []) + evs, t, w)
  {
    hide Ordered;
    assert [] + evs == evs;
  }

  lemma OrderedTick(c: Config, tC: nat, tU: nat, tick: Tick, rest: seq<Event>, t: nat, w: nat)
    requires TickClock(tick, t) && w <= t
    requires Ordered(rest, LastClock(tick.inbox, tick.sendNow), if SweepDue(tC, tick) then tick.sweepNow else w)
    ensures Ordered(TickEvents(c, tC, tU, tick) + rest, t, w)
  {
    hide Inbox, InboxClock, LastClock, TickEvents;
    var w' := if SweepDue(tC, tick) then tick.sweepNow else w;
    var t' := if ScanDue(c, tU, tick) then tick.now else t;
    var tail := Inbox(tick.inbox) + rest;
    OrderedInbox(tick.inbox, rest, tick.sendNow, w');
    var sends := [Event.Send(tick.sendNow)] + tail;
    assert Ordered(sends, t', w') by {
      OrderedCons(Event.Send(tick.sendNow), tail, t', w');
    }
    var scans := (if ScanDue(c, tU, tick) then [Scan(tick.now)] else []) + sends;
    assert Ordered(scans, t, w') by {
      OrderedCons(Scan(tick.now), sends, t, w');
      OrderedMaybe(ScanDue(c, tU, tick), Scan(tick.now), sends, t, w');
    }
    OrderedCons(Sweep(tick.sweepNow), scans, t, w);
    OrderedMaybe(SweepDue(tC, tick), Sweep(tick.sweepNow), scans, t, w);
    TickShape(c, tC, tU, tick, rest);
  }

  /** If the clock runs forward, the events of a run are ordered. */
  lemma {:induction false} ScheduleIsOrdered(c: Config, tC: nat, tU: nat, ticks: seq<Tick>, t: nat, w: nat)
    requires ClockRuns(ticks, t) && w <= t
    ensures Ordered(Schedule(c, tC, tU, ticks), t, w)
    decreases |ticks|
  {
    hide TickEvents, InboxClock, Ordered;
    if ticks == [] {
      assert Ordered([], t, w) by { OrderedNone(t, w); }
    } else {
      var tick := ticks[0];
      var w' := if SweepDue(tC, tick) then tick.sweepNow else w;
      InboxForward(tick.inbox, tick.sendNow);
      ScheduleIsOrdered(c, NextCleanup(tC, tick), NextUpdate(c, tU, tick), ticks[1..],
                        LastClock(tick.inbox, tick.sendNow), w');
      OrderedTick(c, tC, tU, tick, Schedule(c, NextCleanup(tC, tick), NextUpdate(c, tU, tick), ticks[1..]), t, w);
    }
  }

  lemma OrderedNone(t: nat, w: nat)
    ensures Ordered([], t, w)
  {
  }

  lemma {:induction false} InboxForward(msgs: seq<(Bytes, nat)>, t: nat)
    requires InboxClock(msgs, t)
    ensures t <= LastClock(msgs, t)
    decreases |msgs|
  {
    if msgs != [] {
      InboxForward(msgs[1..], msgs[0].1);
    }
  }

  lemma {:induction false} SpacedSkip(evs: seq<Event>, rest: seq<Event>, last: nat, interval: nat)
    requires forall i :: 0 <= i < |evs| ==> !evs[i].Scan?
    ensures Spaced(evs + rest, last, interval) == Spaced(rest, last, interval)
    decreases |evs|
  {
    if evs == [] {
      assert evs + rest == rest;
    } else {
      assert (evs + rest)[1..] == evs[1..] + rest;
      SpacedSkip(evs[1..], rest, last, interval);
    }
  }

  lemma SpacedScan(now: nat, rest: seq<Event>, last: nat, interval: nat)
    ensures Spaced([Scan(now)] + rest, last, interval) == (last + interval <= now && Spaced(rest, now, interval))
  {
    assert ([Scan(now)] + rest)[1..] == rest;
  }

  /** Scans are at least the configured interval apart. */
  lemma {:induction false} ScheduleIsSpaced(c: Config, tC: nat, tU: nat, ticks: seq<Tick>)
    ensures Spaced(Schedule(c, tC, tU, ticks), tU, c.interval)
    decreases |ticks|
  {
    hide Spaced, TickEvents;
    if ticks == [] {
      SpacedNone(tU, c.interval);
    } else {
      var tick := ticks[0];
      var tU' := NextUpdate(c, tU, tick);
      var rest := Schedule(c, NextCleanup(tC, tick), tU', ticks[1..]);
      ScheduleIsSpaced(c, NextCleanup(tC, tick), tU', ticks[1..]);
      var after := [Event.Send(tick.sendNow)] + (Inbox(tick.inbox) + rest);
      SpacedSkip(Inbox(tick.inbox), rest, tU', c.interval);
      SpacedSkip([Event.Send(tick.sendNow)], Inbox(tick.inbox) + rest, tU', c.interval);
      SpacedScan(tick.now, after, tU, c.interval);
      assert [] + after == after;
      SpacedSkip(if SweepDue(tC, tick) then [Sweep(tick.sweepNow)] else [],
                 (if ScanDue(c, tU, tick) then [Scan(tick.now)] else []) + after, tU, c.interval);
      TickShape(c, tC, tU, tick, rest);
    }
  }

  lemma SpacedNone(last: nat, interval: nat)
    ensures Spaced([], last, interval)
  {
  }

  /** In every run of the main loop, the updates for one source obey the rate of the configured interval. */
  lemma UpdateRateOfRun(c: Config, tC: nat, tU: nat, ticks: seq<Tick>, k: nat, i: nat, j: nat)
    requires ClockRuns(ticks, tU)
    requires i < j < |UpdateTimes(Exec(c, Started(c), Schedule(c, tC, tU, ticks)).calls, k)|
    ensures var u := UpdateTimes(Exec(c, Started(c), Schedule(c, tC, tU, ticks)).calls, k);
            u[j] - u[i] >= 15 + (j - i - 1) * c.interval
  {
    hide Ordered, Spaced, Schedule, Exec, WF, UpdateTimes;
    ScheduleIsOrdered(c, tC, tU, ticks, tU, 0);
    ScheduleIsSpaced(c, tC, tU, ticks);
    StartedWF(c);
    UpdateRate(c, Started(c), Schedule(c, tC, tU, ticks), k, i, j, tU, tU, c.interval);
  }

  lemma StartedWF(c: Config)
    ensures WF(c.handler.version, Started(c)) && OnlySubscriptions(Started(c))
    ensures Started(c).sources == map[] && Started(c).calls == [] && Started(c).log == []
  {
    hide Encode, TypeOf;
    var v := c.handler.version;
    StartedKeepsWF(c);
    SubscriptionQueued(v, INITIAL.(phase := RequestTcp), AddAllTcp);
    SubscriptionQueued(v, INITIAL.(phase := RequestUdp), AddAllUdp);
  }

  // ---- the loop, iteration by iteration --------------------------------------

  /** The state of the loop between iterations: the client's and the two timestamps. */
  datatype Loop = Loop(s: State, tC: nat, tU: nat)

  ghost function AfterTick(c: Config, l: Loop, tick: Tick): Loop {
    Loop(Exec(c, l.s, TickEvents(c, l.tC, l.tU, tick)), NextCleanup(l.tC, tick), NextUpdate(c, l.tU, tick))
  }

  ghost function AfterTicks(c: Config, l: Loop, ticks: seq<Tick>): Loop
    decreases |ticks|
  {
    if ticks == [] then l else AfterTicks(c, AfterTick(c, l, ticks[0]), ticks[1..])
  }

  /** The client between iterations is the run of the schedule so far. */
  lemma {:induction false} AfterTicksRunsSchedule(c: Config, l: Loop, ticks: seq<Tick>)
    ensures AfterTicks(c, l, ticks).s == Exec(c, l.s, Schedule(c, l.tC, l.tU, ticks))
    decreases |ticks|
  {
    hide Step, TickEvents;
    if ticks != [] {
      var l' := AfterTick(c, l, ticks[0]);
      AfterTicksRunsSchedule(c, l', ticks[1..]);
      ExecAppend(c, l.s, TickEvents(c, l.tC, l.tU, ticks[0]), Schedule(c, l'.tC, l'.tU, ticks[1..]));
    }
  }

  /** The state in which an iteration starts sending: after its two timer checks. */
  ghost function Checked(c: Config, l: Loop, tick: Tick): State {
    Exec(c, l.s, Checks(c, l.tC, l.tU, tick))
  }

  // ---- retention --------------------------------------------------------------

  /** Every removed source was marked no earlier than the grace period before the last cleanup check that fired. */
  ghost predicate Kept(s: State, tC: nat) {
    forall k :: k in s.sources && s.sources[k].tsRemoved > 0 ==> s.sources[k].tsRemoved + KEEP_SECONDS >= tC
  }

  lemma TouchMarksNow(b: Body, o: Option<Source>, now: nat)
    requires AboutSource(b)
    ensures var o' := Touch(o, b, now);
            o'.Some? && o'.value.tsRemoved > 0 ==>
              o'.value.tsRemoved == now || (o.Some? && o'.value.tsRemoved == o.value.tsRemoved)
  {
  }

  lemma KeptAfter(c: Config, s: State, e: Event, tC: nat)
    requires Kept(s, tC) && !e.Sweep? && (e.Recv? ==> tC <= e.now)
    ensures Kept(Step(c, s, e), tC)
  {
    hide DecodeBody, OnReceive, OnSend, Touch, Report, Due;
    if IsAbout(c, e) {
      ReceiveAbout(c, s, e);
      var b := DecodeBody(c.handler, e.bytes);
      TouchMarksNow(b, Lookup(s.sources, b.ref), e.now);
    } else if e.Recv? {
      ReceiveOther(c, s, e);
    } else if e.Send? {
      SendKeepsSources(c, s, e);
    }
  }

  lemma KeptSweep(c: Config, s: State, now: nat, tC: nat)
    requires tC <= now
    ensures Kept(Step(c, s, Sweep(now)), tC)
  {
  }

  lemma KeptChecks(c: Config, l: Loop, tick: Tick)
    requires Kept(l.s, l.tC) && tick.now <= tick.sweepNow
    ensures Kept(Checked(c, l, tick), NextCleanup(l.tC, tick))
  {
    hide Step, Kept;
    var sweep, scan := [Sweep(tick.sweepNow)], [Scan(tick.now)];
    if SweepDue(l.tC, tick) {
      KeptSweep(c, l.s, tick.sweepNow, tick.now);
      KeptAfter(c, Step(c, l.s, Sweep(tick.sweepNow)), Scan(tick.now), tick.now);
      assert Exec(c, l.s, sweep) == Step(c, l.s, sweep[0]);
    } else {
      KeptAfter(c, l.s, Scan(tick.now), l.tC);
    }
    ChecksAre(c, l, tick);
  }

  lemma ChecksAre(c: Config, l: Loop, tick: Tick)
    ensures var s1 := if SweepDue(l.tC, tick) then Step(c, l.s, Sweep(tick.sweepNow)) else l.s;
            Checked(c, l, tick) == if ScanDue(c, l.tU, tick) then Step(c, s1, Scan(tick.now)) else s1
  {
    hide Step;
    var checks := Checks(c, l.tC, l.tU, tick);
    if checks != [] {
      assert Exec(c, l.s, checks) == Exec(c, Step(c, l.s, checks[0]), checks[1..]);
      if |checks| == 2 {
        assert checks[1..] == [Scan(tick.now)];
      }
    }
  }

  /** The rest of an iteration. */
  lemma TickAfterChecks(c: Config, l: Loop, tick: Tick)
    ensures AfterTick(c, l, tick).s ==
            Exec(c, Step(c, Checked(c, l, tick), Event.Send(tick.sendNow)), Inbox(tick.inbox))
  {
    hide Step, Inbox, Checks;
    var checks := Checks(c, l.tC, l.tU, tick);
    var sends := [Event.Send(tick.sendNow)] + Inbox(tick.inbox);
    assert TickEvents(c, l.tC, l.tU, tick) == checks + sends;
    ExecAppend(c, l.s, checks, sends);
    assert sends[1..] == Inbox(tick.inbox);
  }

  lemma {:induction false} KeptInbox(c: Config, s: State, msgs: seq<(Bytes, nat)>, t: nat, tC: nat)
    requires Kept(s, tC) && InboxClock(msgs, t) && tC <= t
    ensures Kept(Exec(c, s, Inbox(msgs)), tC)
    decreases |msgs|
  {
    hide Kept, Step;
    if msgs != [] {
      KeptAfter(c, s, Recv(msgs[0].0, msgs[0].1), tC);
      assert Inbox(msgs)[1..] == Inbox(msgs[1..]);
      KeptInbox(c, Step(c, s, Recv(msgs[0].0, msgs[0].1)), msgs[1..], msgs[0].1, tC);
    }
  }

  lemma {:induction false} KeptRun(c: Config, l: Loop, ticks: seq<Tick>, t: nat)
    requires Kept(l.s, l.tC) && ClockRuns(ticks, t) && l.tC <= t
    ensures Kept(AfterTicks(c, l, ticks).s, AfterTicks(c, l, ticks).tC)
    decreases |ticks|
  {
    hide Kept, Step, TickEvents, Inbox, InboxClock, LastClock;
    if ticks != [] {
      var tick := ticks[0];
      KeptChecks(c, l, tick);
      KeptAfter(c, Checked(c, l, tick), Event.Send(tick.sendNow), NextCleanup(l.tC, tick));
      TickAfterChecks(c, l, tick);
      KeptInbox(c, Step(c, Checked(c, l, tick), Event.Send(tick.sendNow)), tick.inbox, tick.sendNow,
                NextCleanup(l.tC, tick));
      InboxForward(tick.inbox, tick.sendNow);
      KeptRun(c, AfterTick(c, l, tick), ticks[1..], LastClock(tick.inbox, tick.sendNow));
    }
  }

  lemma {:induction false} ClockPrefix(ticks: seq<Tick>, n: nat, t: nat)
    requires n < |ticks| && ClockRuns(ticks, t)
    ensures ClockRuns(ticks[..n], t)
    ensures 0 < ticks[n].now <= ticks[n].sweepNow
    decreases n
  {
    if n > 0 {
      assert ticks[1..][..n - 1] == ticks[..n][1..];
      ClockPrefix(ticks[1..], n - 1, LastClock(ticks[0].inbox, ticks[0].sendNow));
    }
  }

  /** Nothing but a cleanup takes a source out of the table, and only one marked longer ago than the grace period. */
  lemma OnlyCleanupErases(c: Config, s: State, e: Event, k: nat)
    requires k in s.sources && k !in Step(c, s, e).sources
    ensures e.Sweep? && s.sources[k].tsRemoved > 0 && e.now - s.sources[k].tsRemoved > 30
  {
    hide OnReceive, OnScan, OnSend;
    if !e.Sweep? {
      SourcesAfter(c, s, e);
    }
  }

  /** After the timer checks of every iteration of every run, no removed source in the table was marked more than
      90 seconds ago. */
  lemma RemovedSourcesAreDropped(c: Config, t0: nat, t1: nat, ticks: seq<Tick>, n: nat, k: nat)
    requires ClockRuns(ticks, t1) && t0 <= t1 && n < |ticks|
    ensures var s := Checked(c, AfterTicks(c, Loop(Started(c), t0, t1), ticks[..n]), ticks[n]);
            k in s.sources && s.sources[k].tsRemoved > 0 ==>
              ticks[n].now - s.sources[k].tsRemoved <= 90
  {
    hide AfterTicks, Checked, WF, OnlySubscriptions;
    var l := Loop(Started(c), t0, t1);
    StartedWF(c);
    ClockPrefix(ticks, n, t1);
    KeptRun(c, l, ticks[..n], t1);
    KeptChecks(c, AfterTicks(c, l, ticks[..n]), ticks[n]);
  }

  // ---- freshness --------------------------------------------------------------

  /** When the source was last described. */
  function LastDescribed(c: Config, log: seq<Entry>, k: nat): nat {
    if log == [] then 0
    else
      var en := log[|log| - 1];
      if LogsDesc(c, en, k) then en.at else LastDescribed(c, log[..|log| - 1], k)
  }

  /** A request for the source's counts has been written since the last scan. */
  ghost predicate QueriedSinceScan(c: Config, log: seq<Entry>, k: nat) {
    exists i :: 0 <= i < |log| && AsksCounts(c.handler.version, log[i], k) &&
      forall j :: i < j < |log| ==> !log[j].Scanned?
  }

  /** A connection: a live source with a remote port. */
  predicate Connected(s: State, k: nat) {
    IsLive(s, k) && s.sources[k].obj.key.rport != 0
  }

  ghost predicate CountsComing(c: Config, s: State, k: nat) {
    k in s.sources && s.sources[k].requested &&
    ((k in s.waitCount && s.waitCount[k]) || QueriedSinceScan(c, s.log, k))
  }

  /** A connection that was described and silent long enough at the last scan has its counts coming. */
  ghost predicate Attended(c: Config, s: State, k: nat, tU: nat) {
    Connected(s, k) && LastDescribed(c, s.log, k) < tU && LastHeard(s.sources[k]) + MIN_QUERY_AGE <= tU ==>
      CountsComing(c, s, k)
  }

  lemma AttendedScan(c: Config, s: State, now: nat, k: nat)
    ensures Attended(c, Step(c, s, Scan(now)), k, now)
  {
    hide LastDescribed;
  }

  /** Short of a scan, counts that are coming stay so until they arrive. */
  lemma ComingAfter(c: Config, s: State, e: Event, k: nat)
    requires WF(c.handler.version, s) && OnlySubscriptions(s) && e.now > 0 && !e.Scan?
    requires CountsComing(c, s, k) && Connected(s, k) && Connected(Step(c, s, e), k)
    requires Step(c, s, e).sources[k].requested
    ensures CountsComing(c, Step(c, s, e), k)
  {
    hide Step, WF, OnlySubscriptions, OutcomeOf, AsksDesc, AsksCounts, LogsAdd, LogsRemove, LogsDesc;
    hide Adds, Removes, Describes, DueSet;
    var s' := Step(c, s, e);
    EventLogged(c, s, e, k);
    WantingAfter(c, s, e, k);
    if QueriedSinceScan(c, s.log, k) {
      var i :| 0 <= i < |s.log| && AsksCounts(c.handler.version, s.log[i], k) &&
               forall j :: i < j < |s.log| ==> !s.log[j].Scanned?;
      assert s'.log[i] == s.log[i];
    } else if e.Send? && OutcomeOf(s) == Counts(k) {
      var en :| Logs(c, s, e, k, en);
      assert s'.log[|s.log|] == en;
    }
  }

  /** A wanted entry of the waiting table stays until the request is written. */
  lemma WantingAfter(c: Config, s: State, e: Event, k: nat)
    requires WF(c.handler.version, s) && OnlySubscriptions(s) && !e.Scan? && e.now > 0
    requires k in s.waitCount && s.waitCount[k] ==> k in s.sources && s.sources[k].requested
    requires IsLive(Step(c, s, e), k)
    ensures var s' := Step(c, s, e);
            k in s.waitCount && s.waitCount[k] ==>
              (k in s'.waitCount && s'.waitCount[k]) || (e.Send? && OutcomeOf(s) == Counts(k))
  {
    hide DecodeBody, OnSend, Report, ReadDesc, ReadCounts, Enqueue, WF, TypeOf, Expired, OnlySubscriptions, IsMin, Encode;
    if IsAbout(c, e) {
      ReceiveAbout(c, s, e);
    } else if e.Send? {
      SendOutcome(c, s, e);
    } else if e.Recv? {
      ControlKeepsWaiting(c, s, e);
    }
  }

  lemma DescribedLog(c: Config, s: State, e: Event, k: nat)
    requires WF(c.handler.version, s) && OnlySubscriptions(s)
    ensures LastDescribed(c, Step(c, s, e).log, k) ==
            if Describes(c, e, k) then e.now else LastDescribed(c, s.log, k)
  {
    hide Step, WF, OnlySubscriptions, OutcomeOf, AsksDesc, AsksCounts, LogsAdd, LogsRemove, LogsDesc;
    hide Adds, Removes, DueSet;
    EventLogged(c, s, e, k);
    if Silent(c, s, e) {
    } else {
      var en :| Logs(c, s, e, k, en);
      assert Step(c, s, e).log[..|Step(c, s, e).log| - 1] == s.log;
      if Describes(c, e, k) {
        ReceiveLog(c, s, e);
        NotEmpty(c, e, k);
      }
    }
  }

  lemma NotEmpty(c: Config, e: Event, k: nat)
    requires Describes(c, e, k)
    ensures e.Recv? && e.bytes != []
  {
  }

  lemma AttendedAfter(c: Config, s: State, e: Event, k: nat, tU: nat)
    requires WF(c.handler.version, s) && OnlySubscriptions(s) && Attended(c, s, k, tU)
    requires !e.Scan? && e.now > 0 && (e.Recv? ==> tU <= e.now)
    ensures Attended(c, Step(c, s, e), k, tU)
  {
    hide Step, WF, OnlySubscriptions, LastDescribed, QueriedSinceScan, Describes, LastHeard, CountsComing;
    var s' := Step(c, s, e);
    if Connected(s', k) && LastDescribed(c, s'.log, k) < tU && LastHeard(s'.sources[k]) + MIN_QUERY_AGE <= tU {
      DescribedLog(c, s, e, k);
      if Describes(c, e, k) {
        NotEmpty(c, e, k);
        assert false;
      }
      SilentUnlessHeard(c, s, e, k, tU);
      RequestedIfComing(c, s, k);
      ComingAfter(c, s, e, k);
    }
  }

  lemma RequestedIfComing(c: Config, s: State, k: nat)
    requires CountsComing(c, s, k)
    ensures k in s.sources && s.sources[k].requested
  {
  }

  lemma SilentUnlessHeard(c: Config, s: State, e: Event, k: nat, tU: nat)
    requires WF(c.handler.version, s) && Connected(Step(c, s, e), k) && !e.Scan? && e.now > 0
    requires e.Recv? ==> tU <= e.now
    requires LastHeard(Step(c, s, e).sources[k]) + MIN_QUERY_AGE <= tU && !Describes(c, e, k)
    ensures Connected(s, k) && LastHeard(Step(c, s, e).sources[k]) == LastHeard(s.sources[k])
    ensures Step(c, s, e).sources[k].requested == s.sources[k].requested
  {
    hide DecodeBody, OnReceive, OnSend, Report, ReadDesc, ReadCounts, WF, Expired;
    SourceAfter(c, s, e, k);
    var s' := Step(c, s, e);
    assert Lookup(s.sources, k) == if k in s.sources then Some(s.sources[k]) else None;
    assert Lookup(s'.sources, k) == if k in s'.sources then Some(s'.sources[k]) else None;
  }

  /** The invariant of the loop that freshness rests on. */
  ghost predicate Attentive(c: Config, s: State, k: nat, tU: nat) {
    WF(c.handler.version, s) && OnlySubscriptions(s) && Attended(c, s, k, tU)
  }

  lemma AttentiveAfter(c: Config, s: State, e: Event, k: nat, tU: nat)
    requires Attentive(c, s, k, tU) && e.now > 0 && (e.Recv? ==> tU <= e.now)
    ensures Attentive(c, Step(c, s, e), k, if e.Scan? then e.now else tU)
  {
    hide WF, OnlySubscriptions, Attended, Step;
    StepKeepsWF(c, s, e);
    WaitingAfter(c, s, e, k);
    if e.Scan? {
      AttendedScan(c, s, e.now, k);
    } else {
      AttendedAfter(c, s, e, k, tU);
    }
  }

  lemma AttentiveChecks(c: Config, l: Loop, tick: Tick, k: nat)
    requires Attentive(c, l.s, k, l.tU) && 0 < tick.now <= tick.sweepNow
    ensures Attentive(c, Checked(c, l, tick), k, NextUpdate(c, l.tU, tick))
  {
    hide Step, Attentive, Checked;
    ChecksAre(c, l, tick);
    var s1 := if SweepDue(l.tC, tick) then Step(c, l.s, Sweep(tick.sweepNow)) else l.s;
    AttentiveAfter(c, l.s, Sweep(tick.sweepNow), k, l.tU);
    AttentiveAfter(c, s1, Scan(tick.now), k, l.tU);
  }

  lemma {:induction false} AttentiveInbox(c: Config, s: State, msgs: seq<(Bytes, nat)>, t: nat, k: nat, tU: nat)
    requires Attentive(c, s, k, tU) && InboxClock(msgs, t) && 0 < t && tU <= t
    ensures Attentive(c, Exec(c, s, Inbox(msgs)), k, tU)
    decreases |msgs|
  {
    hide Attentive, Step;
    if msgs != [] {
      AttentiveAfter(c, s, Recv(msgs[0].0, msgs[0].1), k, tU);
      assert Inbox(msgs)[1..] == Inbox(msgs[1..]);
      AttentiveInbox(c, Step(c, s, Recv(msgs[0].0, msgs[0].1)), msgs[1..], msgs[0].1, k, tU);
    }
  }

  lemma {:induction false} AttentiveRun(c: Config, l: Loop, ticks: seq<Tick>, t: nat, k: nat)
    requires Attentive(c, l.s, k, l.tU) && ClockRuns(ticks, t) && l.tU <= t
    ensures var l' := AfterTicks(c, l, ticks); Attentive(c, l'.s, k, l'.tU)
    decreases |ticks|
  {
    hide Attentive, Step, TickEvents, Inbox, InboxClock, LastClock, Checked;
    if ticks != [] {
      var tick, tU := ticks[0], NextUpdate(c, l.tU, ticks[0]);
      AttentiveChecks(c, l, tick, k);
      var s := Checked(c, l, tick);
      AttentiveAfter(c, s, Event.Send(tick.sendNow), k, tU);
      TickAfterChecks(c, l, tick);
      AttentiveInbox(c, Step(c, s, Event.Send(tick.sendNow)), tick.inbox, tick.sendNow, k, tU);
      InboxForward(tick.inbox, tick.sendNow);
      AttentiveRun(c, AfterTick(c, l, tick), ticks[1..], LastClock(tick.inbox, tick.sendNow), k);
    }
  }

  /** After the timer checks of every iteration of every run: a connection last described at least an interval ago
      and last heard from at least 15 seconds more than that ago has its counts coming: they are wanted, and the
      request for them waits in the table or has been written since the last scan. */
  lemma CountsStayFresh(c: Config, t0: nat, t1: nat, ticks: seq<Tick>, n: nat, k: nat)
    requires ClockRuns(ticks, t1) && t0 <= t1 && n < |ticks| && c.interval > 0
    ensures var s := Checked(c, AfterTicks(c, Loop(Started(c), t0, t1), ticks[..n]), ticks[n]);
            Connected(s, k) && ticks[n].now - LastDescribed(c, s.log, k) >= c.interval &&
            ticks[n].now - LastHeard(s.sources[k]) >= 15 + c.interval ==>
              CountsComing(c, s, k)
  {
    hide AfterTicks, Checked, WF, OnlySubscriptions, LastDescribed, CountsComing;
    var l := Loop(Started(c), t0, t1);
    StartedWF(c);
    assert Attentive(c, l.s, k, l.tU);
    ClockPrefix(ticks, n, t1);
    AttentiveRun(c, l, ticks[..n], t1, k);
    AttentiveChecks(c, AfterTicks(c, l, ticks[..n]), ticks[n], k);
  }

  // ---- how often cleanup runs --------------------------------------------------

  /** When the loop has last cleaned up before iteration `n`. */
  function LastCleanup(tC: nat, ticks: seq<Tick>, n: nat): nat
    requires n <= |ticks|
  {
    if n == 0 then tC else NextCleanup(LastCleanup(tC, ticks, n - 1), ticks[n - 1])
  }

  /** Iteration `n` cleans up. */
  predicate Cleans(tC: nat, ticks: seq<Tick>, n: nat)
    requires n < |ticks|
  {
    SweepDue(LastCleanup(tC, ticks, n), ticks[n])
  }

  lemma {:induction false} LastCleanupShift(tC: nat, ticks: seq<Tick>, n: nat)
    requires 0 < n <= |ticks|
    ensures LastCleanup(tC, ticks, n) == LastCleanup(NextCleanup(tC, ticks[0]), ticks[1..], n - 1)
  {
    if n > 1 {
      LastCleanupShift(tC, ticks, n - 1);
      assert ticks[1..][n - 2] == ticks[n - 1];
    }
  }

  lemma {:induction false} CleanupOfLoop(c: Config, l: Loop, ticks: seq<Tick>, n: nat)
    requires n <= |ticks|
    ensures AfterTicks(c, l, ticks[..n]).tC == LastCleanup(l.tC, ticks, n)
    decreases n
  {
    hide Exec, TickEvents, NextCleanup, NextUpdate;
    if n > 0 {
      assert ticks[..n][1..] == ticks[1..][..n - 1] && ticks[..n][0] == ticks[0];
      CleanupOfLoop(c, AfterTick(c, l, ticks[0]), ticks[1..], n - 1);
      LastCleanupShift(l.tC, ticks, n);
    }
  }

  lemma {:induction false} ClockForward(ticks: seq<Tick>, i: nat, j: nat, t: nat)
    requires ClockRuns(ticks, t) && i <= j < |ticks|
    ensures t <= ticks[i].now <= ticks[j].now
    decreases j
  {
    if j > 0 {
      InboxForward(ticks[0].inbox, ticks[0].sendNow);
      ClockForward(ticks[1..], if i > 0 then i - 1 else 0, j - 1, LastClock(ticks[0].inbox, ticks[0].sendNow));
    }
  }

  lemma {:induction false} LastCleanupIsLast(tC: nat, ticks: seq<Tick>, n: nat, t: nat)
    requires ClockRuns(ticks, t) && tC <= t && n <= |ticks|
    ensures var last := LastCleanup(tC, ticks, n);
            && tC <= last && (forall i :: 0 <= i < n && Cleans(tC, ticks, i) ==> ticks[i].now <= last)
            && (last == tC || exists i :: 0 <= i < n && Cleans(tC, ticks, i) && ticks[i].now == last)
  {
    hide ClockRuns, SweepDue;
    if n > 0 {
      LastCleanupIsLast(tC, ticks, n - 1, t);
      ClockForward(ticks, n - 1, n - 1, t);
      if Cleans(tC, ticks, n - 1) {
        forall i | 0 <= i < n
          ensures ticks[i].now <= ticks[n - 1].now
        {
          ClockForward(ticks, i, n - 1, t);
        }
      }
    }
  }

  /** An iteration of the loop cleans up exactly when more than 60 seconds have gone by since the loop began and since
      every iteration that has cleaned up before it. */
  lemma CleanupsAreSpaced(c: Config, l: Loop, ticks: seq<Tick>, n: nat, t: nat)
    requires ClockRuns(ticks, t) && l.tC <= t && n < |ticks|
    ensures Cleans(l.tC, ticks, n) <==> SweepDue(AfterTicks(c, l, ticks[..n]).tC, ticks[n])
    ensures Cleans(l.tC, ticks, n) <==>
            ticks[n].now - l.tC > 60 &&
            forall i :: 0 <= i < n && Cleans(l.tC, ticks, i) ==> ticks[n].now - ticks[i].now > 60
  {
    hide AfterTicks, ClockRuns, LastCleanup;
    CleanupOfLoop(c, l, ticks, n);
    LastCleanupIsLast(l.tC, ticks, n, t);
  }
}
