/** Runs of the client, down to the bytes it reads, in which what one might expect of it does not hold. */
module Witnesses {
  import opened ByteStrings
  import opened Streams
  import opened Codec
  import opened Model
  import opened Cleanup
  import opened Isolation
  import opened ListenerProtocol
  import opened Rate
  import opened Frames
  import opened RunLoop
  import opened Timers
  import opened ReplaySimulation
  import opened Reports

  /** The payload makes a description by the TCP provider name a remote port. */
  predicate NamesPort(c: Config, k: nat, payload: Bytes) {
    c.handler.descriptor(NoticeBytes(c.handler.version, Details(k, TCP_PROVIDER), payload)).rport != 0
  }

  lemma KindsOfReport(r: seq<Call>, k: nat)
    requires |r| <= 1 && forall call :: call in r ==> call.stream.id == k
    ensures Kinds(r, k) == if r == [] then [] else [r[0].kind]
  {
    assert r != [] ==> r[..0] == [] && r[0] in r;
  }

  /** What one notice does to its source and to the callbacks. */
  lemma Heard(c: Config, s: State, n: Notice, payload: Bytes, now: nat) returns (b: Body)
    requires WF(c.handler.version, s) && Sendable(c.handler.version, n) && now > 0
    ensures b == DecodeBody(c.handler, NoticeBytes(c.handler.version, n, payload)) && AboutSource(b) && b.ref == n.ref
    ensures n.Arrival? ==> b == SrcAdded(n.ref, n.provider)
    ensures n.Departure? ==> b == SrcRemoved(n.ref)
    ensures n == Details(n.ref, TCP_PROVIDER) ==>
              b.SrcDesc? && b.desc.Tcp? && (NamesPort(c, n.ref, payload) ==> b.desc.d.rport != 0)
    ensures var s', r := Step(c, s, Receives(c, n, payload, now)), Report(Lookup(s.sources, n.ref), b, now, |s.log|);
            && WF(c.handler.version, s')
            && Lookup(s'.sources, n.ref) == Touch(Lookup(s.sources, n.ref), b, now)
            && s'.calls == s.calls + r
            && Kinds(s'.calls, n.ref) == Kinds(s.calls, n.ref) + if r == [] then [] else [r[0].kind]
  {
    hide DecodeBody, WF, Step, NoticeBytes, Report, Touch, Lookup, Kinds;
    b := DecodeBody(c.handler, NoticeBytes(c.handler.version, n, payload));
    NoticeDecodes(c.handler, n, payload);
    var e := Receives(c, n, payload, now);
    StepKeepsWF(c, s, e);
    SourceAfter(c, s, e, n.ref);
    KindsAfter(c, s, e, n.ref);
    ReportIsAbout(c, s, e);
    KindsOfReport(ReportOf(c, s, e), n.ref);
    CallsOf(c, s, e);
  }

  /** The state holds such a source, and such callbacks about it have been made. */
  ghost predicate Holds(c: Config, s: State, k: nat, removed: bool, ports: bool, kinds: seq<CallKind>) {
    && WF(c.handler.version, s) && k in s.sources && Kinds(s.calls, k) == kinds
    && (s.sources[k].tsRemoved > 0 <==> removed)
    && (HasPorts(s.sources[k].obj) <==> ports) && (s.sources[k].notified <==> ports)
  }

  lemma Arrives(c: Config, s: State, k: nat, now: nat) returns (s': State)
    requires WF(c.handler.version, s) && FitsRef(c.handler.version, k) && now > 0
    requires k in s.sources ==> s.sources[k].tsRemoved > 0
    ensures s' == Step(c, s, Receives(c, Arrival(k, TCP_PROVIDER), [], now)) && s'.calls == s.calls
    ensures Holds(c, s', k, false, false, Kinds(s.calls, k))
  {
    hide DecodeBody, WF, Step, NoticeBytes, Kinds, FitsRef, Receives;
    Pow256Values();
    s' := Step(c, s, Receives(c, Arrival(k, TCP_PROVIDER), [], now));
    var b := Heard(c, s, Arrival(k, TCP_PROVIDER), [], now);
    assert s.calls + [] == s.calls && Kinds(s.calls, k) + [] == Kinds(s.calls, k);
  }

  lemma Departs(c: Config, s: State, k: nat, removed: bool, ports: bool, kinds: seq<CallKind>, now: nat)
    returns (s': State)
    requires Holds(c, s, k, removed, ports, kinds) && FitsRef(c.handler.version, k) && now > 0
    ensures s' == Step(c, s, Receives(c, Departure(k), [], now)) && (!ports ==> s'.calls == s.calls)
    ensures k in s'.sources && s'.sources[k].tsRemoved == now
    ensures Holds(c, s', k, true, ports, kinds + if ports then [OnRemoved] else [])
  {
    hide DecodeBody, WF, Step, NoticeBytes, Kinds, FitsRef, Receives, HasPorts;
    s' := Step(c, s, Receives(c, Departure(k), [], now));
    var b := Heard(c, s, Departure(k), [], now);
    assert s.calls + [] == s.calls;
  }

  lemma IsDescribed(c: Config, s: State, k: nat, removed: bool, kinds: seq<CallKind>, payload: Bytes, now: nat)
    returns (s': State)
    requires Holds(c, s, k, removed, false, kinds) && NamesPort(c, k, payload)
    requires FitsRef(c.handler.version, k) && now > 0
    ensures s' == Step(c, s, Receives(c, Details(k, TCP_PROVIDER), payload, now))
    ensures s.calls < s'.calls && |s'.calls| == |s.calls| + 1 && s'.calls[|s.calls|].kind == OnAdded
    ensures Holds(c, s', k, removed, true, kinds + [OnAdded])
  {
    hide DecodeBody, WF, Step, NoticeBytes, Kinds, FitsRef, Receives, NamesPort;
    Pow256Values();
    s' := Step(c, s, Receives(c, Details(k, TCP_PROVIDER), payload, now));
    var b := Heard(c, s, Details(k, TCP_PROVIDER), payload, now);
    NamingKeepsPorts(s.sources[k].obj, b.desc);
  }

  lemma StartedEmpty(c: Config, k: nat)
    ensures WF(c.handler.version, Started(c)) && Started(c).sources == map[] && Started(c).calls == []
    ensures Kinds(Started(c).calls, k) == []
  {
    hide Encode;
    StartedKeepsWF(c);
  }

  // ---- order of callbacks --------------------------------------------------

  /** A source removed twice is reported as removed twice. */
  lemma RemovedTwice(c: Config, k: nat, payload: Bytes, now: nat)
    requires FitsRef(c.handler.version, k) && NamesPort(c, k, payload) && now > 0
    ensures var evs := [Receives(c, Arrival(k, TCP_PROVIDER), [], now),
                        Receives(c, Details(k, TCP_PROVIDER), payload, now),
                        Receives(c, Departure(k), [], now), Receives(c, Departure(k), [], now)];
            var kinds := Kinds(Exec(c, Started(c), evs).calls, k);
            kinds == [OnAdded, OnRemoved, OnRemoved] && !Alternating(kinds)
  {
    hide WF, Step, Kinds, Receives, NamesPort, Started, Exec, Alternating;
    var s0 := Started(c);
    StartedEmpty(c, k);
    var s1 := Arrives(c, s0, k, now);
    var s2 := IsDescribed(c, s1, k, false, [], payload, now);
    assert [] + [OnAdded] == [OnAdded];
    var s3 := Departs(c, s2, k, false, true, [OnAdded], now);
    assert [OnAdded] + [OnRemoved] == [OnAdded, OnRemoved];
    var s4 := Departs(c, s3, k, true, true, [OnAdded, OnRemoved], now);
    assert [OnAdded, OnRemoved] + [OnRemoved] == [OnAdded, OnRemoved, OnRemoved];
    ExecFour(c, s0, Receives(c, Arrival(k, TCP_PROVIDER), [], now),
             Receives(c, Details(k, TCP_PROVIDER), payload, now),
             Receives(c, Departure(k), [], now), Receives(c, Departure(k), [], now));
    NotAlternating([OnAdded, OnRemoved, OnRemoved], 2);
  }

  lemma NotAlternating(kinds: seq<CallKind>, i: nat)
    requires 0 < i < |kinds| && kinds[i] == kinds[i - 1] && kinds[i] != OnStatsUpdate
    ensures !Alternating(kinds)
  {
  }

  lemma ExecCons(c: Config, s: State, e: Event, evs: seq<Event>)
    ensures Exec(c, s, [e] + evs) == Exec(c, Step(c, s, e), evs)
  {
    assert ([e] + evs)[1..] == evs;
  }

  lemma ExecFour(c: Config, s: State, e1: Event, e2: Event, e3: Event, e4: Event)
    ensures Exec(c, s, [e1, e2, e3, e4]) == Step(c, Step(c, Step(c, Step(c, s, e1), e2), e3), e4)
  {
    hide Step;
    assert [e1, e2, e3, e4] == [e1] + [e2, e3, e4];
    ExecCons(c, s, e1, [e2, e3, e4]);
    assert [e2, e3, e4] == [e2] + [e3, e4];
    ExecCons(c, Step(c, s, e1), e2, [e3, e4]);
    assert [e3, e4] == [e3] + [e4];
    ExecCons(c, Step(c, Step(c, s, e1), e2), e3, [e4]);
    ExecOne(c, Step(c, Step(c, Step(c, s, e1), e2), e3), [], e4);
    assert [] + [e4] == [e4];
  }

  /** A source described only after its removal is announced, and announced again in its next life, with no
      departure reported in between. */
  lemma AnnouncedTwice(c: Config, k: nat, payload: Bytes, now: nat)
    requires FitsRef(c.handler.version, k) && NamesPort(c, k, payload) && now > 0
    ensures var evs := [Receives(c, Arrival(k, TCP_PROVIDER), [], now), Receives(c, Departure(k), [], now),
                        Receives(c, Details(k, TCP_PROVIDER), payload, now),
                        Receives(c, Arrival(k, TCP_PROVIDER), [], now),
                        Receives(c, Details(k, TCP_PROVIDER), payload, now)];
            var kinds := Kinds(Exec(c, Started(c), evs).calls, k);
            kinds == [OnAdded, OnAdded] && !Alternating(kinds)
  {
    hide WF, Step, Kinds, Receives, NamesPort, Started, Exec, Alternating;
    var s0 := Started(c);
    StartedEmpty(c, k);
    var s1 := Arrives(c, s0, k, now);
    var s2 := Departs(c, s1, k, false, false, [], now);
    var s3 := IsDescribed(c, s2, k, true, [], payload, now);
    assert [] + [OnAdded] == [OnAdded];
    var s4 := Arrives(c, s3, k, now);
    var s5 := IsDescribed(c, s4, k, false, [OnAdded], payload, now);
    assert [OnAdded] + [OnAdded] == [OnAdded, OnAdded];
    var arrival := Receives(c, Arrival(k, TCP_PROVIDER), [], now);
    var details := Receives(c, Details(k, TCP_PROVIDER), payload, now);
    var departure := Receives(c, Departure(k), [], now);
    assert [arrival, departure, details, arrival, details] == [arrival] + [departure, details, arrival, details];
    ExecCons(c, s0, arrival, [departure, details, arrival, details]);
    ExecFour(c, s1, departure, details, arrival, details);
    NotAlternating([OnAdded, OnAdded], 1);
  }

  // ---- replay and cleanup ----------------------------------------------------

  /** Two iterations of the loop: a source arrives and departs; more than a minute later comes its description. */
  function LateTicks(c: Config, k: nat, payload: Bytes, t: nat, late: nat): seq<Tick> {
    var v := c.handler.version;
    [Tick(t, t, t, [(NoticeBytes(v, Arrival(k, TCP_PROVIDER), []), t), (NoticeBytes(v, Departure(k), []), t)]),
     Tick(late, late, late, [(NoticeBytes(v, Details(k, TCP_PROVIDER), payload), late)])]
  }

  function Opening(c: Config, k: nat, t: nat): seq<Event> {
    [Send(t), Receives(c, Arrival(k, TCP_PROVIDER), [], t), Receives(c, Departure(k), [], t)]
  }

  function Between(c: Config, t: nat, late: nat): seq<Event> {
    (if late - t >= c.interval > 0 then [Scan(late)] else []) + [Send(late)]
  }

  lemma LateSchedule(c: Config, k: nat, payload: Bytes, t: nat, late: nat)
    requires t > 0 && late > t + CLEANUP_SECONDS
    ensures var details := Receives(c, Details(k, TCP_PROVIDER), payload, late);
            Schedule(c, t, t, LateTicks(c, k, payload, t, late)) ==
            Opening(c, k, t) + ([Sweep(late)] + (Between(c, t, late) + [details]))
  {
    hide NoticeBytes;
    var ticks := LateTicks(c, k, payload, t, late);
    var details := Receives(c, Details(k, TCP_PROVIDER), payload, late);
    assert ticks[1..] == [ticks[1]] && ticks[1..][1..] == [];
    assert Inbox(ticks[1].inbox) == [details];
    assert TickEvents(c, t, t, ticks[0]) == Opening(c, k, t) by {
      assert Checks(c, t, t, ticks[0]) == [];
    }
    assert TickEvents(c, t, t, ticks[1]) == [Sweep(late)] + (Between(c, t, late) + [details]);
    assert Schedule(c, t, t, [ticks[1]]) == TickEvents(c, t, t, ticks[1]);
  }

  lemma LateClock(c: Config, k: nat, payload: Bytes, t0: nat, t: nat, late: nat)
    requires t0 <= t <= late && t > 0
    ensures ClockRuns(LateTicks(c, k, payload, t, late), t0)
  {
    hide NoticeBytes;
    var ticks := LateTicks(c, k, payload, t, late);
    assert ticks[1..] == [ticks[1]] && ticks[1..][1..] == [];
    var msgs: seq<(Bytes, nat)> := ticks[0].inbox;
    assert msgs[1..] == [msgs[1]] && msgs[1..][1..] == [];
    assert InboxClock([msgs[1]], t);
    assert ticks[1].inbox[1..] == [];
    assert InboxClock([], late);
    assert InboxClock(ticks[1].inbox, late);
    assert TickClock(ticks[1], t);
    assert ClockRuns([ticks[1]], t) by {
      assert [ticks[1]][1..] == [];
    }
  }

  /** Scans and sends report nothing, and leave removed sources alone. */
  lemma {:induction false} Quiet(c: Config, s: State, evs: seq<Event>, k: nat)
    requires WF(c.handler.version, s) && forall i :: 0 <= i < |evs| ==> (evs[i].Scan? || evs[i].Send?) && evs[i].now > 0
    ensures var s' := Exec(c, s, evs);
            && WF(c.handler.version, s') && s'.calls == s.calls && (k in s'.sources <==> k in s.sources)
            && (k in s.sources && s.sources[k].tsRemoved > 0 ==> s'.sources[k] == s.sources[k])
    decreases |evs|
  {
    hide WF, Step;
    if evs != [] {
      var e := evs[0];
      StepKeepsWF(c, s, e);
      OtherCalls(c, s, e);
      if e.Send? {
        SendKeepsSources(c, s, e);
      } else {
        ScanKeepsRemoved(c, s, e);
      }
      Quiet(c, Step(c, s, e), evs[1..], k);
    }
  }

  lemma ScanKeepsRemoved(c: Config, s: State, e: Event)
    requires e.Scan?
    ensures Step(c, s, e).sources.Keys == s.sources.Keys
    ensures forall k :: k in s.sources && s.sources[k].tsRemoved > 0 ==> Step(c, s, e).sources[k] == s.sources[k]
  {
    hide HasPorts;
  }

  lemma ArrivedAndDeparted(c: Config, k: nat, t: nat) returns (s: State)
    requires FitsRef(c.handler.version, k) && t > 0
    ensures s == Exec(c, Started(c), Opening(c, k, t)) && s.calls == []
    ensures Holds(c, s, k, true, false, []) && s.sources[k].tsRemoved == t
  {
    hide WF, Step, Kinds, Receives, Started, Exec;
    StartedEmpty(c, k);
    Quiet(c, Started(c), [Send(t)], k);
    var s0 := Exec(c, Started(c), [Send(t)]);
    var s1 := Arrives(c, s0, k, t);
    s := Departs(c, s1, k, false, false, [], t);
    var arrival, departure := Receives(c, Arrival(k, TCP_PROVIDER), [], t), Receives(c, Departure(k), [], t);
    assert Opening(c, k, t) == [Send(t)] + [arrival] + [departure];
    ExecOne(c, Started(c), [Send(t)], arrival);
    ExecOne(c, Started(c), [Send(t)] + [arrival], departure);
  }

  /** What becomes of the late description: with the cleanup it is about nothing, without it is an arrival. */
  lemma LateDescription(c: Config, s: State, k: nat, payload: Bytes, t: nat, late: nat)
    requires Holds(c, s, k, true, false, []) && s.calls == [] && s.sources[k].tsRemoved == t
    requires FitsRef(c.handler.version, k) && NamesPort(c, k, payload) && t > 0 && late > t + CLEANUP_SECONDS
    ensures var details := Receives(c, Details(k, TCP_PROVIDER), payload, late);
            var evs := Between(c, t, late) + [details];
            && Exec(c, s, [Sweep(late)] + evs).calls == []
            && |Exec(c, s, evs).calls| == 1 && Exec(c, s, evs).calls[0].kind == OnAdded
  {
    hide WF, Step, Kinds, Receives, Exec, NamesPort, FitsRef;
    Pow256Values();
    var details := Receives(c, Details(k, TCP_PROVIDER), payload, late);
    Quiet(c, s, Between(c, t, late), k);
    ExecOne(c, s, Between(c, t, late), details);
    var s' := IsDescribed(c, Exec(c, s, Between(c, t, late)), k, true, [], payload, late);
    var swept := Swept(c, s, k, late);
    ExecCons(c, s, Sweep(late), Between(c, t, late) + [details]);
    Quiet(c, swept, Between(c, t, late), k);
    ExecOne(c, swept, Between(c, t, late), details);
    AboutNothing(c, Exec(c, swept, Between(c, t, late)), k, payload, late);
  }

  lemma Swept(c: Config, s: State, k: nat, now: nat) returns (s': State)
    requires WF(c.handler.version, s) && k in s.sources && Expired(s.sources[k], now) && now > 0
    ensures s' == Step(c, s, Sweep(now)) && WF(c.handler.version, s') && s'.calls == s.calls && k !in s'.sources
  {
    s' := Step(c, s, Sweep(now));
    StepKeepsWF(c, s, Sweep(now));
  }

  lemma AboutNothing(c: Config, s: State, k: nat, payload: Bytes, now: nat)
    requires WF(c.handler.version, s) && k !in s.sources && FitsRef(c.handler.version, k) && now > 0
    ensures Step(c, s, Receives(c, Details(k, TCP_PROVIDER), payload, now)).calls == s.calls
  {
    hide WF, Step, Kinds, DecodeBody, NoticeBytes, FitsRef, Receives;
    Pow256Values();
    var b := Heard(c, s, Details(k, TCP_PROVIDER), payload, now);
  }

  lemma OutlineOfOne(calls: seq<Call>)
    ensures calls == [] ==> Outline(calls) == []
    ensures |calls| == 1 && calls[0].kind == OnAdded ==> Outline(calls) == [(OnAdded, calls[0].stream)]
  {
    if |calls| == 1 && calls[0].kind == OnAdded {
      assert calls[..0] == [];
      assert Observed(calls, ARRIVALS_AND_DEPARTURES) == [calls[0]];
    }
  }

  lemma NoticeIsInbound(c: Config, n: Notice, payload: Bytes, now: nat)
    requires |payload| <= 2000
    ensures Inbound(Receives(c, n, payload, now))
  {
    hide NoticeFields, TypeOf;
    NoticeHeader(c.handler.version, n, payload);
  }

  lemma Uncons(a: seq<Event>, b: seq<Event>)
    requires a != []
    ensures a == [a[0]] + a[1..] && a + b == [a[0]] + (a[1..] + b)
  {
  }

  lemma {:induction false} StripAppend(a: seq<Event>, b: seq<Event>)
    ensures Strip(a + b) == Strip(a) + Strip(b)
    decreases |a|
  {
    hide Strip;
    if a == [] {
      NoEvents(0, 0);
      assert a + b == b;
    } else {
      Uncons(a, b);
      StripAppend(a[1..], b);
      StripCons(a[0], a[1..]);
      StripCons(a[0], a[1..] + b);
    }
  }

  lemma {:induction false} StripNone(evs: seq<Event>)
    requires NoSweeps(evs)
    ensures Strip(evs) == evs
    decreases |evs|
  {
    if evs != [] {
      StripNone(evs[1..]);
    }
  }

  /** A schedule of the main loop on which a run and the replay of its recording differ: the run reports nothing, the
      replay an arrival. */
  lemma ReplayAnnouncesTheDropped(c: Config, k: nat, payload: Bytes, t: nat, late: nat, clock: nat -> nat)
    requires FitsRef(c.handler.version, k) && NamesPort(c, k, payload) && |payload| <= 2000
    requires t > 0 && late > t + CLEANUP_SECONDS && forall i: nat :: clock(i) > 0
    ensures var ticks := LateTicks(c, k, payload, t, late);
            var evs := Schedule(c, t, t, ticks);
            && ClockRuns(ticks, t) && Recordings(evs)
            && Outline(Live(c, evs).calls) == []
            && exists stream :: Outline(Replay(c, ReadAll(RecordingOf(c, evs)), clock).calls) == [(OnAdded, stream)]
  {
    hide Schedule, LateTicks, Ordered, Inbound, ClockRuns, Outline, Exec, Receives, NamesPort, FitsRef, WF, Holds;
    hide Between, Opening, Strip, RecordingOf, ReadAll, Replay, Started;
    var ticks := LateTicks(c, k, payload, t, late);
    var evs := Schedule(c, t, t, ticks);
    var details := Receives(c, Details(k, TCP_PROVIDER), payload, late);
    var rest := Between(c, t, late) + [details];
    LateClock(c, k, payload, t, t, late);
    LateRecordings(c, k, payload, t, late);
    LateSchedule(c, k, payload, t, late);
    var s := ArrivedAndDeparted(c, k, t);
    assert k in s.sources by { HeldSource(c, s, k, true, false, []); }
    LateDescription(c, s, k, payload, t, late);
    ExecAppend(c, Started(c), Opening(c, k, t), [Sweep(late)] + rest);
    OutlineOfOne(Live(c, evs).calls);
    assert NoSweeps(Opening(c, k, t)) && NoSweeps(rest) by { LateNoSweeps(c, k, payload, t, late); }
    StripNone(Opening(c, k, t));
    StripNone(rest);
    StripAppend(Opening(c, k, t), [Sweep(late)] + rest);
    StripCons(Sweep(late), rest);
    ExecAppend(c, Started(c), Opening(c, k, t), rest);
    OutlineOfOne(Live(c, Strip(evs)).calls);
    ReplayReproduces(c, evs, clock);
  }

  lemma HeldSource(c: Config, s: State, k: nat, removed: bool, ports: bool, kinds: seq<CallKind>)
    requires Holds(c, s, k, removed, ports, kinds)
    ensures k in s.sources
  {
  }

  lemma LateNoSweeps(c: Config, k: nat, payload: Bytes, t: nat, late: nat)
    ensures NoSweeps(Opening(c, k, t))
    ensures NoSweeps(Between(c, t, late) + [Receives(c, Details(k, TCP_PROVIDER), payload, late)])
  {
    hide NoticeBytes;
  }

  lemma LateRecordings(c: Config, k: nat, payload: Bytes, t: nat, late: nat)
    requires |payload| <= 2000 && t > 0 && late > t + CLEANUP_SECONDS
    ensures Recordings(Schedule(c, t, t, LateTicks(c, k, payload, t, late)))
  {
    hide Schedule, LateTicks, Ordered, ClockRuns, Receives, Inbound;
    LateClock(c, k, payload, 0, t, late);
    LateSchedule(c, k, payload, t, late);
    ScheduleIsOrdered(c, t, t, LateTicks(c, k, payload, t, late), 0, 0);
    NoticeIsInbound(c, Arrival(k, TCP_PROVIDER), [], t);
    NoticeIsInbound(c, Departure(k), [], t);
    NoticeIsInbound(c, Details(k, TCP_PROVIDER), payload, late);
    TimersAreInbound(t);
    TimersAreInbound(late);
  }

  lemma TimersAreInbound(now: nat)
    ensures Inbound(Send(now)) && Inbound(Scan(now)) && Inbound(Sweep(now))
  {
  }
}
