/** What holds in every reachable state of the live client: the invariants of the other modules, established at the
    start of `run` and kept by every event, for every source and every sequence of messages the kernel may send. */
module Guarantees {
  import opened ByteStrings
  import opened Codec
  import opened Model
  import opened RunLoop
  import opened Cleanup
  import opened Isolation
  import opened ListenerProtocol
  import opened ReplaySimulation
  import opened Correlation
  import opened Draining
  import opened ErrorCounters
  import opened History
  import opened Polling
  import opened Reports
  import opened Requests
  import opened SubscriptionProtocol
  import opened Timers

  ghost predicate Sound(c: Config, s: State, k: nat) {
    && WF(c.handler.version, s)
    && Correlated(s) && Counted(s) && Tallied(s)
    && Justified(c, s, k) && Targeted(c, s, k) && Remembered(c, s, k)
    && Announced(c, s, k) && Introduced(c, s, k)
    && InSequence(c, s)
    && Recounts(c, s, k) && Polls(c, s, k)
  }

  lemma StartedSound(c: Config, k: nat)
    ensures Sound(c, Started(c), k) && Addressed(Started(c)) && OnlySubscriptions(Started(c))
    ensures InStep(Started(c), k) && AskedWithPorts(Lookup(Started(c).sources, k))
  {
    hide Encode, TypeOf, WF, InSequence, Addressed, OnlySubscriptions, Tells;
    StartedWF(c);
    StartedAddressed(c);
    StartedInSequence(c);
  }

  /** Every run of the client, in whatever order messages, timers and sends come. */
  lemma EveryRunIsSound(c: Config, evs: seq<Event>, k: nat)
    requires forall i :: 0 <= i < |evs| ==> evs[i].now > 0
    ensures Sound(c, Exec(c, Started(c), evs), k)
  {
    hide WF, Correlated, Counted, Tallied, Justified, Targeted, Remembered, Announced, Introduced, InSequence, InStep;
    hide Addressed, OnlySubscriptions, Exec, Recounts, Polls;
    var s := Started(c);
    StartedSound(c, k);
    ExecKeepsWF(c, s, evs);
    CorrelationEqualsHistory(c, s, evs);
    ContextsCountRequests(c, s, evs);
    CountersTallyErrors(c, s, evs);
    NoRequestDuplicated(c, s, evs, k);
    OnlyLiveSourcesAsked(c, s, evs, k);
    NoSourceForgotten(c, s, evs, k);
    AnnouncedOncePerLife(c, s, evs, k);
    IntroducedThroughout(c, s, evs, k);
    SubscriptionsInSequence(c, s, evs);
    TableIsHistory(c, s, evs, k);
    PollingIsHistory(c, s, evs, k);
  }

  /** In particular every run of the main loop. */
  lemma MainLoopIsSound(c: Config, t0: nat, t1: nat, ticks: seq<Tick>, k: nat)
    requires ClockRuns(ticks, t1)
    ensures Sound(c, Exec(c, Started(c), Schedule(c, t0, t1, ticks)), k)
  {
    hide Sound, Exec, Schedule, Ordered, ClockRuns;
    ScheduleIsOrdered(c, t0, t1, ticks, t1, 0);
    PositiveClocks(Schedule(c, t0, t1, ticks), t1, 0);
    EveryRunIsSound(c, Schedule(c, t0, t1, ticks), k);
  }

  /** For every source: the callbacks of a run about it are those of the run on its own messages and the timers. */
  lemma SourcesDoNotInterfere(c: Config, evs: seq<Event>, k: nat)
    requires forall i :: 0 <= i < |evs| ==> evs[i].now > 0
    ensures About(Exec(c, Started(c), evs).calls, k) == About(Exec(c, Started(c), Project(c, evs, k)).calls, k)
  {
    hide WF, Exec, Project;
    StartedWF(c);
    Noninterference(c, Started(c), Started(c), evs, k);
  }

  /** For every source: the listener has its stream open exactly while the table holds it live with ports, all
      through the run, if and only if the messages about it met the guard. */
  lemma InStepExactlyWhenKernelIsGuarded(c: Config, evs: seq<Event>, k: nat)
    requires forall i :: 0 <= i < |evs| ==> evs[i].now > 0
    ensures InStepThroughout(c, Started(c), evs, k) <==> GuardedRun(c, Started(c), evs, k)
  {
    hide WF, Exec, GuardedRun, InStepThroughout, InStep, AskedWithPorts, Lookup;
    StartedSound(c, k);
    InStepExactlyWhenGuarded(c, Started(c), evs, k);
  }

  /** For every source of a run with a conforming kernel: arrival, updates, departure, and over again. */
  lemma ConformingKernelIsHeardInOrder(c: Config, evs: seq<Event>, k: nat)
    requires ConformingRun(c, Started(c), evs) && forall i :: 0 <= i < |evs| ==> evs[i].now > 0
    ensures Alternating(Kinds(Exec(c, Started(c), evs).calls, k))
  {
    hide WF, Exec, ConformingRun, InStep, AskedWithPorts, Lookup, Alternating, Kinds;
    StartedSound(c, k);
    ListenerHearsInOrder(c, Started(c), evs, k);
  }

  // ---- callbacks by the log ----------------------------------------------------

  lemma LiveIsKnown(c: Config, s: State, k: nat)
    requires Recounts(c, s, k) && LiveAt(c, s.log, k, |s.log|)
    ensures k in s.sources && Birth(c, s.log, k).Some?
  {
    hide LiveAt, Birth, Dated, Portrays;
  }

  lemma Recounted(c: Config, evs: seq<Event>, k: nat)
    requires forall i :: 0 <= i < |evs| ==> evs[i].now > 0
    ensures var s := Exec(c, Started(c), evs); WF(c.handler.version, s) && Recounts(c, s, k)
  {
    hide WF, Recounts, Exec;
    StartRecounts(c, k);
    ExecKeepsWF(c, Started(c), evs);
    TableIsHistory(c, Started(c), evs, k);
  }

  /** Counts of a source that the log says is live are reported, in exactly one update with those counters, if and
      only if since its life began it has had an accepted description and been selected by a scan that no counts have
      followed, and they are of some packets. */
  lemma UpdatesOfRun(c: Config, evs: seq<Event>, bytes: Bytes, now: nat, k: nat)
    requires (forall i :: 0 <= i < |evs| ==> evs[i].now > 0) && now > 0 && bytes != []
    requires DecodeBody(c.handler, bytes).SrcCounts? && DecodeBody(c.handler, bytes).ref == k
    requires var log := Exec(c, Started(c), evs).log; LiveAt(c, log, k, |log|)
    ensures var s, s' := Exec(c, Started(c), evs), Exec(c, Started(c), evs + [Recv(bytes, now)]);
            var n, birth := c.handler.counters(bytes), Birth(c, s.log, k);
            birth.Some? &&
            if DescribedSince(c, s.log, k, birth.value) && AskedSince(c, s.log, k, birth.value) &&
               (n.rxpackets > 0 || n.txpackets > 0)
            then Calls(c, s, s', OnStatsUpdate, k, birth.value, now) &&
                 s'.calls[|s.calls|].stream.stats == Reported(c.handler.version, n)
            else s'.calls == s.calls
  {
    hide WF, Recounts, Exec, DecodeBody, Step, DescribedSince, AskedSince, LiveAt, Birth, KeyKnown, StatesKnown, Latest;
    var s, e := Exec(c, Started(c), evs), Recv(bytes, now);
    Recounted(c, evs, k);
    LiveIsKnown(c, s, k);
    UpdateReported(c, s, e, k);
    ExecOne(c, Started(c), evs, e);
    ReceiveLog(c, s, e);
    LatestAppend(c, s.log, Got(bytes, now), k, Birth(c, s.log, k).value);
    TellsOfMessage(c, bytes, now, k);
  }

  /** The first accepted description of the life of a source that the log says is live is reported, in exactly one
      arrival, if and only if it names a local or remote port; no later one is. */
  lemma ArrivalsOfRun(c: Config, evs: seq<Event>, bytes: Bytes, now: nat, k: nat)
    requires (forall i :: 0 <= i < |evs| ==> evs[i].now > 0) && now > 0 && bytes != []
    requires DecodeBody(c.handler, bytes).SrcDesc? && DecodeBody(c.handler, bytes).ref == k
    requires var log := Exec(c, Started(c), evs).log; LiveAt(c, log, k, |log|)
    ensures var s, s' := Exec(c, Started(c), evs), Exec(c, Started(c), evs + [Recv(bytes, now)]);
            var desc, birth := DecodeBody(c.handler, bytes).desc, Birth(c, s.log, k);
            birth.Some? &&
            if !DescribedSince(c, s.log, k, birth.value) && !desc.OtherProvider? &&
               (desc.d.lport != 0 || desc.d.rport != 0)
            then Calls(c, s, s', OnAdded, k, birth.value, now) else s'.calls == s.calls
  {
    hide WF, Recounts, Exec, DecodeBody, Step, DescribedSince, LiveAt, Birth, Calls;
    var s := Exec(c, Started(c), evs);
    Recounted(c, evs, k);
    LiveIsKnown(c, s, k);
    ArrivalReported(c, s, Recv(bytes, now), k);
    ExecOne(c, Started(c), evs, Recv(bytes, now));
  }

  /** The removal of a source that the log says is live is reported, in exactly one departure, if and only if the last
      description of its life names a port. */
  lemma DeparturesOfRun(c: Config, evs: seq<Event>, bytes: Bytes, now: nat, k: nat)
    requires (forall i :: 0 <= i < |evs| ==> evs[i].now > 0) && now > 0 && bytes != []
    requires DecodeBody(c.handler, bytes) == SrcRemoved(k)
    requires var log := Exec(c, Started(c), evs).log; LiveAt(c, log, k, |log|)
    ensures var s, s' := Exec(c, Started(c), evs), Exec(c, Started(c), evs + [Recv(bytes, now)]);
            var birth := Birth(c, s.log, k);
            birth.Some? &&
            if PortsKnown(c, s.log, k, birth.value) then Calls(c, s, s', OnRemoved, k, birth.value, now)
            else s'.calls == s.calls
  {
    hide WF, Recounts, Exec, DecodeBody, Step, PortsKnown, LiveAt, Birth, Calls;
    var s := Exec(c, Started(c), evs);
    Recounted(c, evs, k);
    LiveIsKnown(c, s, k);
    DepartureReported(c, s, Recv(bytes, now), k);
    ExecOne(c, Started(c), evs, Recv(bytes, now));
  }

  /** With TCP wanted: a subscription to UDP has been made if and only if UDP is wanted and the first SUCCESS or ERROR
      read was a SUCCESS, or an ERROR of at least 24 bytes with code 0 or ENOBUFS. */
  lemma UdpFollowsTcp(c: Config, evs: seq<Event>)
    requires c.wantTcp
    ensures var s, v := Exec(c, Started(c), evs), c.handler.version;
            (exists m :: m in Subscriptions(s) && ProviderField(v, m) == UdpProvider(v)) <==>
            c.wantUdp && Answers(s.log) != [] && Grants(Answers(s.log)[0])
  {
    hide Exec, InSequence, Subscriptions, ProviderField, Grants, Answers;
    StartedInSequence(c);
    SubscriptionsInSequence(c, Started(c), evs);
    UdpExactlyWhenGranted(c, Exec(c, Started(c), evs));
  }

  /** Every query for counts in the log of a run follows a scan that selected the source, with nothing in between that
      settles the matter: no counts, no removal, no other query, no new life. */
  lemma QueriesOfRun(c: Config, evs: seq<Event>, k: nat, i: nat)
    requires forall i :: 0 <= i < |evs| ==> evs[i].now > 0
    requires var log := Exec(c, Started(c), evs).log; i < |log| && AsksCounts(c.handler.version, log[i], k)
    ensures var log := Exec(c, Started(c), evs).log;
            exists j :: 0 <= j < i && Selects(log[j], k) &&
              forall m :: j < m < i ==> !SettlesCounts(c, log[m], k) && !Begins(c, log, k, m)
  {
    hide Exec, AsksCounts, SettlesCounts, Begins, Selects, WF, Correlated, Counted, Tallied, Justified, Targeted;
    hide Remembered, Announced, Introduced, InSequence, Recounts, ScansExact, WaitsExactly, CalledFor;
    EveryRunIsSound(c, evs, k);
    QueryFollowsScan(c, Exec(c, Started(c), evs).log, k, i);
  }

  /** After any run, sending until nothing waits writes what the log of the run says is due and nothing else: the
      queue, a request for every description due, a query for the counts of every source of which they are due. */
  lemma RequestsOfRun(c: Config, evs: seq<Event>, sends: seq<Event>) returns (ds: seq<nat>, qs: seq<nat>)
    requires forall i :: 0 <= i < |evs| ==> evs[i].now > 0
    requires (forall i :: 0 <= i < |sends| ==> sends[i].Send?) && |sends| >= Backlog(Exec(c, Started(c), evs))
    ensures var s := Exec(c, Started(c), evs);
            && StrictlyAscending(ds) && (forall k :: k in ds <==> DescriptionDue(c, s.log, k))
            && StrictlyAscending(qs) && (forall k :: k in qs <==> QueryDue(c, s.log, k))
            && Written(Exec(c, Started(c), evs + sends).log) ==
               Written(s.log) +
               (Queued(s.outq) + Numbered(c.handler.version, s.seqnum, Descriptions(ds) + QueryEach(qs)))
  {
    hide Exec, WF, Correlated, Counted, Tallied, Justified, Targeted, Remembered, Announced, Introduced, InSequence;
    hide Recounts, Polls, Backlog, QueryDue, DescriptionDue, Written, Numbered, Queued, StrictlyAscending;
    var s := Exec(c, Started(c), evs);
    forall k: nat
      ensures WF(c.handler.version, s) && Recounts(c, s, k) && Polls(c, s, k)
    {
      EveryRunIsSound(c, evs, k);
    }
    EveryRunIsSound(c, evs, 0);
    ds, qs := DrainWritesWhatIsDue(c, s, sends);
    ExecAppend(c, Started(c), evs, sends);
  }
}
