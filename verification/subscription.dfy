/** The subscription handshake: at most two requests, in order, and a queue that never holds more than one. */
module SubscriptionProtocol {
  import opened ByteStrings
  import opened Codec
  import opened Model
  import opened RunLoop
  import opened Cleanup
  import opened ReplaySimulation
  import opened Correlation
  import opened Draining
  import opened Timers

  /** How far the handshake is from its end. */
  function Rank(p: Phase): nat {
    match p
    case RequestTcp => 2
    case RequestUdp => 1
    case Start => 1
    case Running => 0
  }

  predicate IsControl(c: Config, e: Event) {
    e.Recv? && e.bytes != [] &&
    (DecodeBody(c.handler, e.bytes).Success? || DecodeBody(c.handler, e.bytes).Error?)
  }

  function Controls(c: Config, evs: seq<Event>): nat
    decreases |evs|
  {
    if evs == [] then 0 else (if IsControl(c, evs[0]) then 1 else 0) + Controls(c, evs[1..])
  }

  lemma RankAfter(c: Config, s: State, e: Event)
    ensures IsControl(c, e) && s.phase != Running ==> Rank(Step(c, s, e).phase) < Rank(s.phase)
    ensures !IsControl(c, e) || s.phase == Running ==> Step(c, s, e).phase == s.phase
  {
    hide DecodeBody, Encode, Touch, Report, Min, Wanted, DueSet, ExpiredSet;
  }

  /** Every SUCCESS or ERROR brings the handshake nearer to its end, whatever it answers; nothing takes it back. So
      two of them at most are handled before RUNNING, and RUNNING is never left. */
  lemma {:induction false} HandshakeEnds(c: Config, s: State, evs: seq<Event>)
    ensures Rank(Exec(c, s, evs).phase) <= Rank(s.phase)
    ensures Rank(Exec(c, s, evs).phase) == 0 || Rank(Exec(c, s, evs).phase) + Controls(c, evs) <= Rank(s.phase)
    ensures Controls(c, evs) >= 2 || s.phase == Running ==> Exec(c, s, evs).phase == Running
    decreases |evs|
  {
    hide Step, IsControl;
    if evs != [] {
      RankAfter(c, s, evs[0]);
      HandshakeEnds(c, Step(c, s, evs[0]), evs[1..]);
    }
  }

  // ---- what is subscribed to -------------------------------------------------

  function OnlyAddAll(ms: seq<Bytes>): seq<Bytes> {
    if ms == [] then []
    else OnlyAddAll(ms[..|ms| - 1]) + (if TypeOf(ms[|ms| - 1]) == ADD_ALL_SRCS then [ms[|ms| - 1]] else [])
  }

  lemma OnlyAddAllAppend(ms: seq<Bytes>, m: Bytes)
    ensures OnlyAddAll(ms + [m]) == OnlyAddAll(ms) + (if TypeOf(m) == ADD_ALL_SRCS then [m] else [])
  {
    assert (ms + [m])[..|ms|] == ms;
  }

  /** The subscriptions made so far: written, then queued. */
  function Subscriptions(s: State): seq<Bytes> {
    OnlyAddAll(Written(s.log)) + Queued(s.outq)
  }

  predicate IsAnswer(en: Entry) {
    en.Got? && en.bytes != [] && (TypeOf(en.bytes) == SUCCESS || TypeOf(en.bytes) == ERROR)
  }

  /** The SUCCESS and ERROR messages read so far. */
  function Answers(log: seq<Entry>): seq<Bytes> {
    if log == [] then []
    else Answers(log[..|log| - 1]) + (if IsAnswer(log[|log| - 1]) then [log[|log| - 1].bytes] else [])
  }

  lemma AnswersAppend(log: seq<Entry>, en: Entry)
    ensures Answers(log + [en]) == Answers(log) + (if IsAnswer(en) then [en.bytes] else [])
  {
    assert (log + [en])[..|log|] == log;
  }

  /** The answer lets the handshake go on: a SUCCESS, or a full-size ERROR whose code is 0 or ENOBUFS. */
  predicate Grants(bytes: Bytes) {
    TypeOf(bytes) == SUCCESS || (TypeOf(bytes) == ERROR && |bytes| >= 24 && Field(bytes, 16, 4) in {0, 55})
  }

  predicate UdpGranted(c: Config, log: seq<Entry>) {
    c.wantUdp && Answers(log) != [] && Grants(Answers(log)[0])
  }

  /** The subscription state by the answers read. */
  function PhaseBy(c: Config, log: seq<Entry>): Phase {
    var n := |Answers(log)|;
    if !c.wantTcp then (if n == 0 then RequestUdp else Running)
    else if n == 0 then RequestTcp
    else if n == 1 && UdpGranted(c, log) then RequestUdp
    else Running
  }

  /** TCP, if wanted, is subscribed to first and with context 1; UDP follows exactly when it is wanted and the first
      answer grants it, or comes first and alone. */
  ghost predicate InSequence(c: Config, s: State) {
    var v, subs := c.handler.version, Subscriptions(s);
    && (forall q :: q in s.outq ==> TypeOf(q.bytes) == ADD_ALL_SRCS)
    && s.seqnum < SEQ_MODULUS
    && s.phase == PhaseBy(c, s.log)
    && (if !c.wantTcp then subs == [Encode(v, 1, AddAllUdp)]
        else if UdpGranted(c, s.log) then exists n: nat :: n < SEQ_MODULUS && subs == UdpAfterTcp(v, n)
        else subs == [Encode(v, 1, AddAllTcp)])
  }

  function UdpAfterTcp(v: Version, n: nat): seq<Bytes> {
    [Encode(v, 1, AddAllTcp), Encode(v, n, AddAllUdp)]
  }

  lemma {:induction false} QueuedAppend(q: seq<QMsg>, m: QMsg)
    ensures Queued(q + [m]) == Queued(q) + [m.bytes]
  {
    if q == [] {
      assert (q + [m])[1..] == [];
    } else {
      assert (q + [m])[1..] == q[1..] + [m];
      QueuedAppend(q[1..], m);
    }
  }

  lemma SameSubscriptions(c: Config, s: State, s': State)
    requires InSequence(c, s) && s'.seqnum < SEQ_MODULUS && s'.phase == s.phase
    requires forall q :: q in s'.outq ==> TypeOf(q.bytes) == ADD_ALL_SRCS
    requires Subscriptions(s') == Subscriptions(s) && Answers(s'.log) == Answers(s.log)
    ensures InSequence(c, s')
  {
    hide Encode, TypeOf, Subscriptions, Answers, Grants;
  }

  lemma SubscriptionsQuiet(s: State, s': State, en: Entry)
    requires s'.outq == s.outq && s'.log == s.log + [en]
    requires en.Sent? ==> TypeOf(en.bytes) != ADD_ALL_SRCS
    ensures Subscriptions(s') == Subscriptions(s)
    ensures Answers(s'.log) == Answers(s.log) + (if IsAnswer(en) then [en.bytes] else [])
  {
    hide TypeOf;
    AnswersAppend(s.log, en);
    WrittenAppend(s.log, en);
    if en.Sent? {
      OnlyAddAllAppend(Written(s.log), en.bytes);
    }
    assert Written(s.log) + [] == Written(s.log);
    assert OnlyAddAll(Written(s.log)) + [] == OnlyAddAll(Written(s.log));
  }

  lemma SubscriptionsEnqueue(v: Version, s: State, r: Request)
    ensures Subscriptions(Enqueue(v, s, r)) == Subscriptions(s) + [Encode(v, s.seqnum, r)]
  {
    hide Encode, TypeOf;
    QueuedAppend(s.outq, QMsg(s.seqnum, Encode(v, s.seqnum, r)));
  }

  lemma AnswerDecodes(h: Handler, bytes: Bytes, now: nat)
    requires bytes != []
    ensures var b := DecodeBody(h, bytes);
            && (IsAnswer(Got(bytes, now)) <==> b.Success? || b.Error?)
            && (b.Success? || b.Error? ==> (Grants(bytes) <==> b.Success? || NotFatal(b.code)))
  {
    hide TypeOf, Field, SrcRefOf;
  }

  /** An answer: the one that makes the client subscribe to UDP, and any other. */
  lemma SequenceAnswer(c: Config, s: State, s1: State, bytes: Bytes, b: Body)
    requires InSequence(c, s) && (b.Success? || b.Error?) && (Grants(bytes) <==> b.Success? || NotFatal(b.code))
    requires s1.outq == s.outq && s1.seqnum == s.seqnum && s1.phase == s.phase
    requires Subscriptions(s1) == Subscriptions(s) && Answers(s1.log) == Answers(s.log) + [bytes]
    ensures InSequence(c, OnControl(c, s1, b))
  {
    hide Encode, TypeOf, Enqueue, Subscriptions, Answers, Grants, NotFatal;
    var v := c.handler.version;
    var s2 := if b.Error? then CountError(s1, b.code) else s1;
    var s3 := s2.(phase := RequestUdp);
    UnchangedSubscriptions(s1, s2.(phase := Running));
    UnchangedSubscriptions(s1, s3);
    assert Answers(s1.log)[0] == if Answers(s.log) == [] then bytes else Answers(s.log)[0];
    if s.phase == RequestTcp && c.wantUdp && Grants(bytes) {
      SubscriptionsEnqueue(v, s3, AddAllUdp);
      EnqueueKeeps(v, s3, AddAllUdp);
      EncodeHeader(v, s.seqnum, AddAllUdp);
      EnqueuedTypes(v, s3, AddAllUdp);
      assert Subscriptions(Enqueue(v, s3, AddAllUdp)) == UdpAfterTcp(v, s.seqnum);
    }
  }

  lemma EnqueuedTypes(v: Version, s: State, r: Request)
    requires s.seqnum < SEQ_MODULUS && (r.AddAllTcp? || r.AddAllUdp?)
    requires forall q :: q in s.outq ==> TypeOf(q.bytes) == ADD_ALL_SRCS
    ensures forall q :: q in Enqueue(v, s, r).outq ==> TypeOf(q.bytes) == ADD_ALL_SRCS
  {
    EncodeHeader(v, s.seqnum, r);
    hide Encode, TypeOf;
  }

  lemma SequenceReceive(c: Config, s: State, e: Event)
    requires InSequence(c, s) && e.Recv?
    ensures InSequence(c, Step(c, s, e))
  {
    hide DecodeBody, Encode, TypeOf, OnSource, InSequence, Subscriptions, OnControl, Grants, Answers, IsAnswer;
    QueueFacts(c, s);
    if e.bytes != [] {
      var n, b := Noted(s, e.bytes, e.now), DecodeBody(c.handler, e.bytes);
      AnswerDecodes(c.handler, e.bytes, e.now);
      SubscriptionsQuiet(s, n, Got(e.bytes, e.now));
      if AboutSource(b) {
        ReceiveAbout(c, s, e);
        OnSourceKeepsQueue(n, b, e.now, |s.log|);
        OnSourceKeepsPhase(n, b, e.now, |s.log|);
        UnchangedSubscriptions(n, Step(c, s, e));
        SameSubscriptions(c, s, Step(c, s, e));
      } else if b.Unknown? {
        SameSubscriptions(c, s, Step(c, s, e));
      } else {
        SequenceAnswer(c, s, n, e.bytes, b);
      }
    }
  }

  lemma QueueFacts(c: Config, s: State)
    requires InSequence(c, s)
    ensures s.seqnum < SEQ_MODULUS && forall q :: q in s.outq ==> TypeOf(q.bytes) == ADD_ALL_SRCS
  {
    hide TypeOf, Encode;
  }

  lemma OnSourceKeepsPhase(s: State, b: Body, now: nat, pos: nat)
    requires AboutSource(b)
    ensures OnSource(s, b, now, pos).phase == s.phase
  {
  }

  lemma SequenceSend(c: Config, s: State, e: Event)
    requires InSequence(c, s) && e.Send?
    ensures InSequence(c, Step(c, s, e))
  {
    hide Encode, TypeOf, IsMin, InSequence, OnSend, OnlyAddAll, Written;
    QueueFacts(c, s);
    var v, s' := c.handler.version, Step(c, s, e);
    if s.outq != [] {
      QueuedOutcome(v, s, e.now);
      assert s.outq[0] in s.outq;
      WrittenAppend(s.log, Sent(s.outq[0].bytes, e.now));
      OnlyAddAllAppend(Written(s.log), s.outq[0].bytes);
    } else if s.waitDesc != {} {
      DescOutcome(v, s, e.now);
      EncodeHeader(v, s.seqnum, GetSrcDesc(Min(s.waitDesc)));
      SubscriptionsQuiet(s, s', Sent(Encode(v, s.seqnum, GetSrcDesc(Min(s.waitDesc))), e.now));
    } else if s.waitCount.Keys != {} {
      var k := Min(s.waitCount.Keys);
      CountOutcome(v, s, e.now);
      EncodeHeader(v, s.seqnum, QuerySrc(k));
      if Wanted(s, k) {
        SubscriptionsQuiet(s, s', Sent(Encode(v, s.seqnum, QuerySrc(k)), e.now));
      }
    } else {
      SendNothing(v, s, e.now);
    }
    SameSubscriptions(c, s, s');
  }

  lemma SequenceStep(c: Config, s: State, e: Event)
    requires InSequence(c, s)
    ensures InSequence(c, Step(c, s, e))
  {
    hide InSequence, OnReceive, OnSend, DueSet, ExpiredSet, Subscriptions, TypeOf;
    QueueFacts(c, s);
    match e
    case Recv(_, _) => SequenceReceive(c, s, e);
    case Send(_) => SequenceSend(c, s, e);
    case Scan(now) =>
      SubscriptionsQuiet(s, Step(c, s, e), Scanned(DueSet(s, now), now));
      SameSubscriptions(c, s, Step(c, s, e));
    case Sweep(_) =>
      UnchangedSubscriptions(s, Step(c, s, e));
      SameSubscriptions(c, s, Step(c, s, e));
  }

  lemma UnchangedSubscriptions(s: State, s': State)
    requires s'.log == s.log && s'.outq == s.outq
    ensures Subscriptions(s') == Subscriptions(s)
  {
  }

  /** In every run, whatever the kernel answers: at most two subscriptions are made, TCP before UDP. */
  lemma {:induction false} SubscriptionsInSequence(c: Config, s: State, evs: seq<Event>)
    requires InSequence(c, s)
    ensures InSequence(c, Exec(c, s, evs))
    decreases |evs|
  {
    hide InSequence, Step;
    if evs != [] {
      SequenceStep(c, s, evs[0]);
      SubscriptionsInSequence(c, Step(c, s, evs[0]), evs[1..]);
    }
  }

  /** With TCP wanted, UDP is subscribed to exactly when it is wanted and the first answer was a SUCCESS, or a
      full-size ERROR with code 0 or ENOBUFS; and not before that answer. */
  lemma UdpExactlyWhenGranted(c: Config, s: State)
    requires InSequence(c, s) && c.wantTcp
    ensures var v := c.handler.version;
            (exists m :: m in Subscriptions(s) && ProviderField(v, m) == UdpProvider(v)) <==> UdpGranted(c, s.log)
  {
    hide Encode, TypeOf, Grants, Subscriptions, Answers, ProviderField;
    var v := c.handler.version;
    Pow256Values();
    AddAllProvider(v, 1, AddAllTcp, 2);
    if UdpGranted(c, s.log) {
      var n: nat :| n < SEQ_MODULUS && Subscriptions(s) == UdpAfterTcp(v, n);
      AddAllProvider(v, n, AddAllUdp, UdpProvider(v));
      assert UdpAfterTcp(v, n)[1] in Subscriptions(s);
    }
  }

  function UdpProvider(v: Version): nat {
    if Wide(v) then 4 else 3
  }

  lemma StartedInSequence(c: Config)
    ensures InSequence(c, Started(c))
  {
    hide Encode, TypeOf, Grants;
    EncodeHeader(c.handler.version, 1, AddAllTcp);
    EncodeHeader(c.handler.version, 1, AddAllUdp);
    SubscriptionsEnqueue(c.handler.version, INITIAL.(phase := RequestTcp), AddAllTcp);
    SubscriptionsEnqueue(c.handler.version, INITIAL.(phase := RequestUdp), AddAllUdp);
  }

  // ---- the queue -------------------------------------------------------------

  /** At most one message is queued, and none while the answer that will queue one is awaited. */
  predicate Uncrowded(s: State) {
    |s.outq| + (if s.phase == RequestTcp then 1 else 0) <= 1
  }

  lemma UncrowdedReceive(c: Config, s: State, e: Event)
    requires Uncrowded(s) && e.Recv?
    ensures Uncrowded(Step(c, s, e))
  {
    hide DecodeBody, Encode, OnSource;
    if IsAbout(c, e) {
      ReceiveAbout(c, s, e);
      OnSourceKeepsQueue(Noted(s, e.bytes, e.now), DecodeBody(c.handler, e.bytes), e.now, |s.log|);
      OnSourceKeepsPhase(Noted(s, e.bytes, e.now), DecodeBody(c.handler, e.bytes), e.now, |s.log|);
    }
  }

  lemma SendUncrowds(c: Config, s: State, e: Event)
    requires |s.outq| <= 1 && e.Send?
    ensures Uncrowded(Step(c, s, e))
  {
    hide Encode, Min, Wanted;
  }

  lemma {:induction false} UncrowdedInbox(c: Config, s: State, msgs: seq<(Bytes, nat)>)
    requires Uncrowded(s)
    ensures Uncrowded(Exec(c, s, Inbox(msgs)))
    decreases |msgs|
  {
    hide Uncrowded, Step;
    if msgs != [] {
      UncrowdedReceive(c, s, Recv(msgs[0].0, msgs[0].1));
      assert Inbox(msgs)[1..] == Inbox(msgs[1..]);
      UncrowdedInbox(c, Step(c, s, Recv(msgs[0].0, msgs[0].1)), msgs[1..]);
    }
  }

  lemma {:induction false} QueueBetweenIterations(c: Config, l: Loop, ticks: seq<Tick>)
    requires |l.s.outq| <= 1
    ensures |AfterTicks(c, l, ticks).s.outq| <= 1
    decreases |ticks|
  {
    hide Step, TickEvents, Inbox, Checked;
    if ticks != [] {
      QueueWithinIteration(c, l, ticks[0], |ticks[0].inbox|);
      TickAfterChecks(c, l, ticks[0]);
      assert ticks[0].inbox[..|ticks[0].inbox|] == ticks[0].inbox;
      QueueBetweenIterations(c, AfterTick(c, l, ticks[0]), ticks[1..]);
    }
  }

  lemma QueueWithinIteration(c: Config, l: Loop, tick: Tick, j: nat)
    requires |l.s.outq| <= 1 && j <= |tick.inbox|
    ensures var s := Checked(c, l, tick);
            |s.outq| <= 1 && |Exec(c, Step(c, s, Event.Send(tick.sendNow)), Inbox(tick.inbox[..j])).outq| <= 1
  {
    hide Step, Inbox, Checked, Exec;
    ChecksKeepQueue(c, l, tick);
    SendUncrowds(c, Checked(c, l, tick), Event.Send(tick.sendNow));
    UncrowdedInbox(c, Step(c, Checked(c, l, tick), Event.Send(tick.sendNow)), tick.inbox[..j]);
  }

  /** At every point of every run of the main loop, before and after each send and each message read, the queue
      holds at most one message. */
  lemma QueueHoldsOne(c: Config, t0: nat, t1: nat, ticks: seq<Tick>, n: nat, j: nat)
    requires n < |ticks| && j <= |ticks[n].inbox|
    ensures var s := Checked(c, AfterTicks(c, Loop(Started(c), t0, t1), ticks[..n]), ticks[n]);
            |s.outq| <= 1 &&
            |Exec(c, Step(c, s, Event.Send(ticks[n].sendNow)), Inbox(ticks[n].inbox[..j])).outq| <= 1
  {
    hide AfterTicks, Checked, Step, Inbox, Encode;
    var l := Loop(Started(c), t0, t1);
    QueueBetweenIterations(c, l, ticks[..n]);
    QueueWithinIteration(c, AfterTicks(c, l, ticks[..n]), ticks[n], j);
  }

  lemma ChecksKeepQueue(c: Config, l: Loop, tick: Tick)
    ensures Checked(c, l, tick).outq == l.s.outq
  {
    hide Checked, DueSet, ExpiredSet;
    ChecksAre(c, l, tick);
  }
}
