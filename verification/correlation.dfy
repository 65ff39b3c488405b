/** The map from contexts to requests awaiting a response, and the sequence numbers behind the contexts. */
module Correlation {
  import opened ByteStrings
  import opened Codec
  import opened Model
  import opened Cleanup
  import opened ReplaySimulation

  /** A message, written or received, that carries the context. */
  predicate Mentions(en: Entry, context: nat) {
    !en.Scanned? && ContextOf(en.bytes) == context
  }

  /** Entry `i` is a written request whose context no later message carries. */
  predicate Outstanding(log: seq<Entry>, context: nat, i: nat) {
    i < |log| && log[i].Sent? && Mentions(log[i], context) &&
    forall j :: i < j < |log| ==> !Mentions(log[j], context)
  }

  /** The map holds exactly the outstanding requests. */
  ghost predicate Correlated(s: State) {
    && (forall context :: context in s.pending ==> exists i: nat :: Outstanding(s.log, context, i))
    && (forall context, i: nat :: Outstanding(s.log, context, i) ==>
          context in s.pending && s.pending[context] == s.log[i].bytes)
  }

  lemma OutstandingAppend(log: seq<Entry>, en: Entry, context: nat)
    ensures forall i: nat :: i < |log| ==>
              (Outstanding(log + [en], context, i) <==> Outstanding(log, context, i) && !Mentions(en, context))
    ensures Outstanding(log + [en], context, |log|) <==> en.Sent? && Mentions(en, context)
  {
    hide Mentions;
    var log' := log + [en];
    forall i: nat | i < |log|
      ensures Outstanding(log', context, i) <==> Outstanding(log, context, i) && !Mentions(en, context)
    {
      assert log'[|log|] == en;
      assert forall j :: 0 <= j < |log| ==> log'[j] == log[j];
      if Outstanding(log, context, i) && !Mentions(en, context) {
        assert forall j :: i < j < |log'| ==> !Mentions(log'[j], context);
      }
      if Outstanding(log', context, i) {
        assert forall j :: i < j < |log| ==> !Mentions(log[j], context) by {
          assert forall j :: i < j < |log| ==> log[j] == log'[j];
        }
      }
    }
  }

  /** One logged message: its context leaves the map, or enters it with the request just written. */
  lemma CorrelatedAppend(s: State, s': State, en: Entry)
    requires Correlated(s) && s'.log == s.log + [en]
    requires en.Got? ==> s'.pending == s.pending - {ContextOf(en.bytes)}
    requires en.Sent? ==> s'.pending == s.pending[ContextOf(en.bytes) := en.bytes]
    requires en.Scanned? ==> s'.pending == s.pending
    ensures Correlated(s')
  {
    hide ContextOf;
    forall context | context in s'.pending
      ensures exists i: nat :: Outstanding(s'.log, context, i)
    {
      OutstandingAppend(s.log, en, context);
      if en.Sent? && Mentions(en, context) {
        assert Outstanding(s'.log, context, |s.log|);
      } else {
        var i: nat :| Outstanding(s.log, context, i);
        assert Outstanding(s'.log, context, i);
      }
    }
    forall context, i: nat | Outstanding(s'.log, context, i)
      ensures context in s'.pending && s'.pending[context] == s'.log[i].bytes
    {
      OutstandingAppend(s.log, en, context);
      if i < |s.log| {
        assert s'.log[i] == s.log[i] && Outstanding(s.log, context, i);
      }
    }
  }

  lemma OnMessagePending(c: Config, s: State, m: Msg, now: nat, pos: nat)
    ensures OnMessage(c, s, m, now, pos).pending == s.pending - {m.context}
  {
    hide Encode, Touch, Report;
  }

  lemma CorrelatedReceive(c: Config, s: State, e: Event)
    requires Correlated(s) && e.Recv?
    ensures Correlated(Step(c, s, e))
  {
    hide DecodeBody, OnMessage, Correlated, ContextOf;
    if e.bytes != [] {
      ReceiveLog(c, s, e);
      OnMessagePending(c, s.(log := s.log + [Got(e.bytes, e.now)]), Decode(c.handler, e.bytes), e.now, |s.log|);
      CorrelatedAppend(s, Step(c, s, e), Got(e.bytes, e.now));
    }
  }

  lemma CorrelatedSend(c: Config, s: State, e: Event)
    requires Correlated(s) && Addressed(s) && e.Send?
    ensures Correlated(Step(c, s, e))
  {
    hide TakeDesc, TakeCount, Correlated, ContextOf, TypeOf;
    var v := c.handler.version;
    TakesKeep(v, s);
    TakesAddressed(v, s);
    var s1 := TakeCount(v, TakeDesc(v, s));
    if s1.outq != [] {
      assert s1.outq[0] in s1.outq;
      CorrelatedAppend(s, Step(c, s, e), Sent(s1.outq[0].bytes, e.now));
    } else {
      SamePending(s, Step(c, s, e));
    }
  }

  lemma SamePending(s: State, s': State)
    requires Correlated(s) && s'.log == s.log && s'.pending == s.pending
    ensures Correlated(s')
  {
  }

  lemma CorrelatedStep(c: Config, s: State, e: Event)
    requires Correlated(s) && Addressed(s)
    ensures Correlated(Step(c, s, e))
  {
    hide OnReceive, OnSend, Correlated, DueSet, ExpiredSet;
    match e
    case Recv(_, _) => CorrelatedReceive(c, s, e);
    case Send(_) => CorrelatedSend(c, s, e);
    case Scan(now) => CorrelatedAppend(s, Step(c, s, e), Scanned(DueSet(s, now), now));
    case Sweep(_) => SamePending(s, Step(c, s, e));
  }

  /** In every live run a context is in the map exactly when some request with that context was written and no
      message with that context has been written or received since; the map holds that request. */
  lemma {:induction false} CorrelationEqualsHistory(c: Config, s: State, evs: seq<Event>)
    requires Correlated(s) && Addressed(s)
    ensures Correlated(Exec(c, s, evs)) && Addressed(Exec(c, s, evs))
    decreases |evs|
  {
    hide Step, Correlated, Addressed;
    if evs != [] {
      CorrelatedStep(c, s, evs[0]);
      StepAddressed(c, s, evs[0]);
      CorrelationEqualsHistory(c, Step(c, s, evs[0]), evs[1..]);
    }
  }

  // ---- sequence numbers ----------------------------------------------------

  /** The requests written so far, in order. */
  function Written(log: seq<Entry>): seq<Bytes> {
    if log == [] then []
    else
      var en := log[|log| - 1];
      Written(log[..|log| - 1]) + (if en.Sent? then [en.bytes] else [])
  }

  lemma WrittenAppend(log: seq<Entry>, en: Entry)
    ensures Written(log + [en]) == Written(log) + (if en.Sent? then [en.bytes] else [])
  {
    assert (log + [en])[..|log|] == log;
  }

  /** The `i`-th request, counting from 0, carries context i + 1 modulo 2^16, and the queue continues the count. */
  ghost predicate Counted(s: State) {
    var w := Written(s.log);
    && s.seqnum == (|w| + |s.outq| + 1) % SEQ_MODULUS
    && (forall i :: 0 <= i < |w| ==> ContextOf(w[i]) == (i + 1) % SEQ_MODULUS)
    && (forall i :: 0 <= i < |s.outq| ==> s.outq[i].seqnum == (|w| + i + 1) % SEQ_MODULUS)
  }

  lemma CountedEnqueue(v: Version, s: State, r: Request)
    requires Counted(s)
    ensures Counted(Enqueue(v, s, r))
  {
    hide Encode, ContextOf;
  }

  lemma CountedWrite(s: State, now: nat)
    requires Counted(s) && Addressed(s)
    ensures Counted(WriteFirst(s, now))
  {
    hide ContextOf, TypeOf;
    if s.outq != [] {
      var q := s.outq[0];
      assert q in s.outq;
      WrittenAppend(s.log, Sent(q.bytes, now));
    }
  }

  lemma CountedSend(v: Version, s: State, now: nat)
    requires Counted(s) && Addressed(s)
    ensures Counted(OnSend(v, s, now))
  {
    hide Enqueue, Counted, Addressed, WriteFirst, IsMin, Wanted;
    var s1 := TakeDesc(v, s);
    if s.outq == [] && s.waitDesc != {} {
      var k := Min(s.waitDesc);
      CountedSame(s, s.(waitDesc := s.waitDesc - {k}));
      CountedEnqueue(v, s.(waitDesc := s.waitDesc - {k}), GetSrcDesc(k));
    }
    if s1.outq == [] && s1.waitCount.Keys != {} {
      var k := Min(s1.waitCount.Keys);
      CountedSame(s1, s1.(waitCount := s1.waitCount - {k}));
      CountedEnqueue(v, s1.(waitCount := s1.waitCount - {k}), QuerySrc(k));
    }
    TakesAddressed(v, s);
    CountedWrite(TakeCount(v, s1), now);
  }

  lemma CountedSame(s: State, s': State)
    requires Counted(s) && s'.seqnum == s.seqnum && s'.outq == s.outq && Written(s'.log) == Written(s.log)
    ensures Counted(s')
  {
  }

  lemma CountedControl(c: Config, s: State, b: Body)
    requires Counted(s) && (b.Success? || b.Error?)
    ensures Counted(OnControl(c, s, b))
  {
    hide Enqueue, ContextOf, Counted, Written;
    var s1 := if b.Error? then CountError(s, b.code) else s;
    CountedSame(s, s1.(phase := RequestUdp));
    CountedSame(s, s1.(phase := Running));
    CountedSame(s, s1);
    CountedEnqueue(c.handler.version, s1.(phase := RequestUdp), AddAllUdp);
  }

  lemma CountedReceive(c: Config, s: State, e: Event)
    requires Counted(s) && e.Recv?
    ensures Counted(Step(c, s, e))
  {
    hide DecodeBody, OnSource, OnControl, ContextOf, Counted, Written;
    if e.bytes != [] {
      var n, b := Noted(s, e.bytes, e.now), DecodeBody(c.handler, e.bytes);
      WrittenAppend(s.log, Got(e.bytes, e.now));
      CountedSame(s, n);
      if AboutSource(b) {
        ReceiveAbout(c, s, e);
        OnSourceKeepsQueue(n, b, e.now, |s.log|);
        CountedSame(s, Step(c, s, e));
      } else if !b.Unknown? {
        CountedControl(c, n, b);
      }
    }
  }

  lemma CountedStep(c: Config, s: State, e: Event)
    requires Counted(s) && Addressed(s)
    ensures Counted(Step(c, s, e))
  {
    hide OnReceive, OnSend, Counted, DueSet, ExpiredSet;
    match e
    case Recv(_, _) => CountedReceive(c, s, e);
    case Send(now) => CountedSend(c.handler.version, s, now);
    case Scan(now) =>
      WrittenAppend(s.log, Scanned(DueSet(s, now), now));
      CountedSame(s, Step(c, s, e));
    case Sweep(_) => CountedSame(s, Step(c, s, e));
  }

  /** In every live run the contexts on the wire are 1, 2, 3, ... modulo 2^16. */
  lemma {:induction false} ContextsCountRequests(c: Config, s: State, evs: seq<Event>)
    requires Counted(s) && Addressed(s)
    ensures Counted(Exec(c, s, evs))
    decreases |evs|
  {
    hide Step, Counted, Addressed;
    if evs != [] {
      CountedStep(c, s, evs[0]);
      StepAddressed(c, s, evs[0]);
      ContextsCountRequests(c, Step(c, s, evs[0]), evs[1..]);
    }
  }

  // ---- consequences --------------------------------------------------------

  lemma {:induction false} WrittenEntry(log: seq<Entry>, i: nat)
    requires i < |log| && log[i].Sent?
    ensures exists n: nat :: n < |Written(log)| && Written(log)[n] == log[i].bytes
    decreases |log|
  {
    if i == |log| - 1 {
      assert Written(log)[|Written(log)| - 1] == log[i].bytes;
    } else {
      WrittenEntry(log[..|log| - 1], i);
      var n: nat :| n < |Written(log[..|log| - 1])| && Written(log[..|log| - 1])[n] == log[i].bytes;
      assert Written(log)[n] == log[i].bytes;
    }
  }

  /** The number, counting from 1, of the first request with a context. */
  function FirstUse(context: nat): nat {
    if context == 0 then SEQ_MODULUS else context
  }

  predicate Carries(w: seq<Bytes>, i: nat, context: nat) {
    i < |w| && ContextOf(w[i]) == context
  }

  ghost predicate CarriedOnce(w: seq<Bytes>, context: nat) {
    exists i: nat :: Carries(w, i, context) && forall j: nat :: Carries(w, j, context) ==> j == i
  }

  lemma NumberedOnce(w: seq<Bytes>, context: nat, n: nat)
    requires forall i :: 0 <= i < |w| ==> ContextOf(w[i]) == (i + 1) % SEQ_MODULUS
    requires Carries(w, n, context)
    ensures CarriedOnce(w, context) <==> |w| < FirstUse(context) + SEQ_MODULUS
    ensures FirstUse(context) <= |w| && (|w| < FirstUse(context) + SEQ_MODULUS ==> n == FirstUse(context) - 1)
  {
    hide ContextOf;
    var first := FirstUse(context);
    assert context == (n + 1) % SEQ_MODULUS && first <= n + 1;
    if |w| < first + SEQ_MODULUS {
      forall j: nat | Carries(w, j, context)
        ensures j == n
      {
      }
    } else {
      assert Carries(w, first - 1, context) && Carries(w, first + SEQ_MODULUS - 1, context);
    }
  }

  /** A context awaiting its response stands for one written request only, the first with it, exactly until it comes
      round again. */
  lemma ContextIdentifiesRequest(s: State, context: nat)
    requires Correlated(s) && Counted(s) && context in s.pending
    ensures CarriedOnce(Written(s.log), context) <==> |Written(s.log)| < FirstUse(context) + SEQ_MODULUS
    ensures |Written(s.log)| < FirstUse(context) + SEQ_MODULUS ==>
              FirstUse(context) <= |Written(s.log)| && s.pending[context] == Written(s.log)[FirstUse(context) - 1]
  {
    hide ContextOf, Written, CarriedOnce, FirstUse;
    var i: nat :| Outstanding(s.log, context, i);
    WrittenEntry(s.log, i);
    var w := Written(s.log);
    var n: nat :| n < |w| && w[n] == s.log[i].bytes;
    NumberedOnce(w, context, n);
  }

  /** While fewer than 2^16 requests have been written, a response is matched to the one request that carried its
      context, and a notification, whose context is 0, to none. */
  lemma ResponsesFindTheirRequest(s: State, context: nat)
    requires Correlated(s) && Counted(s) && context in s.pending && |Written(s.log)| < SEQ_MODULUS
    ensures 1 <= context <= |Written(s.log)| && s.pending[context] == Written(s.log)[context - 1]
  {
    hide Correlated, Counted, Written;
    ContextIdentifiesRequest(s, context);
  }

  /** Any notification, whatever it says and whichever source it is about, drops the request awaiting a response
      under context 0, and no other. */
  lemma NotificationDropsContextZero(c: Config, s: State, n: Notice, payload: Bytes, now: nat)
    ensures Step(c, s, Recv(NoticeBytes(c.handler.version, n, payload), now)).pending == s.pending - {0}
  {
    hide DecodeBody, NoticeBytes, OnMessage, ContextOf;
    var bytes := NoticeBytes(c.handler.version, n, payload);
    NoticeHeader(c.handler.version, n, payload);
    OnMessagePending(c, s.(log := s.log + [Got(bytes, now)]), Decode(c.handler, bytes), now, |s.log|);
  }

  lemma {:induction false} BelowIsSmall(ks: set<nat>, n: nat)
    requires forall k :: k in ks ==> k < n
    ensures |ks| <= n
    decreases n
  {
    if n == 0 {
      assert ks == {};
    } else {
      BelowIsSmall(ks - {n - 1}, n - 1);
      assert ks <= (ks - {n - 1}) + {n - 1};
    }
  }

  /** The map never holds more than 2^16 requests. */
  lemma MapIsBounded(s: State)
    requires Correlated(s) && Counted(s)
    ensures |s.pending| <= 65536
  {
    hide ContextOf;
    forall context | context in s.pending.Keys
      ensures context < SEQ_MODULUS
    {
      var i: nat :| Outstanding(s.log, context, i);
      WrittenEntry(s.log, i);
    }
    BelowIsSmall(s.pending.Keys, SEQ_MODULUS);
    assert |s.pending| == |s.pending.Keys|;
  }
}
