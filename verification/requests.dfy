/** Which requests are written for a source: never for one that is gone, never twice for the same cause, and
    never too few to leave a source undescribed. */
module Requests {
  import opened ByteStrings
  import opened Options
  import opened Streams
  import opened Codec
  import opened Model
  import opened Cleanup
  import opened Isolation
  import opened ListenerProtocol
  import opened Draining

  predicate AsksDesc(v: Version, en: Entry, k: nat) {
    en.Sent? && TypeOf(en.bytes) == GET_SRC_DESC && RefField(v, en.bytes) == k
  }

  predicate AsksCounts(v: Version, en: Entry, k: nat) {
    en.Sent? && TypeOf(en.bytes) == QUERY_SRC && RefField(v, en.bytes) == k
  }

  /** Only subscriptions are left in the queue between events; the other requests are written as they are made. */
  ghost predicate OnlySubscriptions(s: State) {
    s.seqnum < SEQ_MODULUS && forall q :: q in s.outq ==> TypeOf(q.bytes) == ADD_ALL_SRCS
  }

  lemma SubscriptionQueued(v: Version, s: State, r: Request)
    requires OnlySubscriptions(s) && (r.AddAllTcp? || r.AddAllUdp?)
    ensures OnlySubscriptions(Enqueue(v, s, r))
  {
    EncodeHeader(v, s.seqnum, r);
    hide Encode, TypeOf;
  }

  /** The request a call of the sender writes, and the state it is written in. */
  datatype Outcome = Nothing | Subscription | Desc(k: nat) | Counts(k: nat) | Dropped(k: nat)

  ghost function OutcomeOf(s: State): Outcome {
    if s.outq != [] then Subscription
    else if s.waitDesc != {} then Desc(Min(s.waitDesc))
    else if s.waitCount.Keys != {} then
      var k := Min(s.waitCount.Keys);
      if Wanted(s, k) then Counts(k) else Dropped(k)
    else Nothing
  }

  lemma WaitingRefsFit(v: Version, s: State)
    requires WF(v, s)
    ensures forall k :: k in s.waitDesc || k in s.waitCount ==> FitsRef(v, k)
  {
    hide FitsRef;
  }

  /** What the call does, read off its outcome. */
  lemma SendOutcome(c: Config, s: State, e: Event)
    requires WF(c.handler.version, s) && OnlySubscriptions(s) && e.Send?
    ensures var s', o, v := Step(c, s, e), OutcomeOf(s), c.handler.version;
            && s'.sources == s.sources && OnlySubscriptions(s')
            && s'.waitDesc == (if o.Desc? then s.waitDesc - {o.k} else s.waitDesc)
            && s'.waitCount == (if o.Counts? || o.Dropped? then s.waitCount - {o.k} else s.waitCount)
            && (o.Nothing? || o.Dropped? ==> s'.log == s.log)
            && (!o.Nothing? && !o.Dropped? ==>
                  exists b :: s'.log == s.log + [Sent(b, e.now)] &&
                    (forall k :: AsksDesc(v, Sent(b, e.now), k) <==> o == Desc(k)) &&
                    (forall k :: AsksCounts(v, Sent(b, e.now), k) <==> o == Counts(k)))
  {
    hide Encode, TypeOf, RefField, IsMin, WF, OnSend, FitsRef;
    var v, s' := c.handler.version, Step(c, s, e);
    WaitingRefsFit(v, s);
    if s.outq != [] {
      QueuedOutcome(v, s, e.now);
      assert s.outq[0] in s.outq;
      assert s'.log == s.log + [Sent(s.outq[0].bytes, e.now)];
    } else if s.waitDesc != {} {
      DescOutcome(v, s, e.now);
      var k := Min(s.waitDesc);
      RequestFields(v, s.seqnum, GetSrcDesc(k));
    } else if s.waitCount.Keys != {} {
      CountOutcome(v, s, e.now);
      var k := Min(s.waitCount.Keys);
      RequestFields(v, s.seqnum, QuerySrc(k));
    } else {
      SendNothing(v, s, e.now);
    }
  }

  /** The reference of a request survives the codec: the invariant keeps it within the version's width. */
  lemma RequestFields(v: Version, context: nat, r: Request)
    requires context < SEQ_MODULUS && (r.GetSrcDesc? || r.QuerySrc?) && FitsRef(v, r.ref)
    ensures TypeOf(Encode(v, context, r)) == RequestType(r) && RefField(v, Encode(v, context, r)) == r.ref
  {
    hide Encode, TypeOf, RefField;
    EncodeHeader(v, context, r);
    EncodeRef(v, context, r);
    ModIdentity(r.ref, Pow256(RefWidth(v)));
  }

  // ---- waiting tables and log after an event --------------------------------

  /** A received description of the source. */
  predicate LogsDesc(c: Config, en: Entry, k: nat) {
    en.Got? && en.bytes != [] && DecodeBody(c.handler, en.bytes).SrcDesc? && DecodeBody(c.handler, en.bytes).ref == k
  }

  predicate Describes(c: Config, e: Event, k: nat) {
    IsAbout(c, e) && DecodeBody(c.handler, e.bytes).SrcDesc? && DecodeBody(c.handler, e.bytes).ref == k
  }

  /** One entry at most is logged; what it says about a source is what the event was. */
  ghost predicate Logs(c: Config, s: State, e: Event, k: nat, en: Entry) {
    && Step(c, s, e).log == s.log + [en]
    && (LogsAdd(c, en, k) <==> Adds(c, e, k)) && (LogsRemove(c, en, k) <==> Removes(c, e, k))
    && (LogsDesc(c, en, k) <==> Describes(c, e, k))
    && (en.Scanned? <==> e.Scan?) && (e.Scan? ==> en.due == DueSet(s, e.now))
    && (AsksDesc(c.handler.version, en, k) <==> e.Send? && OutcomeOf(s) == Desc(k))
    && (AsksCounts(c.handler.version, en, k) <==> e.Send? && OutcomeOf(s) == Counts(k))
  }

  /** An event that is not logged leaves the waiting tables alone, but for a stale entry being dropped. */
  ghost predicate Silent(c: Config, s: State, e: Event) {
    && Step(c, s, e).log == s.log && !IsAbout(c, e) && !e.Scan?
    && (e.Send? ==> OutcomeOf(s).Nothing? || OutcomeOf(s).Dropped?)
  }

  lemma EventLogged(c: Config, s: State, e: Event, k: nat)
    requires WF(c.handler.version, s) && OnlySubscriptions(s)
    ensures Silent(c, s, e) || exists en :: Logs(c, s, e, k, en)
  {
    hide DecodeBody, OnReceive, OnSend, OutcomeOf, WF, OnlySubscriptions, DueSet, ExpiredSet, TypeOf, RefField;
    match e
    case Recv(bytes, now) =>
      ReceiveLog(c, s, e);
      if bytes != [] {
        assert Logs(c, s, e, k, Got(bytes, now));
      }
    case Send(now) =>
      SendOutcome(c, s, e);
      if Step(c, s, e).log != s.log {
        var b :| Step(c, s, e).log == s.log + [Sent(b, now)] &&
                 (forall j :: AsksDesc(c.handler.version, Sent(b, now), j) <==> OutcomeOf(s) == Desc(j)) &&
                 (forall j :: AsksCounts(c.handler.version, Sent(b, now), j) <==> OutcomeOf(s) == Counts(j));
        assert Logs(c, s, e, k, Sent(b, now));
      }
    case Scan(now) =>
      assert Logs(c, s, e, k, Scanned(DueSet(s, now), now));
    case Sweep(_) =>
  }

  /** How an event changes whether a source waits. */
  lemma WaitingAfter(c: Config, s: State, e: Event, k: nat)
    requires WF(c.handler.version, s) && OnlySubscriptions(s)
    ensures var s' := Step(c, s, e);
            && (k in s'.waitDesc ==> k in s.waitDesc || Adds(c, e, k))
            && (k in s.waitDesc && k !in s'.waitDesc ==>
                  Removes(c, e, k) || Describes(c, e, k) || (e.Send? && OutcomeOf(s) == Desc(k)))
            && (k in s'.waitCount ==> k in s.waitCount || (e.Scan? && k in DueSet(s, e.now)))
            && (e.Send? && OutcomeOf(s) == Desc(k) ==> k in s.waitDesc && k !in s'.waitDesc)
            && (e.Send? && OutcomeOf(s) == Counts(k) ==> k in s.waitCount && k !in s'.waitCount)
            && OnlySubscriptions(s')
  {
    hide DecodeBody, OnSend, Report, ReadDesc, ReadCounts, Enqueue, WF, TypeOf, Due, Expired, OnlySubscriptions, IsMin;
    if IsAbout(c, e) {
      ReceiveAbout(c, s, e);
      SameQueue(s, Step(c, s, e));
    } else if e.Send? {
      SendOutcome(c, s, e);
    } else if e.Recv? {
      ControlKeepsWaiting(c, s, e);
    } else {
      SameQueue(s, Step(c, s, e));
    }
  }

  lemma SameQueue(s: State, s': State)
    requires OnlySubscriptions(s) && s'.outq == s.outq && s'.seqnum == s.seqnum
    ensures OnlySubscriptions(s')
  {
  }

  lemma ControlKeepsWaiting(c: Config, s: State, e: Event)
    requires e.Recv? && !IsAbout(c, e) && OnlySubscriptions(s)
    ensures Step(c, s, e).waitDesc == s.waitDesc && Step(c, s, e).waitCount == s.waitCount
    ensures OnlySubscriptions(Step(c, s, e))
  {
    hide DecodeBody, Enqueue, OnSource, TypeOf, Encode, OnlySubscriptions;
    if e.bytes != [] {
      var n, b, v := Noted(s, e.bytes, e.now), DecodeBody(c.handler, e.bytes), c.handler.version;
      var s1 := if b.Error? then CountError(n, b.code) else n;
      SameQueue(s, s1.(phase := RequestUdp));
      SameQueue(s, s1);
      SubscriptionQueued(v, s1.(phase := RequestUdp), AddAllUdp);
      EnqueueKeepsWaiting(v, s1.(phase := RequestUdp), AddAllUdp);
      SameQueue(s, s1.(phase := Running));
    }
  }

  lemma EnqueueKeepsWaiting(v: Version, s: State, r: Request)
    ensures Enqueue(v, s, r).waitDesc == s.waitDesc && Enqueue(v, s, r).waitCount == s.waitCount
  {
  }

  // ---- no request is duplicated ---------------------------------------------

  /** How many entries of the log are requests for the source's description, requests for its counts, arrivals of
      the source, and scans that selected it. */
  datatype Tally = Tally(descs: nat, counts: nat, adds: nat, scans: nat)

  function TallyOf(c: Config, log: seq<Entry>, k: nat): Tally {
    if log == [] then Tally(0, 0, 0, 0)
    else
      var t := TallyOf(c, log[..|log| - 1], k);
      var en := log[|log| - 1];
      Tally(t.descs + (if AsksDesc(c.handler.version, en, k) then 1 else 0),
            t.counts + (if AsksCounts(c.handler.version, en, k) then 1 else 0),
            t.adds + (if LogsAdd(c, en, k) then 1 else 0),
            t.scans + (if en.Scanned? && k in en.due then 1 else 0))
  }

  ghost predicate Justified(c: Config, s: State, k: nat) {
    var t := TallyOf(c, s.log, k);
    && t.descs + (if k in s.waitDesc then 1 else 0) <= t.adds
    && t.counts + (if k in s.waitCount then 1 else 0) <= t.scans
  }

  lemma JustifiedAfter(c: Config, s: State, e: Event, k: nat)
    requires WF(c.handler.version, s) && OnlySubscriptions(s) && Justified(c, s, k)
    ensures Justified(c, Step(c, s, e), k) && OnlySubscriptions(Step(c, s, e))
  {
    hide Step, WF, OnlySubscriptions, OutcomeOf, DueSet, AsksDesc, AsksCounts, LogsAdd, Adds, Removes, Describes;
    EventLogged(c, s, e, k);
    WaitingAfter(c, s, e, k);
    var s' := Step(c, s, e);
    if Silent(c, s, e) {
      NotAboutAny(c, e, k);
    } else {
      var en :| Logs(c, s, e, k, en);
      assert s'.log[..|s'.log| - 1] == s.log;
    }
  }

  lemma NotAboutAny(c: Config, e: Event, k: nat)
    requires !IsAbout(c, e)
    ensures !Adds(c, e, k) && !Removes(c, e, k) && !Describes(c, e, k)
  {
  }

  /** In every run and for every source: a description is asked for at most once per arrival, and counts at most
      once per scan that selected the source, what still waits included. */
  lemma {:induction false} NoRequestDuplicated(c: Config, s: State, evs: seq<Event>, k: nat)
    requires WF(c.handler.version, s) && OnlySubscriptions(s) && Justified(c, s, k)
    requires forall i :: 0 <= i < |evs| ==> evs[i].now > 0
    ensures Justified(c, Exec(c, s, evs), k)
    decreases |evs|
  {
    hide WF, OnlySubscriptions, Justified, Step;
    if evs != [] {
      StepKeepsWF(c, s, evs[0]);
      JustifiedAfter(c, s, evs[0], k);
      NoRequestDuplicated(c, Step(c, s, evs[0]), evs[1..], k);
    }
  }

  // ---- no request is for a source that is gone -------------------------------

  predicate Asks(v: Version, en: Entry, k: nat) {
    AsksDesc(v, en, k) || AsksCounts(v, en, k)
  }

  /** The table's live sources are those that the log says are live, and every request written for a source was
      written while it was live. */
  ghost predicate Targeted(c: Config, s: State, k: nat) {
    && (IsLive(s, k) <==> LiveAt(c, s.log, k, |s.log|))
    && (forall i :: 0 <= i < |s.log| && Asks(c.handler.version, s.log[i], k) ==> LiveAt(c, s.log, k, i))
  }

  lemma TargetIsLive(v: Version, s: State, k: nat)
    requires WF(v, s) && (OutcomeOf(s) == Desc(k) || OutcomeOf(s) == Counts(k))
    ensures IsLive(s, k)
  {
    hide HasPorts, FitsRef;
  }

  lemma TargetedAppend(c: Config, s: State, s': State, en: Entry, k: nat)
    requires Targeted(c, s, k) && s'.log == s.log + [en]
    requires IsLive(s', k) <==> LogsAdd(c, en, k) || (IsLive(s, k) && !LogsRemove(c, en, k))
    requires Asks(c.handler.version, en, k) ==> IsLive(s, k)
    ensures Targeted(c, s', k)
  {
    hide AsksDesc, AsksCounts, LogsAdd, LogsRemove, LiveAt, IsLive;
    LiveAfter(c, s.log, en, k);
    forall i | 0 <= i < |s'.log| && Asks(c.handler.version, s'.log[i], k)
      ensures LiveAt(c, s'.log, k, i)
    {
      LiveAtPrefix(c, s.log, [en], k, i);
      if i < |s.log| {
        assert s'.log[i] == s.log[i];
      }
    }
  }

  lemma TargetedAfter(c: Config, s: State, e: Event, k: nat)
    requires WF(c.handler.version, s) && OnlySubscriptions(s) && Targeted(c, s, k) && e.now > 0
    ensures Targeted(c, Step(c, s, e), k)
  {
    hide Step, WF, OnlySubscriptions, OutcomeOf, DueSet, AsksDesc, AsksCounts, LogsAdd, LogsRemove, LogsDesc;
    hide Adds, Removes, Describes, LiveAt, IsLive;
    EventLogged(c, s, e, k);
    LifeAfter(c, s, e, k);
    if Silent(c, s, e) {
      NotAboutAny(c, e, k);
    } else {
      var en :| Logs(c, s, e, k, en);
      if e.Send? && (OutcomeOf(s) == Desc(k) || OutcomeOf(s) == Counts(k)) {
        TargetIsLive(c.handler.version, s, k);
      }
      TargetedAppend(c, s, Step(c, s, e), en, k);
    }
  }

  /** In every run, no description and no counts are ever asked for of a source that is not live at that moment. */
  lemma {:induction false} OnlyLiveSourcesAsked(c: Config, s: State, evs: seq<Event>, k: nat)
    requires WF(c.handler.version, s) && OnlySubscriptions(s) && Targeted(c, s, k)
    requires forall i :: 0 <= i < |evs| ==> evs[i].now > 0
    ensures Targeted(c, Exec(c, s, evs), k)
    decreases |evs|
  {
    hide WF, OnlySubscriptions, Targeted, Step;
    if evs != [] {
      StepKeepsWF(c, s, evs[0]);
      TargetedAfter(c, s, evs[0], k);
      WaitingAfter(c, s, evs[0], k);
      OnlyLiveSourcesAsked(c, Step(c, s, evs[0]), evs[1..], k);
    }
  }

  // ---- no source is forgotten ------------------------------------------------

  /** The source's present life: it arrived with entry `a` and has not been removed since. */
  ghost predicate LivesSince(c: Config, log: seq<Entry>, k: nat, a: nat) {
    a < |log| && LogsAdd(c, log[a], k) && forall p :: a < p < |log| ==> !LogsRemove(c, log[p], k)
  }

  /** Its description has been asked for, or one has been received, after entry `a`. */
  ghost predicate TriedSince(c: Config, log: seq<Entry>, k: nat, a: nat) {
    exists i :: a < i < |log| && (AsksDesc(c.handler.version, log[i], k) || LogsDesc(c, log[i], k))
  }

  ghost predicate Remembered(c: Config, s: State, k: nat) {
    IsLive(s, k) ==>
      exists a: nat :: LivesSince(c, s.log, k, a) &&
        (s.sources[k].haveDesc || k in s.waitDesc || TriedSince(c, s.log, k, a))
  }

  /** How an event changes whether a live source is described or waiting. */
  lemma DescribedAfter(c: Config, s: State, e: Event, k: nat)
    requires WF(c.handler.version, s) && OnlySubscriptions(s) && e.now > 0 && IsLive(Step(c, s, e), k)
    ensures var s' := Step(c, s, e);
            && (Adds(c, e, k) ==> s'.sources[k].haveDesc || k in s'.waitDesc)
            && (!Adds(c, e, k) ==> IsLive(s, k) && (s.sources[k].haveDesc ==> s'.sources[k].haveDesc))
  {
    hide DecodeBody, OnReceive, OnSend, Report, ReadDesc, ReadCounts, WF, Due, Expired, OnlySubscriptions, Fresh;
    SourceAfter(c, s, e, k);
    var s' := Step(c, s, e);
    assert Lookup(s.sources, k) == if k in s.sources then Some(s.sources[k]) else None;
    assert Lookup(s'.sources, k) == if k in s'.sources then Some(s'.sources[k]) else None;
    if Adds(c, e, k) {
      ReceiveAbout(c, s, e);
    }
  }

  lemma LivesOn(c: Config, log: seq<Entry>, en: Entry, k: nat, a: nat)
    requires LivesSince(c, log, k, a) && !LogsRemove(c, en, k)
    ensures LivesSince(c, log + [en], k, a)
    ensures TriedSince(c, log, k, a) || AsksDesc(c.handler.version, en, k) || LogsDesc(c, en, k) ==>
              TriedSince(c, log + [en], k, a)
  {
    hide LogsAdd, LogsRemove, LogsDesc, AsksDesc;
    var log' := log + [en];
    assert log'[|log|] == en;
    if TriedSince(c, log, k, a) {
      var i :| a < i < |log| && (AsksDesc(c.handler.version, log[i], k) || LogsDesc(c, log[i], k));
      assert log'[i] == log[i];
    }
  }

  lemma RememberedAfter(c: Config, s: State, e: Event, k: nat)
    requires WF(c.handler.version, s) && OnlySubscriptions(s) && Remembered(c, s, k) && e.now > 0
    ensures Remembered(c, Step(c, s, e), k)
  {
    hide Step, WF, OnlySubscriptions, OutcomeOf, DueSet, AsksDesc, AsksCounts, LogsAdd, LogsRemove, LogsDesc;
    hide Adds, Removes, Describes, LivesSince, TriedSince;
    var s' := Step(c, s, e);
    EventLogged(c, s, e, k);
    WaitingAfter(c, s, e, k);
    LifeAfter(c, s, e, k);
    if IsLive(s', k) {
      DescribedAfter(c, s, e, k);
      if Silent(c, s, e) {
        NotAboutAny(c, e, k);
        var a: nat :| LivesSince(c, s.log, k, a) &&
                      (s.sources[k].haveDesc || k in s.waitDesc || TriedSince(c, s.log, k, a));
        assert LivesSince(c, s'.log, k, a);
      } else {
        var en :| Logs(c, s, e, k, en);
        if Adds(c, e, k) && !IsLive(s, k) {
          BornNow(c, s.log, en, k);
          assert LivesSince(c, s'.log, k, |s.log|);
        } else {
          var a: nat :| LivesSince(c, s.log, k, a) &&
                        (s.sources[k].haveDesc || k in s.waitDesc || TriedSince(c, s.log, k, a));
          if Adds(c, e, k) {
            AddIsNotRemove(c, en, k);
          }
          LivesOn(c, s.log, en, k, a);
          assert LivesSince(c, s'.log, k, a);
        }
      }
    }
  }

  lemma AddIsNotRemove(c: Config, en: Entry, k: nat)
    requires LogsAdd(c, en, k)
    ensures !LogsRemove(c, en, k)
  {
  }

  lemma BornNow(c: Config, log: seq<Entry>, en: Entry, k: nat)
    requires LogsAdd(c, en, k)
    ensures LivesSince(c, log + [en], k, |log|)
  {
    hide LogsAdd, LogsRemove;
  }

  /** In every run, a live source is described, or waits to be asked about, or has been asked about or answered for
      since it arrived. */
  lemma {:induction false} NoSourceForgotten(c: Config, s: State, evs: seq<Event>, k: nat)
    requires WF(c.handler.version, s) && OnlySubscriptions(s) && Remembered(c, s, k)
    requires forall i :: 0 <= i < |evs| ==> evs[i].now > 0
    ensures Remembered(c, Exec(c, s, evs), k)
    decreases |evs|
  {
    hide WF, OnlySubscriptions, Remembered, Step;
    if evs != [] {
      StepKeepsWF(c, s, evs[0]);
      RememberedAfter(c, s, evs[0], k);
      WaitingAfter(c, s, evs[0], k);
      NoSourceForgotten(c, Step(c, s, evs[0]), evs[1..], k);
    }
  }
}
