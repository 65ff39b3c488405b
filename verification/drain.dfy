/** What repeated sending writes: a conservation law over the queue and the two waiting tables. */
module Draining {
  import opened ByteStrings
  import opened Codec
  import opened Model
  import opened Correlation

  /** The elements of a set from the least up. */
  ghost function Ascending(ks: set<nat>): (r: seq<nat>)
    ensures forall k :: k in r <==> k in ks
    ensures |r| == |ks|
    decreases |ks|
  {
    if ks == {} then [] else [Min(ks)] + Ascending(ks - {Min(ks)})
  }

  lemma {:induction false} AscendingIsSorted(ks: set<nat>)
    ensures forall i, j :: 0 <= i < j < |Ascending(ks)| ==> Ascending(ks)[i] < Ascending(ks)[j]
    decreases |ks|
  {
    if ks != {} {
      var k, rest := Min(ks), Ascending(ks - {Min(ks)});
      AscendingIsSorted(ks - {k});
      assert forall j :: 0 <= j < |rest| ==> rest[j] in ks - {k};
      assert forall j :: 0 <= j < |rest| ==> k < rest[j];
    }
  }

  function Descriptions(ks: seq<nat>): seq<Request> {
    if ks == [] then [] else [GetSrcDesc(ks[0])] + Descriptions(ks[1..])
  }

  /** Queries for those sources that are still live and still without the counts they wait for. */
  function Queries(s: State, ks: seq<nat>): seq<Request> {
    if ks == [] then []
    else (if ks[0] in s.waitCount && Wanted(s, ks[0]) then [QuerySrc(ks[0])] else []) + Queries(s, ks[1..])
  }

  /** Requests as they go on the wire, numbered from `n`. */
  function Numbered(v: Version, n: nat, rs: seq<Request>): seq<Bytes>
    decreases |rs|
  {
    if rs == [] then [] else [Encode(v, n, rs[0])] + Numbered(v, (n + 1) % SEQ_MODULUS, rs[1..])
  }

  function Queued(q: seq<QMsg>): seq<Bytes> {
    if q == [] then [] else [q[0].bytes] + Queued(q[1..])
  }

  /** What is still to be written: the queue, then descriptions, then wanted counts, each by ascending reference. */
  ghost function Plan(v: Version, s: State): seq<Bytes> {
    Queued(s.outq) +
    Numbered(v, s.seqnum, Descriptions(Ascending(s.waitDesc)) + Queries(s, Ascending(s.waitCount.Keys)))
  }

  ghost function Backlog(s: State): nat {
    |s.outq| + |s.waitDesc| + |s.waitCount.Keys|
  }

  // ---- one call ------------------------------------------------------------

  lemma {:induction false} QueriesAgree(s: State, s': State, ks: seq<nat>)
    requires s'.sources == s.sources
    requires forall k :: k in ks ==> k in s.waitCount && k in s'.waitCount && s'.waitCount[k] == s.waitCount[k]
    ensures Queries(s', ks) == Queries(s, ks)
  {
    if ks != [] {
      QueriesAgree(s, s', ks[1..]);
    }
  }

  /** The state after the message at the head of a one-message queue has been written. */
  function Wrote(s: State, b: Bytes, now: nat): State {
    s.(pending := s.pending[s.seqnum := b], seqnum := (s.seqnum + 1) % SEQ_MODULUS, log := s.log + [Sent(b, now)])
  }

  lemma QueuedOutcome(v: Version, s: State, now: nat)
    requires s.outq != []
    ensures OnSend(v, s, now) == WriteFirst(s, now)
  {
    hide Encode;
  }

  lemma DescOutcome(v: Version, s: State, now: nat)
    requires s.outq == [] && s.waitDesc != {}
    ensures var k := Min(s.waitDesc);
            OnSend(v, s, now) == Wrote(s.(waitDesc := s.waitDesc - {k}), Encode(v, s.seqnum, GetSrcDesc(k)), now)
  {
    hide Encode, IsMin;
  }

  lemma CountOutcome(v: Version, s: State, now: nat)
    requires s.outq == [] && s.waitDesc == {} && s.waitCount.Keys != {}
    ensures var k := Min(s.waitCount.Keys);
            var s1 := s.(waitCount := s.waitCount - {k});
            OnSend(v, s, now) == if Wanted(s, k) then Wrote(s1, Encode(v, s.seqnum, QuerySrc(k)), now) else s1
  {
    hide Encode, IsMin, Wanted;
  }

  lemma SendQueued(v: Version, s: State, now: nat)
    requires s.outq != []
    ensures var s' := OnSend(v, s, now);
            Written(s'.log) + Plan(v, s') == Written(s.log) + Plan(v, s) && Backlog(s') == Backlog(s) - 1
  {
    hide Encode, Numbered, Descriptions, Ascending, Queries, Written, OnSend;
    var s' := OnSend(v, s, now);
    QueuedOutcome(v, s, now);
    WrittenAppend(s.log, Sent(s.outq[0].bytes, now));
    QueriesAgree(s, s', Ascending(s.waitCount.Keys));
  }

  lemma NumberedCons(v: Version, n: nat, r: Request, rs: seq<Request>)
    ensures Numbered(v, n, [r] + rs) == [Encode(v, n, r)] + Numbered(v, (n + 1) % SEQ_MODULUS, rs)
  {
    hide Encode;
    assert ([r] + rs)[1..] == rs;
  }

  lemma DescriptionsCons(ks: set<nat>)
    requires ks != {}
    ensures Descriptions(Ascending(ks)) == [GetSrcDesc(Min(ks))] + Descriptions(Ascending(ks - {Min(ks)}))
  {
    assert Ascending(ks)[1..] == Ascending(ks - {Min(ks)});
  }

  lemma QueriesCons(s: State, ks: set<nat>)
    requires ks != {}
    ensures Queries(s, Ascending(ks)) ==
            (if Min(ks) in s.waitCount && Wanted(s, Min(ks)) then [QuerySrc(Min(ks))] else []) +
            Queries(s, Ascending(ks - {Min(ks)}))
  {
    hide Wanted;
    assert Ascending(ks)[1..] == Ascending(ks - {Min(ks)});
  }

  lemma PlanOfEmptyQueue(v: Version, s: State)
    requires s.outq == []
    ensures Plan(v, s) ==
            Numbered(v, s.seqnum, Descriptions(Ascending(s.waitDesc)) + Queries(s, Ascending(s.waitCount.Keys)))
  {
    hide Numbered, Descriptions, Queries, Ascending;
  }

  lemma BacklogShrinks(v: Version, s: State, now: nat)
    requires s.outq == [] && (s.waitDesc != {} || s.waitCount.Keys != {})
    ensures Backlog(OnSend(v, s, now)) == Backlog(s) - 1
  {
    hide Encode, IsMin, Wanted, OnSend;
    if s.waitDesc != {} {
      DescOutcome(v, s, now);
    } else {
      CountOutcome(v, s, now);
      var k := Min(s.waitCount.Keys);
      assert (s.waitCount - {k}).Keys == s.waitCount.Keys - {k};
    }
  }

  lemma SendDesc(v: Version, s: State, now: nat)
    requires s.outq == [] && s.waitDesc != {}
    ensures var s' := OnSend(v, s, now);
            Written(s'.log) + Plan(v, s') == Written(s.log) + Plan(v, s) && Backlog(s') == Backlog(s) - 1
  {
    hide Encode, Numbered, IsMin, OnSend, Plan, Queries, Written, Descriptions, Ascending, Backlog;
    BacklogShrinks(v, s, now);
    DescOutcome(v, s, now);
    var k := Min(s.waitDesc);
    var s' := OnSend(v, s, now);
    WrittenAppend(s.log, Sent(Encode(v, s.seqnum, GetSrcDesc(k)), now));
    QueriesAgree(s, s', Ascending(s.waitCount.Keys));
    PlanOfEmptyQueue(v, s);
    PlanOfEmptyQueue(v, s');
    DescriptionsCons(s.waitDesc);
    var ds, qs := Descriptions(Ascending(s'.waitDesc)), Queries(s, Ascending(s.waitCount.Keys));
    assert [GetSrcDesc(k)] + ds + qs == [GetSrcDesc(k)] + (ds + qs);
    NumberedCons(v, s.seqnum, GetSrcDesc(k), ds + qs);
  }

  lemma NoDescriptions()
    ensures Descriptions(Ascending({})) == []
  {
  }

  lemma SendCount(v: Version, s: State, now: nat)
    requires s.outq == [] && s.waitDesc == {} && s.waitCount.Keys != {}
    ensures var s' := OnSend(v, s, now);
            Written(s'.log) + Plan(v, s') == Written(s.log) + Plan(v, s) && Backlog(s') == Backlog(s) - 1
  {
    hide Encode, Numbered, IsMin, Wanted, OnSend, Plan, Queries, Written, Descriptions, Ascending, Backlog;
    BacklogShrinks(v, s, now);
    CountOutcome(v, s, now);
    var k := Min(s.waitCount.Keys);
    var s' := OnSend(v, s, now);
    assert s'.waitCount.Keys == s.waitCount.Keys - {k};
    var rest := Ascending(s.waitCount.Keys - {k});
    QueriesAgree(s, s', rest);
    QueriesCons(s, s.waitCount.Keys);
    NoDescriptions();
    PlanOfEmptyQueue(v, s);
    PlanOfEmptyQueue(v, s');
    assert [] + Queries(s, rest) == Queries(s, rest);
    if Wanted(s, k) {
      WrittenAppend(s.log, Sent(Encode(v, s.seqnum, QuerySrc(k)), now));
      assert [] + ([QuerySrc(k)] + Queries(s, rest)) == [QuerySrc(k)] + Queries(s, rest);
      NumberedCons(v, s.seqnum, QuerySrc(k), Queries(s, rest));
    }
  }

  /** One call writes the head of the plan, and the backlog shrinks by exactly one while there is any. */
  lemma SendFollowsPlan(v: Version, s: State, now: nat)
    ensures var s' := OnSend(v, s, now);
            Written(s'.log) + Plan(v, s') == Written(s.log) + Plan(v, s) &&
            Backlog(s') == if Backlog(s) == 0 then 0 else Backlog(s) - 1
  {
    hide Plan, OnSend, Backlog;
    if s.outq != [] {
      SendQueued(v, s, now);
      SomeBacklog(s);
    } else if s.waitDesc != {} {
      SendDesc(v, s, now);
      SomeBacklog(s);
    } else if s.waitCount.Keys != {} {
      SendCount(v, s, now);
      SomeBacklog(s);
    } else {
      SendNothing(v, s, now);
    }
  }

  lemma SomeBacklog(s: State)
    requires s.outq != [] || s.waitDesc != {} || s.waitCount.Keys != {}
    ensures Backlog(s) > 0
  {
  }

  lemma SendNothing(v: Version, s: State, now: nat)
    requires s.outq == [] && s.waitDesc == {} && s.waitCount.Keys == {}
    ensures OnSend(v, s, now) == s && Backlog(s) == 0
  {
  }

  /** Sending without other events until the backlog is gone writes exactly the plan. */
  lemma {:induction false} DrainWritesPlan(c: Config, s: State, evs: seq<Event>)
    requires forall i :: 0 <= i < |evs| ==> evs[i].Send?
    requires |evs| >= Backlog(s)
    ensures var s' := Exec(c, s, evs);
            && Written(s'.log) == Written(s.log) + Plan(c.handler.version, s)
            && s'.outq == [] && s'.waitDesc == {} && s'.waitCount == map[]
    decreases |evs|
  {
    hide Plan, OnSend, Backlog;
    var v := c.handler.version;
    if evs == [] {
      NoBacklog(v, s);
    } else {
      SendFollowsPlan(v, s, evs[0].now);
      DrainWritesPlan(c, OnSend(v, s, evs[0].now), evs[1..]);
    }
  }

  lemma NoBacklog(v: Version, s: State)
    requires Backlog(s) == 0
    ensures s.outq == [] && s.waitDesc == {} && s.waitCount == map[] && Plan(v, s) == []
  {
    assert s.waitCount.Keys == {};
  }
}
