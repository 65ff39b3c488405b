/** The order in which a listener hears about one source. */
module ListenerProtocol {
  import opened Options
  import opened Streams
  import opened Codec
  import opened Model
  import opened Cleanup
  import opened Isolation

  /** The kinds of the callbacks about one source. */
  function Kinds(calls: seq<Call>, k: nat): seq<CallKind> {
    if calls == [] then []
    else
      var n := |calls| - 1;
      Kinds(calls[..n], k) + (if calls[n].stream.id == k then [calls[n].kind] else [])
  }

  lemma KindsOne(calls: seq<Call>, more: seq<Call>, k: nat)
    requires |more| <= 1
    ensures Kinds(calls + more, k) == Kinds(calls, k) + Kinds(more, k)
  {
    if more == [] {
      assert calls + more == calls;
    } else {
      assert (calls + more)[..|calls|] == calls && more[..0] == [];
    }
  }

  /** A prefix of (Added Update* Removed)*: an arrival comes first or after a departure, and nothing else does. */
  predicate Alternating(kinds: seq<CallKind>) {
    && (kinds != [] ==> kinds[0] == OnAdded)
    && (forall i :: 0 < i < |kinds| ==> (kinds[i] == OnAdded <==> kinds[i - 1] == OnRemoved))
  }

  predicate Open(kinds: seq<CallKind>) {
    kinds != [] && kinds[|kinds| - 1] != OnRemoved
  }

  /** What a listener may expect of the kernel: after its removal nothing is said about a source until it is added
      again, and once described a source does not gain or lose its ports. */
  ghost predicate Conforms(c: Config, s: State, e: Event) {
    IsAbout(c, e) ==>
      var b := DecodeBody(c.handler, e.bytes);
      b.ref in s.sources ==>
        var src := s.sources[b.ref];
        && (src.tsRemoved > 0 ==> b.SrcAdded?)
        && (b.SrcDesc? && src.haveDesc && ReadDesc(src.obj, b.desc).Some? ==>
              (HasPorts(ReadDesc(src.obj, b.desc).value) <==> HasPorts(src.obj)))
  }

  ghost predicate ConformingRun(c: Config, s: State, evs: seq<Event>)
    decreases |evs|
  {
    evs == [] || (Conforms(c, s, evs[0]) && ConformingRun(c, Step(c, s, evs[0]), evs[1..]))
  }

  predicate LiveWithPorts(o: Option<Source>) {
    o.Some? && o.value.tsRemoved == 0 && HasPorts(o.value.obj)
  }

  predicate InStepOption(kinds: seq<CallKind>, o: Option<Source>) {
    Alternating(kinds) && (Open(kinds) <==> LiveWithPorts(o))
  }

  /** The callbacks are in order, and the listener has a stream open exactly while the table holds a live source
      with ports. */
  predicate InStep(s: State, k: nat) {
    InStepOption(Kinds(s.calls, k), Lookup(s.sources, k))
  }

  /** A live source is asked for counts only if it has ports. */
  predicate AskedWithPorts(o: Option<Source>) {
    o.Some? && o.value.tsRemoved == 0 && o.value.requested ==> HasPorts(o.value.obj)
  }

  lemma AlternatingAppend(kinds: seq<CallKind>, x: CallKind)
    requires Alternating(kinds) && (x == OnAdded <==> !Open(kinds))
    ensures Alternating(kinds + [x]) && (Open(kinds + [x]) <==> x != OnRemoved)
  {
    forall i | 0 < i < |kinds + [x]|
      ensures (kinds + [x])[i] == OnAdded <==> (kinds + [x])[i - 1] == OnRemoved
    {
      if i < |kinds| {
        assert kinds[i] == OnAdded <==> kinds[i - 1] == OnRemoved;
      }
    }
  }

  lemma AlternatingExtends(kinds: seq<CallKind>, x: CallKind)
    requires Alternating(kinds)
    ensures Alternating(kinds + [x]) <==> (x == OnAdded <==> !Open(kinds))
  {
    if x == OnAdded <==> !Open(kinds) {
      AlternatingAppend(kinds, x);
    } else {
      var n := |kinds|;
      assert (kinds + [x])[n] == x;
      if n > 0 {
        assert (kinds + [x])[n - 1] == kinds[n - 1];
      }
    }
  }

  // ---- the exact condition ---------------------------------------------------

  /** What a message must not do to the source the table holds, if it holds one: remove a removed source that has
      ports; announce a removed source, or give or take the ports of an announced live one; count packets on a
      removed source still waiting for counts. */
  predicate Guard(o: Option<Source>, b: Body)
    requires AboutSource(b)
  {
    if o.None? then true else
    var src := o.value;
    match b
    case SrcAdded(_, _) => true
    case SrcRemoved(_) => src.tsRemoved > 0 ==> !HasPorts(src.obj)
    case SrcDesc(_, desc) =>
      (match ReadDesc(src.obj, desc)
       case None => true
       case Some(obj) =>
         if src.tsRemoved > 0 then HasPorts(obj) ==> src.notified
         else src.notified ==> (HasPorts(obj) <==> HasPorts(src.obj)))
    case SrcCounts(_, counters, _) =>
      src.tsRemoved > 0 ==> !(src.haveDesc && src.requested && (counters.rxpackets > 0 || counters.txpackets > 0))
  }

  ghost predicate Guarded(c: Config, s: State, e: Event, k: nat) {
    IsAbout(c, e) && DecodeBody(c.handler, e.bytes).ref == k ==>
      Guard(Lookup(s.sources, k), DecodeBody(c.handler, e.bytes))
  }

  ghost predicate GuardedRun(c: Config, s: State, evs: seq<Event>, k: nat)
    decreases |evs|
  {
    evs == [] || (Guarded(c, s, evs[0], k) && GuardedRun(c, Step(c, s, evs[0]), evs[1..], k))
  }

  /** The listener is in step after every event. */
  ghost predicate InStepThroughout(c: Config, s: State, evs: seq<Event>, k: nat)
    decreases |evs|
  {
    evs == [] || (InStep(Step(c, s, evs[0]), k) && InStepThroughout(c, Step(c, s, evs[0]), evs[1..], k))
  }

  /** One message about a source, seen from that source alone. */
  lemma GuardIsExact(kinds: seq<CallKind>, o: Option<Source>, b: Body, now: nat, pos: nat, k: nat)
    requires AboutSource(b) && b.ref == k && now > 0 && InStepOption(kinds, o) && AskedWithPorts(o)
    requires o.Some? ==>
               && o.value.obj.id == k && o.value.haveDesc == o.value.notified
               && (HasPorts(o.value.obj) ==> o.value.haveDesc)
    ensures InStepOption(kinds + Kinds(Report(o, b, now, pos), k), Touch(o, b, now)) <==> Guard(o, b)
    ensures Guard(o, b) ==> AskedWithPorts(Touch(o, b, now))
  {
    hide Alternating, Open, ReadDesc;
    var r := Report(o, b, now, pos);
    if o.Some? && b.SrcDesc? {
      DescKeepsId(o.value.obj, b.desc);
      NamingKeepsPorts(o.value.obj, b.desc);
    }
    if r == [] {
      assert kinds + Kinds(r, k) == kinds;
    } else {
      assert r[..0] == [] && Kinds(r, k) == [r[0].kind];
      AlternatingExtends(kinds, r[0].kind);
      if Alternating(kinds + [r[0].kind]) {
        AlternatingAppend(kinds, r[0].kind);
      }
    }
  }

  lemma NamingKeepsPorts(obj: Stream, desc: Description)
    ensures ReadDesc(obj, desc).Some? ==>
              (HasPorts(NameKernel(ReadDesc(obj, desc).value)) <==> HasPorts(ReadDesc(obj, desc).value))
  {
  }

  lemma KindsAfter(c: Config, s: State, e: Event, k: nat)
    requires WF(c.handler.version, s)
    ensures Kinds(Step(c, s, e).calls, k) ==
            Kinds(s.calls, k) + (if IsAbout(c, e) && DecodeBody(c.handler, e.bytes).ref == k
                                 then Kinds(ReportOf(c, s, e), k) else [])
  {
    hide DecodeBody, Report, OnReceive, OnSend, OnScan, WF;
    if IsAbout(c, e) {
      var r := ReportOf(c, s, e);
      ReceiveAbout(c, s, e);
      KindsOne(s.calls, r, k);
      ReportIsAbout(c, s, e);
      assert r != [] ==> r[0] in r && r[..0] == [];
    } else if e.Recv? {
      ReceiveOther(c, s, e);
    } else {
      OtherCalls(c, s, e);
    }
  }

  lemma InStepAfter(c: Config, s: State, e: Event, k: nat)
    requires WF(c.handler.version, s) && InStep(s, k) && AskedWithPorts(Lookup(s.sources, k)) && e.now > 0
    ensures InStep(Step(c, s, e), k) <==> Guarded(c, s, e, k)
    ensures Guarded(c, s, e, k) ==> AskedWithPorts(Lookup(Step(c, s, e).sources, k))
  {
    hide DecodeBody, Report, Touch, OnReceive, OnSend, Kinds, Alternating, Open, ReadDesc, HasPorts, Guard;
    var s' := Step(c, s, e);
    assert Kinds(s.calls, k) + [] == Kinds(s.calls, k);
    assert Lookup(s.sources, k) == if k in s.sources then Some(s.sources[k]) else None;
    assert Lookup(s'.sources, k) == if k in s'.sources then Some(s'.sources[k]) else None;
    KindsAfter(c, s, e, k);
    SourceAfter(c, s, e, k);
    if IsAbout(c, e) && DecodeBody(c.handler, e.bytes).ref == k {
      GuardIsExact(Kinds(s.calls, k), Lookup(s.sources, k), DecodeBody(c.handler, e.bytes), e.now, |s.log|, k);
    }
  }

  /** Whatever the kernel sends: the listener stays in step through the whole run exactly when every message about
      the source, at the moment it came, met the guard. */
  lemma {:induction false} InStepExactlyWhenGuarded(c: Config, s: State, evs: seq<Event>, k: nat)
    requires WF(c.handler.version, s) && InStep(s, k) && AskedWithPorts(Lookup(s.sources, k))
    requires forall i :: 0 <= i < |evs| ==> evs[i].now > 0
    ensures InStepThroughout(c, s, evs, k) <==> GuardedRun(c, s, evs, k)
    decreases |evs|
  {
    hide WF, Step, InStep, AskedWithPorts, Guarded, Lookup;
    if evs != [] {
      InStepAfter(c, s, evs[0], k);
      if Guarded(c, s, evs[0], k) {
        StepKeepsWF(c, s, evs[0]);
        InStepExactlyWhenGuarded(c, Step(c, s, evs[0]), evs[1..], k);
      }
    }
  }

  lemma {:induction false} InStepAtTheEnd(c: Config, s: State, evs: seq<Event>, k: nat)
    requires InStep(s, k) && InStepThroughout(c, s, evs, k)
    ensures InStep(Exec(c, s, evs), k)
    decreases |evs|
  {
    hide Step, InStep;
    if evs != [] {
      InStepAtTheEnd(c, Step(c, s, evs[0]), evs[1..], k);
    }
  }

  // ---- a condition on the kernel ----------------------------------------------

  lemma ConformingIsGuarded(c: Config, s: State, e: Event, k: nat)
    requires WF(c.handler.version, s) && Conforms(c, s, e)
    ensures Guarded(c, s, e, k)
  {
    hide DecodeBody, ReadDesc, HasPorts, FitsRef;
  }

  lemma {:induction false} ConformingRunIsGuarded(c: Config, s: State, evs: seq<Event>, k: nat)
    requires WF(c.handler.version, s) && ConformingRun(c, s, evs)
    requires forall i :: 0 <= i < |evs| ==> evs[i].now > 0
    ensures GuardedRun(c, s, evs, k)
    decreases |evs|
  {
    hide WF, Step, Conforms, Guarded;
    if evs != [] {
      ConformingIsGuarded(c, s, evs[0], k);
      StepKeepsWF(c, s, evs[0]);
      ConformingRunIsGuarded(c, Step(c, s, evs[0]), evs[1..], k);
    }
  }

  /** With a conforming kernel, the callbacks about every source are a prefix of (Added Update* Removed)*. */
  lemma ListenerHearsInOrder(c: Config, s: State, evs: seq<Event>, k: nat)
    requires WF(c.handler.version, s) && InStep(s, k) && AskedWithPorts(Lookup(s.sources, k))
    requires ConformingRun(c, s, evs) && forall i :: 0 <= i < |evs| ==> evs[i].now > 0
    ensures Alternating(Kinds(Exec(c, s, evs).calls, k))
    ensures InStep(Exec(c, s, evs), k)
  {
    hide WF, Exec, ConformingRun, GuardedRun, InStepThroughout, Lookup, AskedWithPorts, Kinds, Alternating, Open;
    ConformingRunIsGuarded(c, s, evs, k);
    InStepExactlyWhenGuarded(c, s, evs, k);
    InStepAtTheEnd(c, s, evs, k);
  }

  // ---- without assumptions -------------------------------------------------

  /** A logged message of one of the two kinds that begin and end the life of a source. */
  predicate LogsAdd(c: Config, en: Entry, k: nat) {
    en.Got? && en.bytes != [] && DecodeBody(c.handler, en.bytes).SrcAdded? && DecodeBody(c.handler, en.bytes).ref == k
  }

  predicate LogsRemove(c: Config, en: Entry, k: nat) {
    en.Got? && en.bytes != [] && DecodeBody(c.handler, en.bytes).SrcRemoved? && DecodeBody(c.handler, en.bytes).ref == k
  }

  /** Whether the source is live as far as the first messages of the log tell. */
  function LiveAt(c: Config, log: seq<Entry>, k: nat, n: nat): bool
    requires n <= |log|
  {
    n > 0 && (LogsAdd(c, log[n - 1], k) || (!LogsRemove(c, log[n - 1], k) && LiveAt(c, log, k, n - 1)))
  }

  lemma {:induction false} LiveAtPrefix(c: Config, log: seq<Entry>, more: seq<Entry>, k: nat, n: nat)
    requires n <= |log|
    ensures LiveAt(c, log + more, k, n) == LiveAt(c, log, k, n)
  {
    hide LogsAdd, LogsRemove;
    if n > 0 {
      LiveAtPrefix(c, log, more, k, n - 1);
    }
  }

  /** What was live and no longer is has been removed in between. */
  lemma {:induction false} LifeEndsByRemoval(c: Config, log: seq<Entry>, k: nat, a: nat, b: nat)
    requires a <= b <= |log| && LiveAt(c, log, k, a) && !LiveAt(c, log, k, b)
    ensures exists p :: a <= p < b && LogsRemove(c, log[p], k)
    decreases b - a
  {
    hide LogsAdd, LogsRemove;
    if LogsRemove(c, log[b - 1], k) {
    } else {
      LifeEndsByRemoval(c, log, k, a, b - 1);
    }
  }

  /** A new life of the source begins at `q`. */
  predicate Begins(c: Config, log: seq<Entry>, k: nat, q: nat)
    requires q < |log|
  {
    LogsAdd(c, log[q], k) && !LiveAt(c, log, k, q)
  }

  ghost predicate RenewedSince(c: Config, log: seq<Entry>, k: nat, a: nat) {
    exists q :: a < q < |log| && Begins(c, log, k, q)
  }

  predicate IsArrival(call: Call, k: nat) {
    call.kind == OnAdded && call.stream.id == k
  }

  /** The table's live sources are those the log says are live; a source announced since its life began is marked
      as such; and a new life has begun between any two announcements. */
  ghost predicate Announced(c: Config, s: State, k: nat) {
    && (k in s.sources && s.sources[k].tsRemoved == 0 <==> LiveAt(c, s.log, k, |s.log|))
    && (forall i :: 0 <= i < |s.calls| && IsArrival(s.calls[i], k) ==>
          s.calls[i].pos < |s.log| &&
          (RenewedSince(c, s.log, k, s.calls[i].pos) || (k in s.sources ==> s.sources[k].notified)))
    && (forall i, j :: 0 <= i < j < |s.calls| && IsArrival(s.calls[i], k) && IsArrival(s.calls[j], k) ==>
          exists q :: s.calls[i].pos < q < s.calls[j].pos && q < |s.log| && Begins(c, s.log, k, q))
  }

  lemma BeginsPrefix(c: Config, log: seq<Entry>, more: seq<Entry>, k: nat)
    ensures forall q :: 0 <= q < |log| ==> (Begins(c, log + more, k, q) <==> Begins(c, log, k, q))
  {
    hide LogsAdd;
    forall q | 0 <= q < |log|
      ensures Begins(c, log + more, k, q) <==> Begins(c, log, k, q)
    {
      LiveAtPrefix(c, log, more, k, q);
    }
  }

  predicate IsLive(s: State, k: nat) {
    k in s.sources && s.sources[k].tsRemoved == 0
  }

  predicate Removes(c: Config, e: Event, k: nat) {
    IsAbout(c, e) && DecodeBody(c.handler, e.bytes).SrcRemoved? && DecodeBody(c.handler, e.bytes).ref == k
  }

  /** Lives begin and end with the two messages, and a source stays announced for the rest of its life. */
  lemma LifeAfter(c: Config, s: State, e: Event, k: nat)
    requires WF(c.handler.version, s) && e.now > 0
    ensures var s' := Step(c, s, e);
            && (IsLive(s', k) <==> Adds(c, e, k) || (IsLive(s, k) && !Removes(c, e, k)))
            && (k in s'.sources && s'.sources[k].notified == false ==>
                  (Adds(c, e, k) && !IsLive(s, k)) || (k in s.sources && !s.sources[k].notified))
  {
    hide DecodeBody, OnReceive, OnSend, WF, ReadDesc, ReadCounts;
    SourceAfter(c, s, e, k);
    var s' := Step(c, s, e);
    assert Lookup(s.sources, k) == if k in s.sources then Some(s.sources[k]) else None;
    assert Lookup(s'.sources, k) == if k in s'.sources then Some(s'.sources[k]) else None;
  }

  /** An event makes at most one callback, stamped with the length of the log; an arrival is about a source that
      had not been announced in its life and now is. */
  lemma ArrivalAfter(c: Config, s: State, e: Event, k: nat)
    requires WF(c.handler.version, s) && e.now > 0
    ensures var s' := Step(c, s, e);
            s'.calls == s.calls ||
            (exists call :: s'.calls == s.calls + [call] && call.pos == |s.log| &&
               (IsArrival(call, k) ==>
                  IsAbout(c, e) && k in s.sources && !s.sources[k].notified &&
                  k in s'.sources && s'.sources[k].notified && !Adds(c, e, k) && !Removes(c, e, k)))
  {
    hide DecodeBody, OnReceive, OnScan, OnSend, ReadCounts, HasPorts;
    if IsAbout(c, e) {
      var r := ReportOf(c, s, e);
      assert Step(c, s, e).calls == s.calls + r by {
        ReceiveAbout(c, s, e);
      }
      if r == [] {
        assert s.calls + r == s.calls;
      } else {
        assert r == [r[0]];
        ReportIsAbout(c, s, e);
        SourceAfter(c, s, e, k);
      }
    } else if e.Recv? {
      ReceiveOther(c, s, e);
    } else {
      OtherCalls(c, s, e);
    }
  }

  /** An event is logged with at most one entry; those that begin and end lives always are. */
  lemma LogAfter(c: Config, s: State, e: Event, k: nat)
    ensures var s' := Step(c, s, e);
            (s'.log == s.log && !IsAbout(c, e)) ||
            (exists en :: s'.log == s.log + [en] &&
               (LogsAdd(c, en, k) <==> Adds(c, e, k)) && (LogsRemove(c, en, k) <==> Removes(c, e, k)))
  {
    hide DecodeBody, Encode, OnReceive, DueSet, ExpiredSet, Min;
    if e.Recv? {
      ReceiveLog(c, s, e);
    }
  }

  lemma RenewedPrefix(c: Config, log: seq<Entry>, more: seq<Entry>, k: nat, a: nat)
    requires RenewedSince(c, log, k, a)
    ensures RenewedSince(c, log + more, k, a)
  {
    hide Begins;
    BeginsPrefix(c, log, more, k);
    var q :| a < q < |log| && Begins(c, log, k, q);
    assert Begins(c, log + more, k, q);
  }

  /** Earlier announcements are still followed by what they were followed by. */
  lemma AnnouncementsKept(c: Config, s: State, s': State, k: nat, more: seq<Entry>)
    requires Announced(c, s, k) && s'.log == s.log + more && s.calls <= s'.calls
    requires (k in s'.sources && !s'.sources[k].notified ==> k in s.sources && !s.sources[k].notified) ||
             (more != [] && Begins(c, s'.log, k, |s.log|))
    ensures forall i :: 0 <= i < |s.calls| && IsArrival(s'.calls[i], k) ==>
              s'.calls[i].pos < |s'.log| &&
              (RenewedSince(c, s'.log, k, s'.calls[i].pos) || (k in s'.sources ==> s'.sources[k].notified))
    ensures forall i, j :: 0 <= i < j < |s.calls| && IsArrival(s'.calls[i], k) && IsArrival(s'.calls[j], k) ==>
              exists q :: s'.calls[i].pos < q < s'.calls[j].pos && q < |s'.log| && Begins(c, s'.log, k, q)
  {
    hide Begins, LiveAt, RenewedSince;
    BeginsPrefix(c, s.log, more, k);
    forall i | 0 <= i < |s.calls| && IsArrival(s'.calls[i], k)
      ensures s'.calls[i].pos < |s'.log| &&
              (RenewedSince(c, s'.log, k, s'.calls[i].pos) || (k in s'.sources ==> s'.sources[k].notified))
    {
      assert IsArrival(s.calls[i], k);
      if RenewedSince(c, s.log, k, s.calls[i].pos) {
        RenewedPrefix(c, s.log, more, k, s.calls[i].pos);
      } else if more != [] && Begins(c, s'.log, k, |s.log|) {
        RenewedNow(c, s'.log, k, s.calls[i].pos, |s.log|);
      }
    }
    forall i, j | 0 <= i < j < |s.calls| && IsArrival(s'.calls[i], k) && IsArrival(s'.calls[j], k)
      ensures exists q :: s'.calls[i].pos < q < s'.calls[j].pos && q < |s'.log| && Begins(c, s'.log, k, q)
    {
      assert IsArrival(s.calls[i], k) && IsArrival(s.calls[j], k);
      var q :| s.calls[i].pos < q < s.calls[j].pos && q < |s.log| && Begins(c, s.log, k, q);
      assert Begins(c, s'.log, k, q);
    }
  }

  lemma RenewedNow(c: Config, log: seq<Entry>, k: nat, a: nat, q: nat)
    requires a < q < |log| && Begins(c, log, k, q)
    ensures RenewedSince(c, log, k, a)
  {
  }

  /** A new announcement is preceded by a new life since every earlier one. */
  lemma AnnouncementMade(c: Config, s: State, k: nat, i: nat, more: seq<Entry>, pos: nat)
    requires Announced(c, s, k) && i < |s.calls| && IsArrival(s.calls[i], k)
    requires k in s.sources && !s.sources[k].notified && pos == |s.log|
    ensures exists q :: s.calls[i].pos < q < pos && q < |s.log + more| && Begins(c, s.log + more, k, q)
  {
    hide Begins, LiveAt;
    BeginsPrefix(c, s.log, more, k);
    assert RenewedSince(c, s.log, k, s.calls[i].pos);
    var q :| s.calls[i].pos < q < |s.log| && Begins(c, s.log, k, q);
    assert Begins(c, s.log + more, k, q);
  }

  lemma AnnouncedAfter(c: Config, s: State, e: Event, k: nat)
    requires WF(c.handler.version, s) && e.now > 0 && Announced(c, s, k)
    ensures Announced(c, Step(c, s, e), k)
  {
    hide Step, WF, Begins, RenewedSince, LogsAdd, LogsRemove, LiveAt, Adds, Removes;
    var s' := Step(c, s, e);
    LifeAfter(c, s, e, k);
    ArrivalAfter(c, s, e, k);
    LogAfter(c, s, e, k);
    var more: seq<Entry>;
    if s'.log == s.log && !IsAbout(c, e) {
      more := [];
      NotAboutEither(c, e, k);
      assert s'.log == s.log + more;
    } else {
      var en :| s'.log == s.log + [en] &&
                (LogsAdd(c, en, k) <==> Adds(c, e, k)) && (LogsRemove(c, en, k) <==> Removes(c, e, k));
      more := [en];
      LiveAfter(c, s.log, en, k);
      if Adds(c, e, k) && !IsLive(s, k) {
        BeginsHere(c, s.log, en, k);
      }
    }
    assert s.calls <= s'.calls;
    AnnouncementsKept(c, s, s', k, more);
    if s'.calls != s.calls {
      var n := |s.calls|;
      assert s'.calls[n].pos == |s.log|;
      if IsArrival(s'.calls[n], k) {
        forall i | 0 <= i < n && IsArrival(s'.calls[i], k)
          ensures exists q :: s'.calls[i].pos < q < s'.calls[n].pos && q < |s'.log| && Begins(c, s'.log, k, q)
        {
          assert s.calls[i] == s'.calls[i];
          AnnouncementMade(c, s, k, i, more, |s.log|);
        }
      }
    }
  }

  lemma NotAboutEither(c: Config, e: Event, k: nat)
    requires !IsAbout(c, e)
    ensures !Adds(c, e, k) && !Removes(c, e, k)
  {
  }

  lemma LiveAfter(c: Config, log: seq<Entry>, en: Entry, k: nat)
    ensures LiveAt(c, log + [en], k, |log| + 1) <==>
            LogsAdd(c, en, k) || (!LogsRemove(c, en, k) && LiveAt(c, log, k, |log|))
  {
    hide LogsAdd, LogsRemove;
    LiveAtPrefix(c, log, [en], k, |log|);
  }

  lemma BeginsHere(c: Config, log: seq<Entry>, en: Entry, k: nat)
    requires LogsAdd(c, en, k) && !LiveAt(c, log, k, |log|)
    ensures Begins(c, log + [en], k, |log|)
  {
    hide LogsAdd;
    LiveAtPrefix(c, log, [en], k, |log|);
  }

  /** In every run, whatever the kernel sends: between two announcements of a source a new life of it has begun. */
  lemma {:induction false} AnnouncedOncePerLife(c: Config, s: State, evs: seq<Event>, k: nat)
    requires WF(c.handler.version, s) && Announced(c, s, k)
    requires forall i :: 0 <= i < |evs| ==> evs[i].now > 0
    ensures Announced(c, Exec(c, s, evs), k)
    decreases |evs|
  {
    hide WF, Step, Announced;
    if evs != [] {
      StepKeepsWF(c, s, evs[0]);
      AnnouncedAfter(c, s, evs[0], k);
      AnnouncedOncePerLife(c, Step(c, s, evs[0]), evs[1..], k);
    }
  }

  // ---- the life an announcement belongs to -----------------------------------

  ghost predicate WasAdded(c: Config, log: seq<Entry>, k: nat, n: nat) {
    exists r :: 0 <= r < n && r < |log| && LogsAdd(c, log[r], k)
  }

  /** Sources in the table, and sources announced, have been added before. */
  ghost predicate Introduced(c: Config, s: State, k: nat) {
    && (k in s.sources ==> WasAdded(c, s.log, k, |s.log|))
    && (forall i :: 0 <= i < |s.calls| && IsArrival(s.calls[i], k) ==> WasAdded(c, s.log, k, s.calls[i].pos))
  }

  lemma WasAddedLater(c: Config, log: seq<Entry>, more: seq<Entry>, k: nat, n: nat, n': nat)
    requires WasAdded(c, log, k, n) && n <= n'
    ensures WasAdded(c, log + more, k, n')
  {
    hide LogsAdd;
    var r :| 0 <= r < n && r < |log| && LogsAdd(c, log[r], k);
    assert (log + more)[r] == log[r];
  }

  lemma IntroducedAfter(c: Config, s: State, e: Event, k: nat)
    requires WF(c.handler.version, s) && e.now > 0 && Introduced(c, s, k)
    ensures Introduced(c, Step(c, s, e), k)
  {
    hide Step, WF, WasAdded, LogsAdd, LogsRemove, Adds, Removes, IsAbout, IsArrival;
    var s' := Step(c, s, e);
    LogAfter(c, s, e, k);
    ArrivalAfter(c, s, e, k);
    StaysKnown(c, s, e, k);
    var more := s'.log[|s.log|..];
    assert s'.log == s.log + more;
    if k in s'.sources {
      if k in s.sources {
        WasAddedLater(c, s.log, more, k, |s.log|, |s'.log|);
      } else {
        AddedNow(c, s'.log, k, |s.log|);
      }
    }
    forall i | 0 <= i < |s'.calls| && IsArrival(s'.calls[i], k)
      ensures WasAdded(c, s'.log, k, s'.calls[i].pos)
    {
      if i < |s.calls| {
        assert s'.calls[i] == s.calls[i];
        WasAddedLater(c, s.log, more, k, s.calls[i].pos, s.calls[i].pos);
      } else {
        WasAddedLater(c, s.log, more, k, |s.log|, |s.log|);
      }
    }
  }

  lemma AddedNow(c: Config, log: seq<Entry>, k: nat, n: nat)
    requires n < |log| && LogsAdd(c, log[n], k)
    ensures WasAdded(c, log, k, |log|)
  {
  }

  lemma StaysKnown(c: Config, s: State, e: Event, k: nat)
    ensures k in Step(c, s, e).sources ==> k in s.sources || Adds(c, e, k)
    ensures Adds(c, e, k) ==> IsAbout(c, e)
  {
    hide DecodeBody, OnReceive, OnScan, OnSend;
    if !e.Sweep? {
      SourcesAfter(c, s, e);
    }
  }

  /** Announcements come after an SRC_ADDED for their source, in every run. */
  lemma {:induction false} IntroducedThroughout(c: Config, s: State, evs: seq<Event>, k: nat)
    requires WF(c.handler.version, s) && Introduced(c, s, k)
    requires forall i :: 0 <= i < |evs| ==> evs[i].now > 0
    ensures Introduced(c, Exec(c, s, evs), k)
    decreases |evs|
  {
    hide WF, Step, Introduced;
    if evs != [] {
      StepKeepsWF(c, s, evs[0]);
      IntroducedAfter(c, s, evs[0], k);
      IntroducedThroughout(c, Step(c, s, evs[0]), evs[1..], k);
    }
  }

  /** The life to which the message at `a` belongs ended with the SRC_REMOVED at `p`: before `a`, with no SRC_ADDED
      in between, or after it. */
  predicate EndsLifeOf(c: Config, log: seq<Entry>, k: nat, a: nat, p: nat) {
    p < |log| && LogsRemove(c, log[p], k) && forall r :: p < r <= a && r < |log| ==> !LogsAdd(c, log[r], k)
  }

  /** What is not live and once was added has been removed since it was last added. */
  lemma {:induction false} LastWasRemoval(c: Config, log: seq<Entry>, k: nat, n: nat) returns (p: nat)
    requires n <= |log| && !LiveAt(c, log, k, n) && WasAdded(c, log, k, n)
    ensures p < n && LogsRemove(c, log[p], k) && forall r :: p < r < n ==> !LogsAdd(c, log[r], k)
    decreases n
  {
    hide LogsAdd, LogsRemove;
    var r :| 0 <= r < n && r < |log| && LogsAdd(c, log[r], k);
    if LogsRemove(c, log[n - 1], k) {
      p := n - 1;
    } else {
      assert r < n - 1;
      p := LastWasRemoval(c, log, k, n - 1);
    }
  }

  /** Between two announcements of a source a new life of it began, and before that the life the first one belongs
      to was ended by an SRC_REMOVED: after the first announcement if the source was live when it was made. */
  lemma BetweenAnnouncements(c: Config, s: State, k: nat, i: nat, j: nat)
    requires Announced(c, s, k) && Introduced(c, s, k)
    requires i < j < |s.calls| && IsArrival(s.calls[i], k) && IsArrival(s.calls[j], k)
    ensures exists p: nat, q: nat :: p < q && s.calls[i].pos < q < s.calls[j].pos && q < |s.log| &&
              EndsLifeOf(c, s.log, k, s.calls[i].pos, p) && Begins(c, s.log, k, q) &&
              (LiveAt(c, s.log, k, s.calls[i].pos) ==> s.calls[i].pos <= p)
  {
    hide LogsAdd, LogsRemove, Begins, LiveAt, WasAdded, IsArrival;
    var a := s.calls[i].pos;
    var q: nat :| a < q < s.calls[j].pos && q < |s.log| && Begins(c, s.log, k, q);
    BeginsUnlive(c, s.log, k, q);
    if LiveAt(c, s.log, k, a) {
      LifeEndsByRemoval(c, s.log, k, a, q);
      var p: nat :| a <= p < q && LogsRemove(c, s.log[p], k);
      assert EndsLifeOf(c, s.log, k, a, p);
    } else if LiveAt(c, s.log, k, a + 1) {
      LifeEndsByRemoval(c, s.log, k, a + 1, q);
      var p: nat :| a + 1 <= p < q && LogsRemove(c, s.log[p], k);
      assert EndsLifeOf(c, s.log, k, a, p);
    } else {
      WasAddedUpTo(c, s.log, k, a);
      var p := LastWasRemoval(c, s.log, k, a + 1);
      assert EndsLifeOf(c, s.log, k, a, p);
    }
  }

  lemma BeginsUnlive(c: Config, log: seq<Entry>, k: nat, q: nat)
    requires q < |log| && Begins(c, log, k, q)
    ensures !LiveAt(c, log, k, q)
  {
  }

  lemma WasAddedUpTo(c: Config, log: seq<Entry>, k: nat, n: nat)
    requires WasAdded(c, log, k, n)
    ensures WasAdded(c, log, k, n + 1)
  {
  }
}
