/** What is asked of the kernel, as it follows from the log: which sources a scan selects, which wait for a request,
    and that no request is written that the log does not call for. */
module Polling {
  import opened ByteStrings
  import opened Options
  import opened Streams
  import opened Codec
  import opened Model
  import opened Cleanup
  import opened Isolation
  import opened ListenerProtocol
  import opened Correlation
  import opened Draining
  import opened Requests
  import opened ReplaySimulation
  import opened History

  // ---- which sources a scan selects ----------------------------------------------

  /** A connection to poll: live, last described with a remote port, and silent for 15 seconds. */
  ghost predicate ToPoll(c: Config, log: seq<Entry>, k: nat, now: nat) {
    LiveAt(c, log, k, |log|) && Birth(c, log, k).Some? &&
    var b := Birth(c, log, k).value;
    var named, counted := Latest(c, log, Naming, k, b), Latest(c, log, Counting, k, b);
    && named.Some? && Tells(c, named.value, Naming, k) && NamedIn(c, named.value).rport != 0
    && now - (if counted.Some? then counted.value.at else log[b].at) >= 15
  }

  lemma DueIsToPoll(c: Config, s: State, now: nat, k: nat)
    requires Recounts(c, s, k)
    ensures k in DueSet(s, now) <==> ToPoll(c, s.log, k, now)
  {
    hide Tells, Latest, Said, LiveAt, Birth;
    if k in s.sources {
      LatestTells(c, s.log, Naming, k, Birth(c, s.log, k).value);
    }
  }

  /** Every scan so far selected exactly the connections to poll. */
  ghost predicate ScansExact(c: Config, log: seq<Entry>, k: nat) {
    forall i :: 0 <= i < |log| && log[i].Scanned? ==> (k in log[i].due <==> ToPoll(c, log[..i], k, log[i].at))
  }

  lemma ScansExactAppend(c: Config, log: seq<Entry>, en: Entry, k: nat)
    requires ScansExact(c, log, k) && (en.Scanned? ==> (k in en.due <==> ToPoll(c, log, k, en.at)))
    ensures ScansExact(c, log + [en], k)
  {
    hide ToPoll;
    var log' := log + [en];
    forall i | 0 <= i < |log'| && log'[i].Scanned?
      ensures k in log'[i].due <==> ToPoll(c, log'[..i], k, log'[i].at)
    {
      assert log'[..i] == log[..i];
      if i == |log| {
        assert log[..i] == log;
      }
    }
  }

  // ---- which sources wait for a request --------------------------------------------

  /** The entry settles whether counts of the source are to be asked for: a scan that selects it; its counts, its
      removal, or a query for it. */
  predicate SettlesCounts(c: Config, en: Entry, k: nat) {
    Selects(en, k) || Tells(c, en, Counting, k) || Tells(c, en, Removing, k) || AsksCounts(c.handler.version, en, k)
  }

  /** Since entry `b` a scan has selected the source, and since then it has neither been asked for counts nor sent any
      nor been removed. */
  ghost predicate CountsOwed(c: Config, log: seq<Entry>, k: nat, b: nat) {
    exists j :: b <= j < |log| && Selects(log[j], k) && forall i :: j < i < |log| ==> !SettlesCounts(c, log[i], k)
  }

  predicate SettlesDescription(c: Config, en: Entry, k: nat) {
    LogsAdd(c, en, k) || LogsDesc(c, en, k) || AsksDesc(c.handler.version, en, k)
  }

  /** Since entry `b` the source has been added, again perhaps, and since then neither asked about nor described,
      however badly. */
  ghost predicate DescriptionOwed(c: Config, log: seq<Entry>, k: nat, b: nat) {
    exists j :: b <= j < |log| && LogsAdd(c, log[j], k) &&
      forall i :: j < i < |log| ==> !SettlesDescription(c, log[i], k)
  }

  lemma CountsOwedAppend(c: Config, log: seq<Entry>, en: Entry, k: nat, b: nat)
    requires b <= |log|
    ensures CountsOwed(c, log + [en], k, b) <==>
            Selects(en, k) || (CountsOwed(c, log, k, b) && !SettlesCounts(c, en, k))
  {
    hide Tells, AsksCounts, Selects;
    var log' := log + [en];
    assert log'[|log|] == en;
    if CountsOwed(c, log, k, b) && !SettlesCounts(c, en, k) {
      var j :| b <= j < |log| && Selects(log[j], k) && forall i :: j < i < |log| ==> !SettlesCounts(c, log[i], k);
      assert log'[j] == log[j] && forall i :: j < i < |log| ==> log'[i] == log[i];
      assert Selects(log'[j], k);
    }
    if Selects(en, k) {
      assert Selects(log'[|log|], k);
    }
    if CountsOwed(c, log', k, b) {
      var j :| b <= j < |log'| && Selects(log'[j], k) && forall i :: j < i < |log'| ==> !SettlesCounts(c, log'[i], k);
      if j < |log| {
        assert log'[j] == log[j] && forall i :: j < i < |log| ==> log[i] == log'[i];
        assert Selects(log[j], k) && !SettlesCounts(c, log'[|log|], k);
      }
    }
  }

  lemma DescriptionOwedAppend(c: Config, log: seq<Entry>, en: Entry, k: nat, b: nat)
    requires b <= |log|
    ensures DescriptionOwed(c, log + [en], k, b) <==>
            LogsAdd(c, en, k) || (DescriptionOwed(c, log, k, b) && !SettlesDescription(c, en, k))
  {
    hide LogsAdd, LogsDesc, AsksDesc;
    var log' := log + [en];
    assert log'[|log|] == en;
    if DescriptionOwed(c, log, k, b) && !SettlesDescription(c, en, k) {
      var j :| b <= j < |log| && LogsAdd(c, log[j], k) &&
               forall i :: j < i < |log| ==> !SettlesDescription(c, log[i], k);
      assert log'[j] == log[j] && forall i :: j < i < |log| ==> log'[i] == log[i];
      assert LogsAdd(c, log'[j], k);
    }
    if LogsAdd(c, en, k) {
      assert LogsAdd(c, log'[|log|], k);
    }
    if DescriptionOwed(c, log', k, b) {
      var j :| b <= j < |log'| && LogsAdd(c, log'[j], k) &&
               forall i :: j < i < |log'| ==> !SettlesDescription(c, log'[i], k);
      if j < |log| {
        assert log'[j] == log[j] && forall i :: j < i < |log| ==> log[i] == log'[i];
        assert LogsAdd(c, log[j], k) && !SettlesDescription(c, log'[|log|], k);
      }
    }
  }

  /** The waiting tables against the log: a source waits for its description exactly while that is owed and the source
      is not described; an entry for counts leads to a query exactly while counts are owed. */
  ghost predicate WaitsExactly(c: Config, s: State, k: nat) {
    k in s.sources && Birth(c, s.log, k).Some? ==>
      var b := Birth(c, s.log, k).value;
      && (k in s.waitCount && s.waitCount[k] && s.sources[k].requested <==> CountsOwed(c, s.log, k, b))
      && (k in s.waitDesc <==>
            IsLive(s, k) && !s.sources[k].haveDesc && DescriptionOwed(c, s.log, k, b))
  }

  /** The source and its places in the waiting tables stay, and an entry is logged that settles nothing about it. */
  lemma WaitsOn(c: Config, s: State, s': State, en: Entry, k: nat)
    requires WaitsExactly(c, s, k) && Lookup(s'.sources, k) == Lookup(s.sources, k) && s'.log == s.log + [en]
    requires (k in s'.waitDesc <==> k in s.waitDesc) && (k in s'.waitCount <==> k in s.waitCount)
    requires k in s.waitCount ==> s'.waitCount[k] == s.waitCount[k]
    requires !SettlesCounts(c, en, k) && !SettlesDescription(c, en, k)
    ensures WaitsExactly(c, s', k)
  {
    hide CountsOwed, DescriptionOwed, Birth, LogsAdd, LogsDesc, AsksDesc, AsksCounts, Tells, Selects, LiveAt;
    assert Lookup(s.sources, k) == if k in s.sources then Some(s.sources[k]) else None;
    assert Lookup(s'.sources, k) == if k in s'.sources then Some(s'.sources[k]) else None;
    BirthAppend(c, s.log, en, k);
    if k in s.sources && Birth(c, s.log, k).Some? {
      CountsOwedAppend(c, s.log, en, k, Birth(c, s.log, k).value);
      DescriptionOwedAppend(c, s.log, en, k, Birth(c, s.log, k).value);
    }
  }

  /** What a message about the source tells, and what it does to the waiting tables. */
  lemma MessageWaits(c: Config, s: State, e: Event, k: nat)
    requires WF(c.handler.version, s) && e.now > 0 && IsAbout(c, e) && DecodeBody(c.handler, e.bytes).ref == k
    ensures var b, s' := DecodeBody(c.handler, e.bytes), Step(c, s, e);
            var en, o := Got(e.bytes, e.now), Lookup(s.sources, k);
            && s'.log == s.log + [en]
            && Lookup(s'.sources, k) == Touch(o, b, e.now)
            && !Selects(en, k) && !AsksCounts(c.handler.version, en, k) && !AsksDesc(c.handler.version, en, k)
            && (LogsAdd(c, en, k) <==> b.SrcAdded?) && (LogsDesc(c, en, k) <==> b.SrcDesc?)
            && (Tells(c, en, Counting, k) <==> b.SrcCounts?) && (Tells(c, en, Removing, k) <==> b.SrcRemoved?)
            && (k in s'.waitDesc <==>
                  if b.SrcAdded? then k in s.waitDesc || !Touch(o, b, e.now).value.haveDesc
                  else k in s.waitDesc && !(o.Some? && (b.SrcRemoved? || b.SrcDesc?)))
            && (k in s'.waitCount <==> k in s.waitCount)
            && (k in s.waitCount ==> s'.waitCount[k] == (s.waitCount[k] && !(b.SrcRemoved? && o.Some?)))
  {
    hide DecodeBody, Touch, Report, WF, OnReceive;
    ReceiveAbout(c, s, e);
    SourceAfter(c, s, e, k);
    ReceiveLog(c, s, e);
  }

  lemma WaitsMessage(c: Config, s: State, e: Event, k: nat)
    requires WF(c.handler.version, s) && Recounts(c, s, k) && WaitsExactly(c, s, k) && e.now > 0
    requires IsAbout(c, e) && DecodeBody(c.handler, e.bytes).ref == k
    ensures WaitsExactly(c, Step(c, s, e), k)
  {
    hide CountsOwed, DescriptionOwed, Birth, LogsAdd, LogsDesc, AsksDesc, AsksCounts, Tells, Selects, LiveAt;
    hide Dated, Portrays, Step, DecodeBody, HasPorts, ReadCounts, FitsRef;
    var s', en, body := Step(c, s, e), Got(e.bytes, e.now), DecodeBody(c.handler, e.bytes);
    MessageWaits(c, s, e, k);
    BirthAppend(c, s.log, en, k);
    assert Lookup(s.sources, k) == if k in s.sources then Some(s.sources[k]) else None;
    assert Lookup(s'.sources, k) == if k in s'.sources then Some(s'.sources[k]) else None;
    if k in s'.sources && Birth(c, s'.log, k).Some? {
      var b := Birth(c, s'.log, k).value;
      CountsOwedAppend(c, s.log, en, k, b);
      DescriptionOwedAppend(c, s.log, en, k, b);
      if b == |s.log| {
        NothingOwedYet(c, s.log, k);
      }
    }
  }

  lemma NothingOwedYet(c: Config, log: seq<Entry>, k: nat)
    ensures !CountsOwed(c, log, k, |log|) && !DescriptionOwed(c, log, k, |log|)
  {
  }

  lemma WaitsScan(c: Config, s: State, now: nat, k: nat)
    requires WaitsExactly(c, s, k)
    ensures WaitsExactly(c, Step(c, s, Scan(now)), k)
  {
    var s', en := Step(c, s, Scan(now)), Scanned(DueSet(s, now), now);
    assert s'.log == s.log + [en];
    assert k in s'.sources <==> k in s.sources;
    assert k in s.sources ==>
             s'.sources[k] == if k in DueSet(s, now) then s.sources[k].(requested := true) else s.sources[k];
    assert k in s'.waitCount <==> k in s.waitCount || k in DueSet(s, now);
    assert k in s'.waitCount ==> s'.waitCount[k] == if k in DueSet(s, now) then true else s.waitCount[k];
    ScanSettles(c, DueSet(s, now), now, k);
    hide CountsOwed, DescriptionOwed, Birth, LogsAdd, SettlesCounts, SettlesDescription, Selects, OnScan, DueSet, Step;
    BirthAppend(c, s.log, en, k);
    if k in s.sources && Birth(c, s.log, k).Some? {
      CountsOwedAppend(c, s.log, en, k, Birth(c, s.log, k).value);
      DescriptionOwedAppend(c, s.log, en, k, Birth(c, s.log, k).value);
    }
  }

  lemma ScanSettles(c: Config, due: set<nat>, now: nat, k: nat)
    ensures var en := Scanned(due, now);
            && (Selects(en, k) <==> k in due) && (SettlesCounts(c, en, k) <==> k in due)
            && !LogsAdd(c, en, k) && !SettlesDescription(c, en, k)
  {
  }

  lemma SentSettles(c: Config, bytes: Bytes, now: nat, k: nat)
    ensures var en := Sent(bytes, now);
            && (SettlesCounts(c, en, k) <==> AsksCounts(c.handler.version, en, k))
            && (SettlesDescription(c, en, k) <==> AsksDesc(c.handler.version, en, k))
            && !LogsAdd(c, en, k) && !Selects(en, k)
  {
    hide AsksDesc, AsksCounts;
  }

  lemma WaitsSend(c: Config, s: State, e: Event, k: nat)
    requires WF(c.handler.version, s) && OnlySubscriptions(s) && WaitsExactly(c, s, k) && e.Send?
    ensures WaitsExactly(c, Step(c, s, e), k)
  {
    hide CountsOwed, DescriptionOwed, Birth, LogsAdd, SettlesCounts, SettlesDescription, Selects, AsksDesc, AsksCounts;
    hide Step, WF, OnlySubscriptions, LiveAt, IsMin;
    var v, s' := c.handler.version, Step(c, s, e);
    SendOutcome(c, s, e);
    var o := OutcomeOf(s);
    if !o.Nothing? && !o.Dropped? {
      var b :| s'.log == s.log + [Sent(b, e.now)] &&
               (forall j :: AsksDesc(v, Sent(b, e.now), j) <==> o == Desc(j)) &&
               (forall j :: AsksCounts(v, Sent(b, e.now), j) <==> o == Counts(j));
      var en := Sent(b, e.now);
      SentSettles(c, b, e.now, k);
      BirthAppend(c, s.log, en, k);
      if k in s.sources && Birth(c, s.log, k).Some? {
        CountsOwedAppend(c, s.log, en, k, Birth(c, s.log, k).value);
        DescriptionOwedAppend(c, s.log, en, k, Birth(c, s.log, k).value);
      }
    }
  }

  /** A message that is not about the source settles nothing about it. */
  lemma OtherMessageSettles(c: Config, e: Event, k: nat)
    requires e.Recv? && !(IsAbout(c, e) && DecodeBody(c.handler, e.bytes).ref == k)
    ensures !SettlesCounts(c, Got(e.bytes, e.now), k) && !SettlesDescription(c, Got(e.bytes, e.now), k)
  {
    hide DecodeBody;
  }

  lemma OtherMessageWaits(c: Config, s: State, e: Event, k: nat)
    requires WF(c.handler.version, s) && OnlySubscriptions(s) && e.Recv?
    requires !(IsAbout(c, e) && DecodeBody(c.handler, e.bytes).ref == k)
    ensures var s' := Step(c, s, e);
            && (k in s'.waitDesc <==> k in s.waitDesc) && (k in s'.waitCount <==> k in s.waitCount)
            && (k in s.waitCount ==> s'.waitCount[k] == s.waitCount[k])
  {
    hide DecodeBody, Touch, Report, WF, OnReceive, OnlySubscriptions;
    if IsAbout(c, e) {
      ReceiveAbout(c, s, e);
    } else {
      ControlKeepsWaiting(c, s, e);
    }
  }

  lemma WaitsAfter(c: Config, s: State, e: Event, k: nat)
    requires WF(c.handler.version, s) && OnlySubscriptions(s) && Recounts(c, s, k) && WaitsExactly(c, s, k) && e.now > 0
    ensures WaitsExactly(c, Step(c, s, e), k)
  {
    hide WF, OnlySubscriptions, Recounts, DecodeBody, OnReceive, OnScan, OnSend, SettlesCounts, SettlesDescription;
    hide CountsOwed, DescriptionOwed, Birth;
    match e
    case Scan(now) => WaitsScan(c, s, now, k);
    case Sweep(now) =>
    case Send(_) => WaitsSend(c, s, e, k);
    case Recv(bytes, now) =>
      if IsAbout(c, e) && DecodeBody(c.handler, bytes).ref == k {
        WaitsMessage(c, s, e, k);
      } else if bytes == [] {
        NothingReceived(c, s, e);
      } else {
        ReceiveLog(c, s, e);
        SourceAfter(c, s, e, k);
        OtherMessageSettles(c, e, k);
        OtherMessageWaits(c, s, e, k);
        WaitsOn(c, s, Step(c, s, e), Got(bytes, now), k);
      }
  }

  // ---- every request is called for -------------------------------------------------

  /** The source is live, and in this life a scan has called for its counts and nothing has settled the matter since. */
  ghost predicate QueryDue(c: Config, log: seq<Entry>, k: nat) {
    LiveAt(c, log, k, |log|) && Birth(c, log, k).Some? && CountsOwed(c, log, k, Birth(c, log, k).value)
  }

  /** The source is live and undescribed, and has been added again without having been asked about since. */
  ghost predicate DescriptionDue(c: Config, log: seq<Entry>, k: nat) {
    LiveAt(c, log, k, |log|) && Birth(c, log, k).Some? &&
    Latest(c, log, Describing, k, Birth(c, log, k).value).None? &&
    DescriptionOwed(c, log, k, Birth(c, log, k).value)
  }

  /** Every request written so far was due at that moment. */
  ghost predicate CalledFor(c: Config, log: seq<Entry>, k: nat) {
    forall i :: 0 <= i < |log| ==>
      (AsksCounts(c.handler.version, log[i], k) ==> QueryDue(c, log[..i], k)) &&
      (AsksDesc(c.handler.version, log[i], k) ==> DescriptionDue(c, log[..i], k))
  }

  lemma CalledForAppend(c: Config, log: seq<Entry>, en: Entry, k: nat)
    requires CalledFor(c, log, k)
    requires AsksCounts(c.handler.version, en, k) ==> QueryDue(c, log, k)
    requires AsksDesc(c.handler.version, en, k) ==> DescriptionDue(c, log, k)
    ensures CalledFor(c, log + [en], k)
  {
    hide QueryDue, DescriptionDue, AsksCounts, AsksDesc;
    var log' := log + [en];
    forall i | 0 <= i < |log'|
      ensures AsksCounts(c.handler.version, log'[i], k) ==> QueryDue(c, log'[..i], k)
      ensures AsksDesc(c.handler.version, log'[i], k) ==> DescriptionDue(c, log'[..i], k)
    {
      assert log'[..i] == log[..i];
      if i == |log| {
        assert log[..i] == log;
      }
    }
  }

  /** The waiting tables say what is due. */
  lemma WaitingIsDue(c: Config, s: State, k: nat)
    requires WF(c.handler.version, s) && Recounts(c, s, k) && WaitsExactly(c, s, k)
    ensures k in s.waitDesc <==> DescriptionDue(c, s.log, k)
    ensures k in s.waitCount && Wanted(s, k) <==> QueryDue(c, s.log, k)
  {
    hide CountsOwed, DescriptionOwed, Birth, LiveAt, Portrays, Latest, HasPorts, FitsRef, Said;
  }

  ghost predicate Polls(c: Config, s: State, k: nat) {
    ScansExact(c, s.log, k) && WaitsExactly(c, s, k) && CalledFor(c, s.log, k)
  }

  lemma OutcomeIsWaiting(s: State, k: nat)
    ensures OutcomeOf(s) == Desc(k) ==> k in s.waitDesc
    ensures OutcomeOf(s) == Counts(k) ==> k in s.waitCount && Wanted(s, k)
  {
  }

  lemma PollsAfter(c: Config, s: State, e: Event, k: nat)
    requires WF(c.handler.version, s) && OnlySubscriptions(s) && Recounts(c, s, k) && Polls(c, s, k) && e.now > 0
    ensures Polls(c, Step(c, s, e), k)
  {
    hide WF, OnlySubscriptions, Recounts, ScansExact, WaitsExactly, CalledFor, Step, DueSet, ToPoll, OutcomeOf, Wanted;
    hide AsksCounts, AsksDesc, QueryDue, DescriptionDue, LogsAdd, LogsRemove, LogsDesc, Adds, Removes, Describes;
    WaitsAfter(c, s, e, k);
    EventLogged(c, s, e, k);
    if Silent(c, s, e) {
    } else {
      var en :| Logs(c, s, e, k, en);
      DueIsToPoll(c, s, e.now, k);
      OutcomeIsWaiting(s, k);
      WaitingIsDue(c, s, k);
      if e.Scan? {
        ScanStamp(c, s, e, en);
      }
      ScansExactAppend(c, s.log, en, k);
      CalledForAppend(c, s.log, en, k);
    }
  }

  lemma ScanStamp(c: Config, s: State, e: Event, en: Entry)
    requires Step(c, s, e).log == s.log + [en] && e.Scan?
    ensures en == Scanned(DueSet(s, e.now), e.now)
  {
    hide DueSet;
    assert (s.log + [en])[|s.log|] == (s.log + [Scanned(DueSet(s, e.now), e.now)])[|s.log|];
  }

  /** In every run: scans select exactly the connections to poll, the waiting tables hold exactly what is due, and no
      request is written that is not. */
  lemma {:induction false} PollingIsHistory(c: Config, s: State, evs: seq<Event>, k: nat)
    requires WF(c.handler.version, s) && OnlySubscriptions(s) && Recounts(c, s, k) && Polls(c, s, k)
    requires forall i :: 0 <= i < |evs| ==> evs[i].now > 0
    ensures Polls(c, Exec(c, s, evs), k)
    decreases |evs|
  {
    hide WF, OnlySubscriptions, Recounts, Polls, Step;
    if evs != [] {
      StepKeepsWF(c, s, evs[0]);
      PollsAfter(c, s, evs[0], k);
      RecountsAfter(c, s, evs[0], k);
      WaitingAfter(c, s, evs[0], k);
      PollingIsHistory(c, Step(c, s, evs[0]), evs[1..], k);
    }
  }

  /** A query for counts follows a scan that selected the source, with no counts of the source, no removal, no new
      life and no other query for it in between. */
  lemma QueryFollowsScan(c: Config, log: seq<Entry>, k: nat, i: nat)
    requires CalledFor(c, log, k) && i < |log| && AsksCounts(c.handler.version, log[i], k)
    ensures exists j :: 0 <= j < i && Selects(log[j], k) &&
              forall m :: j < m < i ==> !SettlesCounts(c, log[m], k) && !Begins(c, log, k, m)
  {
    hide SettlesCounts, Selects, Begins, AsksCounts, LiveAt;
    var past := log[..i];
    var b := Birth(c, past, k).value;
    BirthIsLast(c, past, k);
    assert log == past + log[i..];
    BeginsPrefix(c, past, log[i..], k);
    var j :| b <= j < |past| && Selects(past[j], k) && forall m :: j < m < |past| ==> !SettlesCounts(c, past[m], k);
    assert Selects(log[j], k);
    forall m | j < m < i
      ensures !SettlesCounts(c, log[m], k) && !Begins(c, log, k, m)
    {
      assert past[m] == log[m];
    }
  }

  // ---- the plan --------------------------------------------------------------------

  function QueryEach(ks: seq<nat>): seq<Request> {
    if ks == [] then [] else [QuerySrc(ks[0])] + QueryEach(ks[1..])
  }

  predicate StrictlyAscending(ks: seq<nat>) {
    forall i, j :: 0 <= i < j < |ks| ==> ks[i] < ks[j]
  }

  /** Those of the waiting entries that lead to a query. */
  function Wantees(s: State, ks: seq<nat>): (r: seq<nat>)
    ensures forall k :: k in r <==> k in ks && k in s.waitCount && Wanted(s, k)
  {
    if ks == [] then []
    else (if ks[0] in s.waitCount && Wanted(s, ks[0]) then [ks[0]] else []) + Wantees(s, ks[1..])
  }

  lemma QueryEachCons(k: nat, ks: seq<nat>)
    ensures QueryEach([k] + ks) == [QuerySrc(k)] + QueryEach(ks)
  {
    assert ([k] + ks)[1..] == ks;
  }

  lemma AscendingCons(k: nat, ks: seq<nat>)
    requires StrictlyAscending(ks) && forall j :: j in ks ==> k < j
    ensures StrictlyAscending([k] + ks)
  {
    forall i | 0 <= i < |ks|
      ensures k < ks[i]
    {
      assert ks[i] in ks;
    }
  }

  lemma AscendingTail(ks: seq<nat>)
    requires StrictlyAscending(ks) && ks != []
    ensures StrictlyAscending(ks[1..]) && forall j :: j in ks[1..] ==> ks[0] < j
  {
    forall j | j in ks[1..]
      ensures ks[0] < j
    {
      var i :| 0 <= i < |ks[1..]| && ks[1..][i] == j;
      assert ks[i + 1] == j;
    }
  }

  lemma {:induction false} QueriesOfWantees(s: State, ks: seq<nat>)
    requires StrictlyAscending(ks)
    ensures Queries(s, ks) == QueryEach(Wantees(s, ks)) && StrictlyAscending(Wantees(s, ks))
  {
    hide Wanted, StrictlyAscending, QueryEach;
    if ks == [] {
      NoWantees();
    } else {
      var k, rest := ks[0], Wantees(s, ks[1..]);
      AscendingTail(ks);
      QueriesOfWantees(s, ks[1..]);
      if k in s.waitCount && Wanted(s, k) {
        QueryEachCons(k, rest);
        AscendingCons(k, rest);
      } else {
        assert [] + rest == rest;
        assert Queries(s, ks) == [] + Queries(s, ks[1..]);
      }
    }
  }

  lemma NoWantees()
    ensures QueryEach([]) == [] && StrictlyAscending([])
  {
  }

  /** Draining the queue and the waiting tables writes what the log says is due, and nothing else: the queue, then
      the descriptions due, then the queries due, each by ascending reference. */
  lemma DrainWritesWhatIsDue(c: Config, s: State, evs: seq<Event>) returns (ds: seq<nat>, qs: seq<nat>)
    requires WF(c.handler.version, s) && forall k :: Recounts(c, s, k) && Polls(c, s, k)
    requires (forall i :: 0 <= i < |evs| ==> evs[i].Send?) && |evs| >= Backlog(s)
    ensures StrictlyAscending(ds) && forall k :: k in ds <==> DescriptionDue(c, s.log, k)
    ensures StrictlyAscending(qs) && forall k :: k in qs <==> QueryDue(c, s.log, k)
    ensures Written(Exec(c, s, evs).log) ==
            Written(s.log) + (Queued(s.outq) + Numbered(c.handler.version, s.seqnum, Descriptions(ds) + QueryEach(qs)))
  {
    hide Recounts, Backlog, Exec, WF, QueryDue, DescriptionDue, ScansExact, WaitsExactly, CalledFor, Written, Wanted;
    var v := c.handler.version;
    DrainWritesPlan(c, s, evs);
    ds := Ascending(s.waitDesc);
    AscendingIsSorted(s.waitDesc);
    var waiting := Ascending(s.waitCount.Keys);
    AscendingIsSorted(s.waitCount.Keys);
    qs := Wantees(s, waiting);
    QueriesOfWantees(s, waiting);
    forall k: nat
      ensures k in ds <==> DescriptionDue(c, s.log, k)
      ensures k in qs <==> QueryDue(c, s.log, k)
    {
      assert Recounts(c, s, k) && Polls(c, s, k);
      WaitingIsDue(c, s, k);
    }
  }

  /** An entry of the table for counts, even one whose source is gone, stays until its turn to be sent comes: with
      nothing queued and no description to ask for, the one with the least reference goes. */
  lemma EntriesKeepTheirTurn(c: Config, s: State, e: Event)
    requires WF(c.handler.version, s) && OnlySubscriptions(s)
    ensures !e.Send? || s.outq != [] || s.waitDesc != {} ==> s.waitCount.Keys <= Step(c, s, e).waitCount.Keys
    ensures e.Send? && s.outq == [] && s.waitDesc == {} && s.waitCount.Keys != {} ==>
              exists k :: IsMin(k, s.waitCount.Keys) && Step(c, s, e).waitCount.Keys == s.waitCount.Keys - {k}
  {
    hide DecodeBody, OnSend, Touch, Report, Enqueue, WF, TypeOf, Due, Expired, OnlySubscriptions, IsMin, Encode, Wanted;
    if IsAbout(c, e) {
      ReceiveAbout(c, s, e);
    } else if e.Send? {
      SendOutcome(c, s, e);
      if s.outq == [] && s.waitDesc == {} && s.waitCount.Keys != {} {
        var k := Min(s.waitCount.Keys);
        assert IsMin(k, s.waitCount.Keys);
        assert (s.waitCount - {k}).Keys == s.waitCount.Keys - {k};
      }
    } else if e.Recv? {
      ControlKeepsWaiting(c, s, e);
    }
  }
}
