/** The error counters, against the errors the kernel sent. */
module ErrorCounters {
  import opened ByteStrings
  import opened Codec
  import opened Model
  import opened Cleanup
  import opened ReplaySimulation

  predicate IsError(en: Entry) {
    en.Got? && TypeOf(en.bytes) == ERROR
  }

  /** An error by which the kernel says that it ran out of buffers, whatever the size of the message. */
  predicate IsOverrun(en: Entry) {
    IsError(en) && Field(en.bytes, HEADER_SIZE, 4) == ENOBUFS
  }

  predicate IsFullOverrun(en: Entry) {
    IsOverrun(en) && |en.bytes| >= ERROR_SIZE
  }

  function Count(log: seq<Entry>, p: Entry -> bool): nat {
    if log == [] then 0
    else
      var n := |log| - 1;
      Count(log[..n], p) + if p(log[n]) then 1 else 0
  }

  lemma CountAppend(log: seq<Entry>, en: Entry, p: Entry -> bool)
    ensures Count(log + [en], p) == Count(log, p) + if p(en) then 1 else 0
  {
    assert (log + [en])[..|log|] == log;
  }

  /** Both counters are 32 bits wide. */
  ghost predicate Tallied(s: State) {
    && s.errors == Count(s.log, IsError) % COUNTER_MODULUS
    && s.drops == Count(s.log, IsFullOverrun) % COUNTER_MODULUS
  }

  lemma ControlCounts(c: Config, s: State, b: Body)
    requires b.Success? || b.Error?
    ensures var s' := OnControl(c, s, b);
            && s'.errors == (if b.Error? then (s.errors + 1) % COUNTER_MODULUS else s.errors)
            && s'.drops == (if b == Error(ENOBUFS) then (s.drops + 1) % COUNTER_MODULUS else s.drops)
  {
    hide Encode;
  }

  lemma ReceiveCounts(c: Config, s: State, e: Event)
    requires e.Recv? && e.bytes != []
    ensures var b, s' := DecodeBody(c.handler, e.bytes), Step(c, s, e);
            && s'.errors == (if b.Error? then (s.errors + 1) % COUNTER_MODULUS else s.errors)
            && s'.drops == (if b == Error(ENOBUFS) then (s.drops + 1) % COUNTER_MODULUS else s.drops)
  {
    hide DecodeBody, OnControl, OnSource;
    var b := DecodeBody(c.handler, e.bytes);
    if IsAbout(c, e) {
      ReceiveAbout(c, s, e);
      SourceCounts(Noted(s, e.bytes, e.now), b, e.now, |s.log|);
    } else if !b.Unknown? {
      ControlCounts(c, Noted(s, e.bytes, e.now), b);
    }
  }

  lemma SourceCounts(s: State, b: Body, now: nat, pos: nat)
    requires AboutSource(b)
    ensures OnSource(s, b, now, pos).errors == s.errors && OnSource(s, b, now, pos).drops == s.drops
  {
  }

  lemma ErrorsDecode(c: Config, bytes: Bytes, now: nat)
    ensures DecodeBody(c.handler, bytes).Error? <==> IsError(Got(bytes, now))
    ensures DecodeBody(c.handler, bytes) == Error(ENOBUFS) <==> IsFullOverrun(Got(bytes, now))
  {
    hide SrcRefOf, TypeOf, Field;
  }

  lemma TalliedReceive(c: Config, s: State, e: Event)
    requires Tallied(s) && e.Recv?
    ensures Tallied(Step(c, s, e))
  {
    hide Step, DecodeBody, IsError, IsFullOverrun, Count;
    if e.bytes == [] {
      NothingReceived(c, s, e);
    } else {
      ReceiveLog(c, s, e);
      ReceiveCounts(c, s, e);
      ErrorsDecode(c, e.bytes, e.now);
      CountAppend(s.log, Got(e.bytes, e.now), IsError);
      CountAppend(s.log, Got(e.bytes, e.now), IsFullOverrun);
    }
  }

  lemma TalliedSend(c: Config, s: State, e: Event)
    requires Tallied(s) && e.Send?
    ensures Tallied(Step(c, s, e))
  {
    hide TakeDesc, TakeCount, IsError, IsFullOverrun;
    TakesKeep(c.handler.version, s);
    var q := TakeCount(c.handler.version, TakeDesc(c.handler.version, s)).outq;
    if q != [] {
      NoError(s.log, Sent(q[0].bytes, e.now));
    }
  }

  lemma TalliedStep(c: Config, s: State, e: Event)
    requires Tallied(s)
    ensures Tallied(Step(c, s, e))
  {
    hide OnReceive, OnScan, OnSend, IsError, IsFullOverrun, DueSet, ExpiredSet;
    match e
    case Recv(_, _) => TalliedReceive(c, s, e);
    case Scan(now) =>
      ScanCounts(c, s, e);
      NoError(s.log, Scanned(DueSet(s, now), now));
    case Sweep(_) =>
    case Send(_) => TalliedSend(c, s, e);
  }

  lemma ScanCounts(c: Config, s: State, e: Event)
    requires e.Scan?
    ensures var s' := Step(c, s, e);
            s'.log == s.log + [Scanned(DueSet(s, e.now), e.now)] && s'.errors == s.errors && s'.drops == s.drops
  {
    hide DueSet;
  }

  lemma NoError(log: seq<Entry>, en: Entry)
    requires !en.Got?
    ensures Count(log + [en], IsError) == Count(log, IsError)
    ensures Count(log + [en], IsFullOverrun) == Count(log, IsFullOverrun)
  {
    CountAppend(log, en, IsError);
    CountAppend(log, en, IsFullOverrun);
  }

  /** In every live run the error counter is the number of errors received, and the drop counter the number of
      those that are full-size and say ENOBUFS, both modulo 2^32. */
  lemma {:induction false} CountersTallyErrors(c: Config, s: State, evs: seq<Event>)
    requires Tallied(s)
    ensures Tallied(Exec(c, s, evs))
    decreases |evs|
  {
    hide Step, Tallied;
    if evs != [] {
      TalliedStep(c, s, evs[0]);
      CountersTallyErrors(c, Step(c, s, evs[0]), evs[1..]);
    }
  }

  predicate NoShortOverrun(log: seq<Entry>) {
    forall en :: en in log && IsOverrun(en) ==> |en.bytes| >= ERROR_SIZE
  }

  lemma {:induction false} OverrunCounts(log: seq<Entry>)
    ensures Count(log, IsFullOverrun) <= Count(log, IsOverrun) <= Count(log, IsError)
    ensures Count(log, IsFullOverrun) == Count(log, IsOverrun) <==> NoShortOverrun(log)
    decreases |log|
  {
    hide TypeOf, Field;
    if log != [] {
      var n := |log| - 1;
      OverrunCounts(log[..n]);
      assert log == log[..n] + [log[n]];
      assert NoShortOverrun(log) <==> NoShortOverrun(log[..n]) && NoShortOverrun([log[n]]);
      assert log[n] in [log[n]];
    }
  }

  /** While fewer than 2^32 errors have come, the drop counter is the number of ENOBUFS errors received exactly when
      none of them was shorter than the client's error struct. */
  lemma DropsAreOverrunsUnlessShort(s: State)
    requires Tallied(s) && Count(s.log, IsError) < COUNTER_MODULUS
    ensures s.drops == Count(s.log, IsOverrun) <==> NoShortOverrun(s.log)
  {
    hide NoShortOverrun, IsError, IsOverrun, IsFullOverrun, Count;
    OverrunCounts(s.log);
  }

  /** An error without the padding of the client's struct: 20 bytes, as the older kernel headers lay it out. */
  function ShortOverrun(): (b: Bytes)
    ensures |b| == 20
  {
    Header(0, ERROR, 20) + Le(ENOBUFS, 4)
  }

  lemma ShortOverrunIsNoDrop(c: Config, now: nat)
    ensures var s := Exec(c, Started(c), [Recv(ShortOverrun(), now)]);
            s.errors == 1 && s.drops == 0 && Count(s.log, IsOverrun) == 1
  {
    var e := Recv(ShortOverrun(), now);
    ShortOverrunFields(now);
    hide ShortOverrun, Encode, DecodeBody, IsError, IsOverrun, IsFullOverrun, OnReceive;
    var s := Started(c);
    assert [] + [e] == [e];
    ExecOne(c, s, [], e);
    ReceiveCounts(c, s, e);
    ReceiveLog(c, s, e);
    ErrorsDecode(c, e.bytes, now);
    assert s.log == [] && s.errors == 0 && s.drops == 0;
    CountAppend([], Got(e.bytes, now), IsOverrun);
  }

  lemma ShortOverrunFields(now: nat)
    ensures IsOverrun(Got(ShortOverrun(), now)) && !IsFullOverrun(Got(ShortOverrun(), now))
    ensures IsError(Got(ShortOverrun(), now))
  {
    hide TypeOf, Field, Header, Le, Pow256;
    Pow256Values();
    HeaderFields(0, ERROR, 20, Le(ENOBUFS, 4));
    assert ShortOverrun() == Header(0, ERROR, 20) + Le(ENOBUFS, 4) + [];
    FieldFits(Header(0, ERROR, 20), ENOBUFS, 4, []);
  }
}
