/** The client object: tables of shared, mutable sources, refined step by step to the state machine. */
module Client {
  import opened ByteStrings
  import opened Options
  import opened Streams
  import opened Codec
  import opened Frames
  import opened Model
  import opened RunLoop

  class NetstatSource {
    const srcRef: nat
    var providerId: nat
    var obj: Stream
    var haveDesc: bool
    var haveNotifiedAdded: bool
    var requestedCount: bool
    var tsAdded: nat
    var tsRemoved: nat
    var tsLastUpdate: nat

    constructor (srcRef: nat, providerId: nat)
      ensures this.srcRef == srcRef
      ensures Value() == Source(providerId, BlankStream(0), false, false, false, 0, 0, 0)
    {
      this.srcRef, this.providerId := srcRef, providerId;
      obj := BlankStream(0);
      haveDesc, haveNotifiedAdded, requestedCount := false, false, false;
      tsAdded, tsRemoved, tsLastUpdate := 0, 0, 0;
    }

    ghost function Value(): Source
      reads this
    {
      Source(providerId, obj, haveDesc, haveNotifiedAdded, requestedCount, tsAdded, tsRemoved, tsLastUpdate)
    }
  }

  ghost predicate Within(m: map<nat, NetstatSource>, repr: set<NetstatSource>) {
    forall k :: k in m ==> m[k] in repr && m[k].srcRef == k
  }

  ghost function Values(m: map<nat, NetstatSource>, repr: set<NetstatSource>): (r: map<nat, Source>)
    requires Within(m, repr)
    reads repr
    ensures r.Keys == m.Keys
  {
    map k | k in m :: m[k].Value()
  }

  ghost function Liveness(m: map<nat, NetstatSource>, repr: set<NetstatSource>): (r: map<nat, bool>)
    requires Within(m, repr)
    reads repr
    ensures r.Keys == m.Keys
  {
    map k | k in m :: m[k].tsRemoved == 0
  }

  ghost function Messages(m: map<nat, QMsg>): map<nat, Bytes> {
    map c | c in m :: m[c].bytes
  }

  /** The first key an ordered map iterates over. */
  method FirstKey(ks: set<nat>) returns (k: nat)
    requires ks != {}
    ensures k in ks && k == Min(ks)
  {
    MinExists(ks);
    k :| k in ks && forall j :: j in ks ==> k <= j;
  }

  lemma MarkedNone(s: State)
    ensures Marked(s, {}) == s
  {
    assert Marked(s, {}).sources == s.sources;
    assert Marked(s, {}).waitCount == s.waitCount;
  }

  lemma MarkedSingle(s: State, k: nat)
    requires k in s.sources
    ensures Marked(s, {k}) == s.(sources := s.sources[k := s.sources[k].(requested := true)],
                                 waitCount := s.waitCount[k := true])
  {
    assert Marked(s, {k}).sources == s.sources[k := s.sources[k].(requested := true)];
    assert Marked(s, {k}).waitCount == s.waitCount[k := true];
  }

  lemma MarkedOne(s: State, due: set<nat>, k: nat)
    ensures Marked(Marked(s, due), {k}) == Marked(s, due + {k})
  {
    assert Marked(Marked(s, due), {k}).sources == Marked(s, due + {k}).sources;
    assert Marked(Marked(s, due), {k}).waitCount == Marked(s, due + {k}).waitCount;
  }

  lemma DueAreSources(s: State, now: nat)
    ensures DueSet(s, now) <= s.sources.Keys
  {
  }

  lemma ScanStep(s: State, now: nat, rest: set<nat>, k: nat)
    requires k in s.sources && k in rest
    ensures var before, after := Marked(s, DueSet(s, now) - rest), Marked(s, DueSet(s, now) - (rest - {k}));
            after == if Due(before.sources[k], now) then Marked(before, {k}) else before
  {
    hide Due;
    assert Marked(s, DueSet(s, now) - rest).sources[k] == s.sources[k];
    MarkedOne(s, DueSet(s, now) - rest, k);
    assert DueSet(s, now) - (rest - {k}) ==
           DueSet(s, now) - rest + (if Due(s.sources[k], now) then {k} else {});
  }

  lemma ExpiredAreSources(s: State, now: nat)
    ensures ExpiredSet(s, now) <= s.sources.Keys
  {
  }

  lemma SweepStep(s: State, now: nat, rest: set<nat>, k: nat)
    requires k in s.sources && k in rest
    ensures var before := s.sources - (ExpiredSet(s, now) - rest);
            k in before &&
            s.sources - (ExpiredSet(s, now) - (rest - {k})) ==
            if Expired(before[k], now) then before - {k} else before
  {
    hide Expired;
    assert ExpiredSet(s, now) - (rest - {k}) ==
           ExpiredSet(s, now) - rest + (if Expired(s.sources[k], now) then {k} else {});
  }

  class NetworkStatisticsClient {
    const config: Config
    const recordEnabled: bool
    const replaying: bool

    var sources: map<nat, NetstatSource>
    var waitingForDesc: map<nat, NetstatSource>
    var waitingForCount: map<nat, NetstatSource>
    var outq: seq<QMsg>
    var seqnum: nat
    var qmsgMap: map<nat, QMsg>
    var phase: Phase
    var numDrops: nat
    var numErrors: nat
    var recording: Bytes          // contents of the recording file
    ghost var calls: seq<Call>           // callbacks the listener received
    ghost var log: seq<Entry>
    ghost var repr: set<NetstatSource>   // every source the tables hold

    /** The three tables share their sources: what waits for a description is the live source in the table, and what
        waits for counts is either the source in the table or one that has been removed. */
    ghost predicate Valid()
      reads this`sources, this`waitingForDesc, this`waitingForCount, this`phase, this`repr, repr
      ensures Valid() ==> Within(sources, repr) && Within(waitingForCount, repr)
    {
      && Within(sources, repr) && Within(waitingForCount, repr)
      && (forall k :: k in waitingForDesc ==>
            k in sources && sources[k] == waitingForDesc[k] && waitingForDesc[k].tsRemoved == 0)
      && (forall k :: k in waitingForCount ==>
            waitingForCount[k].tsRemoved != 0 || (k in sources && sources[k] == waitingForCount[k]))
      && (replaying ==> phase.Start? || phase.Running?)
    }

    /** The recording file holds exactly the frames of the logged history. */
    ghost predicate Recorded()
      reads this`recording, this`log
    {
      recordEnabled ==> recording == FileOf(FramesOf(log))
    }

    /** The abstract state the object stands for. */
    ghost function Model(): State
      requires Within(sources, repr) && Within(waitingForCount, repr)
      reads this, repr
    {
      State(Values(sources, repr), waitingForDesc.Keys, Liveness(waitingForCount, repr), outq, seqnum, Messages(qmsgMap),
            phase, numDrops, numErrors, log, calls)
    }

    constructor (handler: Handler, wantTcp: bool, wantUdp: bool, updateIntervalSeconds: nat, record: bool, replay: bool)
      ensures Valid() && Recorded() && Model() == INITIAL
      ensures config == Config(handler, wantTcp, wantUdp,
                               if updateIntervalSeconds < MIN_INTERVAL then MIN_INTERVAL else updateIntervalSeconds)
      ensures recordEnabled == (record && !replay) && replaying == replay
      ensures recording == [] && repr == {}
    {
      config := Config(handler, wantTcp, wantUdp,
                       if updateIntervalSeconds < MIN_INTERVAL then MIN_INTERVAL else updateIntervalSeconds);
      recordEnabled, replaying := record && !replay, replay;
      sources, waitingForDesc, waitingForCount := map[], map[], map[];
      outq, seqnum, qmsgMap, phase := [], 1, map[], Start;
      numDrops, numErrors, recording, calls, log, repr := 0, 0, [], [], [], {};
    }

    // ---- sending -----------------------------------------------------------

    /** Struct handlers hand every request they build to this method. */
    method Send(context: nat, bytes: Bytes)
      modifies this`outq, this`seqnum
      ensures replaying ==> outq == old(outq) && seqnum == old(seqnum)
      ensures !replaying ==> outq == old(outq) + [QMsg(context, bytes)] && seqnum == (old(seqnum) + 1) % SEQ_MODULUS
    {
      if replaying {
        return;
      }
      outq := outq + [QMsg(context, bytes)];
      seqnum := (seqnum + 1) % SEQ_MODULUS;
    }

    method WriteRequest(r: Request)
      requires Valid() && !replaying
      modifies this`outq, this`seqnum
      ensures Valid()
      ensures Model() == Enqueue(config.handler.version, old(Model()), r)
    {
      hide Valid, Within;
      Send(seqnum, Encode(config.handler.version, seqnum, r));
    }

    /** Appends a frame to the recording file. */
    method Record(bytes: Bytes, now: nat)
      modifies this`recording
      ensures recording == old(recording) + FrameBytes(Frame(now, bytes))
    {
      recording := recording + Le(now, 4);
      recording := recording + Le(|bytes|, 4);
      recording := recording + bytes;
    }

    /** Keeps the recording in step with the log. */
    method RecordEntry(ghost e: Entry, bytes: Bytes, now: nat)
      requires Recorded() && !e.Scanned? && e.bytes == bytes && e.at == now
      modifies this`recording, this`log
      ensures Recorded() && log == old(log) + [e]
    {
      if recordEnabled {
        Record(bytes, now);
        FileAppend(FramesOf(log), Frame(now, bytes));
      }
      log := log + [e];
      assert log[..|log| - 1] == old(log);
    }

    /** Writes one request to the kernel, records it, and remembers it for its response. */
    method Transmit(qm: QMsg, now: nat)
      requires Valid() && Recorded()
      modifies this`recording, this`log, this`qmsgMap
      ensures Valid() && Recorded()
      ensures Model() == old(Model()).(pending := old(Model()).pending[qm.seqnum := qm.bytes],
                                       log := old(log) + [Sent(qm.bytes, now)])
    {
      hide Valid, Within, Values, Liveness, FramesOf, FileOf;
      RecordEntry(Sent(qm.bytes, now), qm.bytes, now);
      qmsgMap := qmsgMap[qm.seqnum := qm];
      assert Messages(qmsgMap) == Messages(old(qmsgMap))[qm.seqnum := qm.bytes];
    }

    /** Takes the first source waiting for a description. */
    method PopWaitingForDesc() returns (k: nat)
      requires Valid() && waitingForDesc != map[]
      modifies this`waitingForDesc
      ensures Valid() && k == Min(old(Model()).waitDesc)
      ensures Model() == old(Model()).(waitDesc := old(Model()).waitDesc - {k})
    {
      hide IsMin, Values, Liveness, Messages;
      k := FirstKey(waitingForDesc.Keys);
      waitingForDesc := waitingForDesc - {k};
    }

    /** Takes the first source waiting for counts; they are wanted if it is still live and still without them. */
    method PopWaitingForCount() returns (k: nat, wanted: bool)
      requires Valid() && waitingForCount != map[]
      modifies this`waitingForCount
      ensures Valid() && k == Min(old(Model()).waitCount.Keys)
      ensures k in old(Model()).waitCount && wanted == Wanted(old(Model()), k)
      ensures Model() == old(Model()).(waitCount := old(Model()).waitCount - {k})
    {
      hide IsMin, Messages;
      k := FirstKey(waitingForCount.Keys);
      var source := waitingForCount[k];
      wanted := source.tsRemoved == 0 && source.requestedCount;
      assert wanted == Wanted(Model(), k);
      DropWaitingForCount(k);
      assert Liveness(waitingForCount, repr) == Liveness(old(waitingForCount), repr) - {k};
    }

    method DropWaitingForCount(k: nat)
      requires Valid()
      modifies this`waitingForCount
      ensures Valid() && waitingForCount == old(waitingForCount) - {k}
    {
      hide Values, Liveness, Messages;
      waitingForCount := waitingForCount - {k};
    }

    method RequestDescription()
      requires Valid() && !replaying
      modifies this`outq, this`seqnum, this`waitingForDesc
      ensures Valid()
      ensures Model() == TakeDesc(config.handler.version, old(Model()))
    {
      hide Valid, Within, Encode, IsMin, Values, Liveness, Messages;
      if outq == [] && waitingForDesc != map[] {
        var k := PopWaitingForDesc();
        WriteRequest(GetSrcDesc(k));
      }
    }

    method RequestCounts()
      requires Valid() && !replaying
      modifies this`outq, this`seqnum, this`waitingForCount
      ensures Valid()
      ensures Model() == TakeCount(config.handler.version, old(Model()))
    {
      hide Valid, Within, Encode, IsMin, Values, Liveness, Messages, Wanted;
      if outq == [] && waitingForCount != map[] {
        var k, wanted := PopWaitingForCount();
        if wanted {
          WriteRequest(QuerySrc(k));
        }
      }
    }

    method WriteFirstQueued(now: nat)
      requires Valid() && Recorded() && outq != []
      modifies this`recording, this`log, this`qmsgMap, this`outq
      ensures Valid() && Recorded()
      ensures Model() == WriteFirst(old(Model()), now)
    {
      hide Valid, Within, Values, Liveness, Messages, FramesOf, FileOf;
      Transmit(outq[0], now);
      outq := outq[1..];
    }

    /** One request at most goes out per call: a queued one, else one for a description, else one for counts. */
    method SendNextMsg(now: nat)
      requires Valid() && Recorded() && !replaying
      modifies this`outq, this`seqnum, this`waitingForDesc, this`waitingForCount, this`recording, this`log, this`qmsgMap
      ensures Valid() && Recorded()
      ensures Model() == OnSend(config.handler.version, old(Model()), now)
    {
      hide Valid, Within, TakeDesc, TakeCount, Values, Liveness, Messages, FramesOf, FileOf;
      RequestDescription();
      RequestCounts();
      if outq != [] {
        WriteFirstQueued(now);
      }
    }

    // ---- the source table --------------------------------------------------

    lemma LookupIsValue(k: nat)
      requires Within(sources, repr) && k in sources
      ensures Lookup(Values(sources, repr), k) == Some(sources[k].Value())
    {
    }

    method LookupSource(srcRef: nat) returns (source: NetstatSource?)
      requires Within(sources, repr)
      ensures source == null ==> srcRef !in sources
      ensures source != null ==> srcRef in sources && source == sources[srcRef] && source.srcRef == srcRef
      ensures Lookup(Values(sources, repr), srcRef) == if source == null then None else Some(source.Value())
    {
      source := null;
      if srcRef in sources {
        source := sources[srcRef];
      }
    }

    method Allocate(srcRef: nat, providerId: nat, now: nat) returns (src: NetstatSource)
      ensures fresh(src) && src.srcRef == srcRef && src.tsRemoved == 0 && src.Value() == Fresh(srcRef, providerId, now)
    {
      src := new NetstatSource(srcRef, providerId);
      src.obj := src.obj.(id := srcRef);
      src.tsAdded := now;
    }

    /** Puts a source in the place of a removed one, or in an empty place. */
    method Install(src: NetstatSource)
      requires Valid() && src !in repr && src.tsRemoved == 0
      requires src.srcRef in sources ==> sources[src.srcRef].tsRemoved != 0
      modifies this`sources, this`repr
      ensures Valid() && repr == old(repr) + {src} && sources == old(sources)[src.srcRef := src]
    {
      hide Values, Liveness, Messages;
      sources := sources[src.srcRef := src];
      repr := repr + {src};
    }

    method NewSource(srcRef: nat, providerId: nat, now: nat) returns (src: NetstatSource)
      requires Valid() && (srcRef in sources ==> sources[srcRef].tsRemoved != 0)
      modifies this`sources, this`repr
      ensures Valid() && srcRef in sources && sources[srcRef] == src && src.tsRemoved == 0
      ensures Model() == old(Model()).(sources := old(Model()).sources[srcRef := Fresh(srcRef, providerId, now)])
      ensures fresh(repr - old(repr)) && old(repr) <= repr
    {
      hide Messages, Valid, Fresh;
      src := Allocate(srcRef, providerId, now);
      Install(src);
      assert Values(sources, repr) == old(Values(sources, repr))[srcRef := src.Value()];
      assert Liveness(waitingForCount, repr) == old(Liveness(waitingForCount, repr));
    }
  
    /** The live source of that reference, or a new one in its place. */
    method ResetSource(srcRef: nat, providerId: nat, now: nat) returns (src: NetstatSource)
      requires Valid()
      modifies this`sources, this`repr
      ensures Valid() && srcRef in sources && sources[srcRef] == src && src.tsRemoved == 0
      ensures Model() == old(Model()).(sources := old(Model()).sources[srcRef := src.Value()])
      ensures Some(src.Value()) == Touch(Lookup(old(Model()).sources, srcRef), SrcAdded(srcRef, providerId), now)
      ensures fresh(repr - old(repr)) && old(repr) <= repr
    {
      hide Valid, Messages, Liveness, Fresh, BlankStream;
      if srcRef in sources && sources[srcRef].tsRemoved == 0 {
        src := sources[srcRef];
        assert Values(sources, repr)[srcRef := src.Value()] == Values(sources, repr);
      } else {
        src := NewSource(srcRef, providerId, now);
        assert Values(sources, repr)[srcRef] == src.Value();
      }
    }

    method AddToWaitingForDesc(src: NetstatSource)
      requires Valid() && src.srcRef in sources && sources[src.srcRef] == src && src.tsRemoved == 0
      modifies this`waitingForDesc
      ensures Valid() && waitingForDesc == old(waitingForDesc)[src.srcRef := src]
    {
      hide Values, Liveness, Messages;
      waitingForDesc := waitingForDesc[src.srcRef := src];
    }

    method RemoveFromWaitingForDesc(src: NetstatSource)
      requires Valid()
      modifies this`waitingForDesc
      ensures Valid() && waitingForDesc == old(waitingForDesc) - {src.srcRef}
    {
      hide Values, Liveness, Messages;
      waitingForDesc := waitingForDesc - {src.srcRef};
    }

    twostate lemma LivenessAfterRemoval(k: nat)
      requires old(Valid()) && k in sources && sources[k].tsRemoved != 0
      requires unchanged(this`sources) && unchanged(this`waitingForCount) && unchanged(this`repr)
      requires forall o :: o in repr && o != sources[k] ==> o.tsRemoved == old(o.tsRemoved)
      ensures Liveness(waitingForCount, repr) ==
              if k in waitingForCount then old(Liveness(waitingForCount, repr))[k := false]
              else old(Liveness(waitingForCount, repr))
    {
    }

    method MarkForRemove(source: NetstatSource, now: nat)
      requires Valid() && source.srcRef in sources && sources[source.srcRef] == source && now > 0
      modifies source`tsRemoved, this`waitingForDesc
      ensures Valid() && waitingForDesc == old(waitingForDesc) - {source.srcRef} && source.tsRemoved == now
      ensures Liveness(waitingForCount, repr) ==
              if source.srcRef in waitingForCount then old(Liveness(waitingForCount, repr))[source.srcRef := false]
              else old(Liveness(waitingForCount, repr))
    {
      hide Values, Liveness, Messages;
      source.tsRemoved := now;
      LivenessAfterRemoval(source.srcRef);
      waitingForDesc := waitingForDesc - {source.srcRef};
    }

    // ---- messages about sources --------------------------------------------

    method HandleSrcAdded(srcRef: nat, providerId: nat, now: nat, ghost pos: nat)
      requires Valid()
      modifies this`sources, this`repr, this`waitingForDesc
      ensures Valid() && fresh(repr - old(repr)) && old(repr) <= repr
      ensures Model() == OnSource(old(Model()), SrcAdded(srcRef, providerId), now, pos)
    {
      hide Valid, Messages, Liveness, Values, Fresh;
      var src := ResetSource(srcRef, providerId, now);
      if !src.haveDesc {
        AddToWaitingForDesc(src);
      }
    }

    method RetireSource(source: NetstatSource, now: nat)
      requires Valid() && source.srcRef in sources && sources[source.srcRef] == source && now > 0
      modifies this`waitingForDesc, repr
      ensures Valid() && source.obj == old(source.obj)
      ensures source.srcRef in old(Model()).sources && Model() == Retired(old(Model()), source.srcRef, now)
    {
      hide Valid, Messages;
      MarkForRemove(source, now);
      assert Values(sources, repr) == old(Values(sources, repr))[source.srcRef := source.Value()];
    }

    method HandleSrcRemoved(srcRef: nat, now: nat, ghost pos: nat)
      requires Valid() && now > 0
      modifies this`waitingForDesc, this`calls, repr
      ensures Valid()
      ensures Model() == OnSource(old(Model()), SrcRemoved(srcRef), now, pos)
    {
      hide Valid, Messages, Liveness, Values;
      var source := LookupSource(srcRef);
      if source != null {
        RetireSource(source, now);
        if !(source.obj.key.lport == 0 && source.obj.key.rport == 0) {
          calls := calls + [Call(OnRemoved, source.obj, now, pos)];
        }
      }
    }
  
    /** Changes to a source other than its removal leave the sharing of the tables as it was. */
    twostate lemma KeepsSharing()
      requires old(Valid())
      requires unchanged(this`sources) && unchanged(this`waitingForCount) && unchanged(this`repr)
      requires unchanged(this`waitingForDesc) && unchanged(this`phase)
      requires forall o :: o in repr ==> o.tsRemoved == old(o.tsRemoved)
      ensures Valid() && Liveness(waitingForCount, repr) == old(Liveness(waitingForCount, repr))
    {
      hide Values;
    }

    /** Struct handlers: fill in the key, process and, for TCP, the state of a described stream. */
    method ReadIpSrcDesc(proto: nat, d: Descriptor, dest: NetstatSource)
      modifies dest`obj
      ensures dest.obj == old(dest.obj).(key := DescribedKey(proto, d, old(dest.obj).key), process := DescribedProcess(d))
    {
      var key := dest.obj.key.(ifindex := d.ifindex, ipproto := proto, isV6 := if d.v6 then 1 else 0,
                               lport := d.lport, rport := d.rport);
      if d.v6 {
        key := key.(local := d.local, remote := d.remote);
      } else {
        key := key.(local := d.local[..4] + key.local[4..], remote := d.remote[..4] + key.remote[4..]);
      }
      dest.obj := dest.obj.(key := key);
      dest.obj := dest.obj.(process := Process(d.pid, if d.pid > 0 && d.pname != [] then d.pname else []));
    }

    method ReadSrcDesc(bytes: Bytes, dest: NetstatSource) returns (ok: bool)
      requires TypeOf(bytes) == SRC_DESC
      modifies dest`obj
      ensures var v, h := config.handler.version, config.handler;
              var read := ReadDesc(old(dest.obj), Classify(v, SrcRefOf(v, bytes).1, h.descriptor(bytes)));
              ok == read.Some? && dest.obj == if ok then read.value else old(dest.obj)
    {
      hide StoreAddress, DescribedKey, DescribedProcess;
      var v := config.handler.version;
      var provider := Field(bytes, if Wide(v) then 32 else 20, 4);
      var d := config.handler.descriptor(bytes);
      if provider == 2 || (Wide(v) && provider == 3) {
        ReadIpSrcDesc(IPPROTO_TCP, d, dest);
        dest.obj := dest.obj.(states := StreamState(d.state, d.txcwindow, d.txwindow));
        ok := true;
      } else if (!Wide(v) && provider == 3) || (Wide(v) && (provider == 4 || provider == 5)) {
        ReadIpSrcDesc(IPPROTO_UDP, d, dest);
        ok := true;
      } else {
        ok := v.V4570?;
      }
    }

    ghost function DescOf(bytes: Bytes): Description {
      Classify(config.handler.version, SrcRefOf(config.handler.version, bytes).1, config.handler.descriptor(bytes))
    }

    method Describe(source: NetstatSource, bytes: Bytes, now: nat, ghost pos: nat)
      requires TypeOf(bytes) == SRC_DESC
      modifies source`obj, source`haveDesc, source`haveNotifiedAdded, this`calls
      ensures Some(source.Value()) == Touch(Some(old(source.Value())), SrcDesc(source.srcRef, DescOf(bytes)), now)
      ensures calls == old(calls) + Report(Some(old(source.Value())), SrcDesc(source.srcRef, DescOf(bytes)), now, pos)
    {
      hide ReadDesc, Classify, SrcRefOf, Field;
      var ok := ReadSrcDesc(bytes, source);
      if ok {
        source.haveDesc := true;
        if source.obj.process.pid == 0 {
          source.obj := source.obj.(process := source.obj.process.(name := KERNEL_TASK));
        }
        if !source.haveNotifiedAdded {
          if source.obj.key.lport == 0 && source.obj.key.rport == 0 {
          } else {
            calls := calls + [Call(OnAdded, source.obj, now, pos)];
          }
        }
        source.haveNotifiedAdded := true;
      }
    }

    method DescribeInTable(source: NetstatSource, bytes: Bytes, now: nat, ghost pos: nat)
      requires Valid() && source.srcRef in sources && sources[source.srcRef] == source && TypeOf(bytes) == SRC_DESC
      modifies this`calls, repr
      ensures Valid()
      ensures Some(source.Value()) == Touch(Some(old(source.Value())), SrcDesc(source.srcRef, DescOf(bytes)), now)
      ensures Model() == old(Model()).(
                sources := old(Model()).sources[source.srcRef := source.Value()],
                calls := old(calls) +
                         Report(Some(old(source.Value())), SrcDesc(source.srcRef, DescOf(bytes)), now, pos))
    {
      hide Valid, Liveness, Messages, Touch, Report, DescOf;
      Describe(source, bytes, now, pos);
      KeepsSharing();
      assert Values(sources, repr) == old(Values(sources, repr))[source.srcRef := source.Value()];
    }

    method HandleSrcDesc(bytes: Bytes, srcRef: nat, now: nat, ghost pos: nat)
      requires Valid() && TypeOf(bytes) == SRC_DESC
      modifies this`waitingForDesc, this`calls, repr
      ensures Valid()
      ensures Model() == OnSource(old(Model()), SrcDesc(srcRef, DescOf(bytes)), now, pos)
    {
      hide Valid, Values, Liveness, Messages, Touch, Report, DescOf;
      UnknownStaysUnknown(SrcDesc(srcRef, DescOf(bytes)), now, pos);
      var source := LookupSource(srcRef);
      if source != null {
        RemoveFromWaitingForDesc(source);
        DescribeInTable(source, bytes, now, pos);
      }
    }

    method UpdateCounts(source: NetstatSource, bytes: Bytes, now: nat, ghost pos: nat)
      modifies source`obj, source`tsLastUpdate, source`requestedCount, this`calls
      ensures var b := SrcCounts(source.srcRef, config.handler.counters(bytes), !config.handler.version.V2422?);
              Some(source.Value()) == Touch(Some(old(source.Value())), b, now) &&
              calls == old(calls) + Report(Some(old(source.Value())), b, now, pos)
    {
      var counts := config.handler.counters(bytes);
      var wasObj := source.obj;
      if config.handler.version.V2422? {
        source.obj := source.obj.(stats := counts.(wiredRxbytes := source.obj.stats.wiredRxbytes,
                                                   wiredTxbytes := source.obj.stats.wiredTxbytes));
      } else {
        source.obj := source.obj.(stats := counts);
      }
      if source.haveDesc {
        if source.requestedCount && (source.obj.stats.rxpackets > 0 || source.obj.stats.txpackets > 0) {
          calls := calls + [Call(OnStatsUpdate, source.obj, now, pos)];
        }
      }
      source.tsLastUpdate := now;
      source.requestedCount := false;
    }

    ghost function CountsOf(srcRef: nat, bytes: Bytes): Body {
      SrcCounts(srcRef, config.handler.counters(bytes), !config.handler.version.V2422?)
    }

    method UpdateCountsInTable(source: NetstatSource, bytes: Bytes, now: nat, ghost pos: nat)
      requires Valid() && source.srcRef in sources && sources[source.srcRef] == source
      modifies this`calls, repr
      ensures Valid()
      ensures Some(source.Value()) == Touch(Some(old(source.Value())), CountsOf(source.srcRef, bytes), now)
      ensures Model() == old(Model()).(
                sources := old(Model()).sources[source.srcRef := source.Value()],
                calls := old(calls) + Report(Some(old(source.Value())), CountsOf(source.srcRef, bytes), now, pos))
    {
      hide Valid, Liveness, Messages, Touch, Report;
      UpdateCounts(source, bytes, now, pos);
      KeepsSharing();
      assert Values(sources, repr) == old(Values(sources, repr))[source.srcRef := source.Value()];
    }

    method HandleSrcCounts(bytes: Bytes, srcRef: nat, now: nat, ghost pos: nat)
      requires Valid()
      modifies this`calls, repr
      ensures Valid()
      ensures Model() == OnSource(old(Model()), CountsOf(srcRef, bytes), now, pos)
    {
      hide Valid, Values, Liveness, Messages, Touch, Report;
      UnknownStaysUnknown(CountsOf(srcRef, bytes), now, pos);
      var source := LookupSource(srcRef);
      if source != null {
        UpdateCountsInTable(source, bytes, now, pos);
      }
    }

    // ---- responses and subscription ----------------------------------------

    method GetAndLogError(bytes: Bytes) returns (err: nat)
      requires Valid() && TypeOf(bytes) == ERROR
      modifies this`numErrors, this`numDrops
      ensures Valid() && Error(err) == DecodeBody(config.handler, bytes)
      ensures Model() == CountError(old(Model()), err)
    {
      hide Valid, Values, Liveness, Messages, Field;
      numErrors := (numErrors + 1) % COUNTER_MODULUS;
      if |bytes| < ERROR_SIZE {
        return EFAULT;
      }
      err := Field(bytes, HEADER_SIZE, 4);
      if err == ENOBUFS {
        numDrops := (numDrops + 1) % COUNTER_MODULUS;
      }
    }

    method EnterStateRequestUdpSrc()
      requires Valid() && !replaying
      modifies this`phase, this`outq, this`seqnum
      ensures Valid()
      ensures Model() == Enqueue(config.handler.version, old(Model()).(phase := RequestUdp), AddAllUdp)
    {
      hide Values, Liveness, Messages, Encode;
      phase := RequestUdp;
      WriteRequest(AddAllUdp);
    }

    method EnterStateRequestTcpSrc()
      requires Valid() && !replaying
      modifies this`phase, this`outq, this`seqnum
      ensures Valid()
      ensures Model() == Enqueue(config.handler.version, old(Model()).(phase := RequestTcp), AddAllTcp)
    {
      hide Values, Liveness, Messages, Encode;
      phase := RequestTcp;
      WriteRequest(AddAllTcp);
    }

    method EnterRunningState()
      requires Valid()
      modifies this`phase
      ensures Valid() && Model() == old(Model()).(phase := Running)
    {
      hide Values, Liveness, Messages;
      phase := Running;
    }

    method HandleState(bytes: Bytes, haveRequest: bool)
      requires Valid() && phase != Running && (TypeOf(bytes) == SUCCESS || TypeOf(bytes) == ERROR)
      modifies this`phase, this`outq, this`seqnum, this`numErrors, this`numDrops
      ensures Valid()
      ensures Model() == OnControl(config, old(Model()), DecodeBody(config.handler, bytes))
    {
      hide Values, Liveness, Messages, Encode, Field;
      var isSuccessResponse := TypeOf(bytes) == SUCCESS && haveRequest;
      var err := 0;
      if TypeOf(bytes) == ERROR {
        err := GetAndLogError(bytes);
      }
      if phase == RequestTcp {
        if isSuccessResponse || NotFatal(err) {
          if config.wantUdp {
            EnterStateRequestUdpSrc();
          } else {
            EnterRunningState();
          }
        } else {
          EnterRunningState();
        }
      } else {
        EnterRunningState();
      }
    }

    method TakeRequest(context: nat) returns (found: bool)
      requires Valid()
      modifies this`qmsgMap
      ensures Valid() && Model() == old(Model()).(pending := old(Model()).pending - {context})
    {
      hide Valid, Values, Liveness;
      found := context in qmsgMap;
      if found {
        qmsgMap := qmsgMap - {context};
      }
      assert Messages(qmsgMap) == Messages(old(qmsgMap)) - {context};
    }

    /** Struct handlers: the source reference and provider of a message, where it has them. */
    method GetSrcRef(ns: Bytes) returns (srcRef: nat, providerId: nat)
      ensures (srcRef, providerId) == SrcRefOf(config.handler.version, ns)
    {
      hide Field;
      var v, ty := config.handler.version, TypeOf(ns);
      srcRef, providerId := 0, 0;
      if ty == SRC_COUNTS || ty == SRC_REMOVED {
        srcRef := RefField(v, ns);
      } else if ty == SRC_DESC {
        srcRef := RefField(v, ns);
        providerId := Field(ns, if Wide(v) then 32 else 20, 4);
      } else if ty == SRC_ADDED {
        if v.V4570? {
          srcRef := RefField(v, ns);
          providerId := Field(ns, 24, 4);
        } else {
          srcRef := Field(ns, 20, RefWidth(v));
          providerId := Field(ns, 16, 4);
        }
      } else if ty == QUERY_SRC || ty == GET_SRC_DESC || ty == REM_SRC {
        if ExtractsRequests(v) {
          srcRef := RefField(v, ns);
        }
      }
    }

    method HandleResponseMessage(ns: Bytes, now: nat, ghost pos: nat)
      requires Valid() && now > 0
      modifies this`sources, this`waitingForDesc, this`calls, this`repr, this`qmsgMap, this`phase, this`outq,
               this`seqnum, this`numErrors, this`numDrops, repr
      ensures Valid() && fresh(repr - old(repr)) && old(repr) <= repr
      ensures Model() == OnMessage(config, old(Model()), Decode(config.handler, ns), now, pos)
    {
      hide Valid, Values, Liveness, Messages, Field, OnSource, Enqueue, CountError, SrcRefOf, Classify;
      var srcRef, providerId := GetSrcRef(ns);
      var haveRequest := TakeRequest(ContextOf(ns));
      var ty := TypeOf(ns);
      if phase != Running && (ty == ERROR || ty == SUCCESS) {
        HandleState(ns, haveRequest);
        return;
      }
      if ty == SRC_ADDED {
        HandleSrcAdded(srcRef, providerId, now, pos);
      } else if ty == SRC_REMOVED {
        HandleSrcRemoved(srcRef, now, pos);
      } else if ty == SRC_DESC {
        HandleSrcDesc(ns, srcRef, now, pos);
      } else if ty == SRC_COUNTS {
        HandleSrcCounts(ns, srcRef, now, pos);
      } else if ty == ERROR {
        var err := GetAndLogError(ns);
      }
    }

    method ReadNextMessage(bytes: Bytes, now: nat)
      requires Valid() && Recorded() && now > 0
      modifies this, repr
      ensures Valid() && Recorded() && fresh(repr - old(repr)) && old(repr) <= repr
      ensures Model() == OnReceive(config, old(Model()), bytes, now)
    {
      hide Valid, Values, Liveness, Messages, FramesOf, FileOf, OnMessage, Decode;
      if |bytes| <= 0 {
        return;
      }
      ghost var pos := |log|;
      RecordEntry(Got(bytes, now), bytes, now);
      HandleResponseMessage(bytes, now, pos);
    }

    // ---- timers ------------------------------------------------------------

    method EraseSource(k: nat)
      requires Valid() && k in sources && sources[k].tsRemoved > 0
      modifies this`sources
      ensures Valid() && sources == old(sources) - {k}
    {
      hide Values, Liveness, Messages;
      sources := sources - {k};
    }

    method ConsiderRemoval(k: nat, now: nat)
      requires Valid() && k in sources
      modifies this`sources
      ensures Valid() && sources.Keys >= old(sources.Keys) - {k}
      ensures k in old(Model()).sources
      ensures Model() == old(Model()).(sources :=
                if Expired(old(Model()).sources[k], now) then old(Model()).sources - {k} else old(Model()).sources)
    {
      hide Valid, Liveness, Messages;
      if sources[k].tsRemoved > 0 {
        var delta := now - sources[k].tsRemoved;
        if delta > KEEP_SECONDS {
          EraseSource(k);
          assert Values(sources, repr) == Values(old(sources), repr) - {k};
        }
      }
    }

    /** Drops sources that have been gone for longer than the grace period. */
    method RemoveOldSources(now: nat)
      requires Valid()
      modifies this`sources
      ensures Valid()
      ensures Model() == OnSweep(old(Model()), now)
    {
      hide Valid, Values, Liveness, Messages, ExpiredSet, Expired;
      var rest := sources.Keys;
      ghost var was := Model();
      assert was.sources - (ExpiredSet(was, now) - rest) == was.sources by { ExpiredAreSources(was, now); }
      while rest != {}
        invariant Valid() && rest <= sources.Keys
        invariant Model() == was.(sources := was.sources - (ExpiredSet(was, now) - rest))
      {
        var k := FirstKey(rest);
        ConsiderRemoval(k, now);
        SweepStep(was, now, rest, k);
        rest := rest - {k};
      }
    }

    method AddToWaitingForCount(source: NetstatSource)
      requires Valid() && source.srcRef in sources && sources[source.srcRef] == source && source.tsRemoved == 0
      modifies this`waitingForCount
      ensures Valid() && waitingForCount == old(waitingForCount)[source.srcRef := source]
    {
      hide Values, Liveness, Messages;
      waitingForCount := waitingForCount[source.srcRef := source];
    }

    method RequestCountOf(k: nat)
      requires Valid() && k in sources
      modifies repr
      ensures Valid() && sources[k].tsRemoved == old(sources[k].tsRemoved)
      ensures k in old(Model()).sources
      ensures Model() == old(Model()).(sources :=
                old(Model()).sources[k := old(Model()).sources[k].(requested := true)])
    {
      hide Valid, Messages, Liveness;
      sources[k].requestedCount := true;
      KeepsSharing();
      assert Values(sources, repr) == old(Values(sources, repr))[k := sources[k].Value()];
    }

    /** Marks a live connection not heard from for a while as wanting counts. */
    method ConsiderForCounts(k: nat, now: nat)
      requires Valid() && k in sources
      modifies this`waitingForCount, repr
      ensures Valid() && k in old(Model()).sources
      ensures Model() == if Due(old(Model()).sources[k], now) then Marked(old(Model()), {k}) else old(Model())
    {
      hide Valid, Values, Messages;
      var source := sources[k];
      LookupIsValue(k);
      if source.tsRemoved != 0 { return; }
      if source.obj.key.rport == 0 { return; }
      if source.obj.key.lport == 0 && source.obj.key.rport == 0 { return; }
      var delta := if source.tsLastUpdate == 0 then now - source.tsAdded else now - source.tsLastUpdate;
      if delta >= MIN_QUERY_AGE {
        RequestCountOf(k);
        label L:
        AddToWaitingForCount(source);
        assert Liveness(waitingForCount, repr) == old@L(Liveness(waitingForCount, repr))[k := true];
        MarkedSingle(old(Model()), k);
      }
    }

    /** A scan leaves no frame in the recording. */
    ghost method NoteScan(due: set<nat>, now: nat)
      requires Valid() && Recorded()
      modifies this`log
      ensures Valid() && Recorded()
      ensures Model() == old(Model()).(log := old(log) + [Scanned(due, now)])
    {
      hide Valid, Values, Liveness, Messages, FileOf;
      log := log + [Scanned(due, now)];
      assert log[..|log| - 1] == old(log);
      assert FramesOf(log) == FramesOf(old(log));
    }

    method UpdateWaitForCountsQueue(now: nat)
      requires Valid() && Recorded()
      modifies this`waitingForCount, this`log, repr
      ensures Valid() && Recorded()
      ensures Model() == OnScan(old(Model()), now)
    {
      hide Valid, Liveness, Messages, Values, FileOf, FramesOf, Due, Marked, DueSet;
      var rest := sources.Keys;
      ghost var was := Model();
      MarkedNone(was);
      assert DueSet(was, now) - rest == {} by { DueAreSources(was, now); }
      while rest != {}
        invariant Valid() && Recorded() && rest <= sources.Keys && log == was.log
        invariant Model() == Marked(was, DueSet(was, now) - rest)
      {
        var k := FirstKey(rest);
        ScanStep(was, now, rest, k);
        ConsiderForCounts(k, now);
        rest := rest - {k};
      }
      assert DueSet(was, now) - {} == DueSet(was, now);
      NoteScan(DueSet(was, now), now);
    }
  
    /** Which object each table holds, given the invariant of the abstract state: an id leads to a source of that
        id; what waits for a description is the table's own, live and undescribed; what waits for counts is the
        table's own, live and described, or else a source that has been removed. */
    lemma TablesShareSources(k: nat)
      requires Valid() && WF(config.handler.version, Model())
      ensures k in sources ==> sources[k].srcRef == k && sources[k].obj.id == k
      ensures k in waitingForDesc ==>
                k in sources && waitingForDesc[k] == sources[k] &&
                sources[k].tsRemoved == 0 && !sources[k].haveDesc
      ensures k in waitingForCount ==>
                waitingForCount[k].srcRef == k &&
                (waitingForCount[k].tsRemoved != 0 ||
                 (k in sources && waitingForCount[k] == sources[k] && sources[k].haveDesc))
    {
      hide Messages, HasPorts, FitsRef;
      if k in sources {
        LookupIsValue(k);
      }
    }

    // ---- the main loop and replay ------------------------------------------

    /** Subscribes, then for every iteration checks the two timers, sends at most one request and drains the socket. */
    method Run(tStart: nat, tStart': nat, ticks: seq<Tick>)
      requires Valid() && Recorded() && !replaying && Model() == INITIAL
      requires forall i :: 0 <= i < |ticks| ==> PositiveClock(ticks[i])
      modifies this, repr
      ensures Valid() && Recorded()
      ensures Model() == Exec(config, Started(config), Schedule(config, tStart, tStart', ticks))
      ensures WF(config.handler.version, Model())
    {
      hide WF, Valid, Recorded, Values, Liveness, Messages, Encode, Step, TickEvents, NextCleanup, NextUpdate;
      if config.wantTcp {
        EnterStateRequestTcpSrc();
      } else {
        EnterStateRequestUdpSrc();
      }
      var tLastCleanup, tLastUpdate := tStart, tStart';
      ghost var done: seq<Event> := [];
      for i := 0 to |ticks|
        invariant Valid() && Recorded() && fresh(repr - old(repr))
        invariant Model() == Exec(config, Started(config), done)
        invariant done + Schedule(config, tLastCleanup, tLastUpdate, ticks[i..]) ==
                  Schedule(config, tStart, tStart', ticks)
      {
        ghost var before := Model();
        ghost var events := TickEvents(config, tLastCleanup, tLastUpdate, ticks[i]);
        assert ticks[i..][0] == ticks[i] && ticks[i..][1..] == ticks[i + 1..];
        assert done + events + Schedule(config, NextCleanup(tLastCleanup, ticks[i]),
                                        NextUpdate(config, tLastUpdate, ticks[i]), ticks[i + 1..]) ==
               Schedule(config, tStart, tStart', ticks);
        tLastCleanup, tLastUpdate := Iterate(ticks[i], tLastCleanup, tLastUpdate);
        ExecAppend(config, Started(config), done, events);
        done := done + events;
      }
      assert ticks[|ticks|..] == [];
      assert done + [] == done;
      SchedulePositive(config, tStart, tStart', ticks);
      StartedKeepsWF(config);
      ExecKeepsWF(config, Started(config), done);
    }

    /** The two timer checks that open an iteration. */
    method CheckTimers(t: Tick, tLastCleanup: nat, tLastUpdate: nat) returns (tLastCleanup': nat, tLastUpdate': nat)
      requires Valid() && Recorded()
      modifies this, repr
      ensures Valid() && Recorded() && repr == old(repr)
      ensures Model() == Exec(config, old(Model()), Checks(config, tLastCleanup, tLastUpdate, t))
      ensures tLastCleanup' == NextCleanup(tLastCleanup, t) && tLastUpdate' == NextUpdate(config, tLastUpdate, t)
    {
      hide Valid, Recorded, Values, Liveness, Messages, OnSweep, OnScan, OnSend, OnReceive;
      tLastCleanup', tLastUpdate' := tLastCleanup, tLastUpdate;
      ghost var done: seq<Event> := [];
      if t.now - tLastCleanup' > CLEANUP_SECONDS {
        tLastCleanup' := t.now;
        RemoveOldSources(t.sweepNow);
        done := [Sweep(t.sweepNow)];
      }
      assert Model() == Exec(config, old(Model()), done);
      if config.interval > 0 && t.now - tLastUpdate' >= config.interval {
        tLastUpdate' := t.now;
        ExecOne(config, old(Model()), done, Scan(t.now));
        UpdateWaitForCountsQueue(t.now);
        done := done + [Scan(t.now)];
      }
      assert done == Checks(config, tLastCleanup, tLastUpdate, t);
    }

    /** Reads until the socket is empty. */
    method DrainSocket(inbox: seq<(Bytes, nat)>)
      requires Valid() && Recorded()
      requires forall m :: m in inbox ==> m.1 > 0
      modifies this, repr
      ensures Valid() && Recorded() && fresh(repr - old(repr)) && old(repr) <= repr
      ensures Model() == Exec(config, old(Model()), Inbox(inbox))
    {
      hide Valid, Recorded, Values, Liveness, Messages, OnSweep, OnScan, OnSend, OnReceive;
      ghost var evs := Inbox(inbox);
      for j := 0 to |inbox|
        invariant Valid() && Recorded() && fresh(repr - old(repr)) && old(repr) <= repr
        invariant Model() == Exec(config, old(Model()), evs[..j])
      {
        var (bytes, now) := inbox[j];
        ExecOne(config, old(Model()), evs[..j], Recv(bytes, now));
        assert evs[..j] + [Recv(bytes, now)] == evs[..j + 1];
        ReadNextMessage(bytes, now);
      }
      assert evs[..|inbox|] == evs;
    }

    method Iterate(t: Tick, tLastCleanup: nat, tLastUpdate: nat) returns (tLastCleanup': nat, tLastUpdate': nat)
      requires Valid() && Recorded() && !replaying
      requires PositiveClock(t)
      modifies this, repr
      ensures Valid() && Recorded() && fresh(repr - old(repr)) && old(repr) <= repr
      ensures Model() == Exec(config, old(Model()), TickEvents(config, tLastCleanup, tLastUpdate, t))
      ensures tLastCleanup' == NextCleanup(tLastCleanup, t) && tLastUpdate' == NextUpdate(config, tLastUpdate, t)
    {
      hide Valid, Recorded, Values, Liveness, Messages, OnSend, Exec, Checks, Inbox;
      ghost var checks := Checks(config, tLastCleanup, tLastUpdate, t);
      tLastCleanup', tLastUpdate' := CheckTimers(t, tLastCleanup, tLastUpdate);
      ExecOne(config, old(Model()), checks, Event.Send(t.sendNow));
      SendNextMsg(t.sendNow);
      ExecAppend(config, old(Model()), checks + [Event.Send(t.sendNow)], Inbox(t.inbox));
      DrainSocket(t.inbox);
    }

    /** Reads a recording frame by frame and handles each message as it comes. */
    method RunRecording(file: Bytes, clock: nat -> nat)
      requires Valid() && Recorded() && replaying && !recordEnabled && Model() == INITIAL
      requires forall i: nat :: clock(i) > 0
      modifies this, repr
      ensures Valid() && Model() == Replay(config, ReadAll(file), clock)
    {
      hide Valid, Recorded, Values, Liveness, Messages, Replay, ReplayStep, StartSession, ReadAll, WholeFrame, FirstFrame;
      EnterRunningState();
      ReplayNothing(config, clock);
      var rest := file;
      var replayMsgCount := 0;
      ghost var done: seq<Frame> := [];
      while true
        invariant Valid() && replayMsgCount == |done| && fresh(repr - old(repr))
        invariant done + ReadAll(rest) == ReadAll(file)
        invariant Model() == Replay(config, done, clock)
        decreases |rest|
      {
        var ok, bytes, tail := ReadFrame(rest);
        if !ok { break; }
        ReplayMessage(bytes, clock(replayMsgCount), replayMsgCount == 0);
        ReplayAppend(config, done, FirstFrame(rest), clock);
        replayMsgCount := replayMsgCount + 1;
        done := done + [FirstFrame(rest)];
        rest := tail;
      }
      assert done + [] == done;
    }

    method ReadFrame(rest: Bytes) returns (ok: bool, bytes: Bytes, tail: Bytes)
      ensures ok <==> WholeFrame(rest)
      ensures ok ==> bytes == FirstFrame(rest).bytes && ReadAll(rest) == [FirstFrame(rest)] + ReadAll(tail)
      ensures ok ==> |tail| < |rest|
      ensures !ok ==> ReadAll(rest) == []
    {
      hide Field;
      ok, bytes, tail := false, [], rest;
      if |rest| < 4 { return; }                    // no timestamp: end of file
      if |rest| < 8 { return; }                    // no length
      var msgLength := Field(rest, 4, 4);
      if msgLength < HEADER_SIZE || msgLength > 2048 { return; }
      if |rest| < 8 + msgLength { return; }        // partial message
      ok, bytes, tail := true, rest[8..8 + msgLength], rest[8 + msgLength..];
    }

    method RememberRequest(bytes: Bytes)
      requires Valid()
      modifies this`qmsgMap
      ensures Valid() && Model() == old(Model()).(pending := old(Model()).pending[ContextOf(bytes) := bytes])
    {
      hide Valid, Values, Liveness;
      var qmsg := QMsg(ContextOf(bytes), bytes);
      qmsgMap := qmsgMap[ContextOf(bytes) := qmsg];
      assert Messages(qmsgMap) == Messages(old(qmsgMap))[ContextOf(bytes) := bytes];
    }

    method BeginSession()
      requires Valid()
      modifies this`phase
      ensures Valid() && Model() == old(Model()).(phase := Start)
    {
      hide Values, Liveness, Messages;
      phase := Start;
    }

    method ReplayMessage(bytes: Bytes, now: nat, first: bool)
      requires Valid() && replaying && now > 0
      modifies this, repr
      ensures Valid() && fresh(repr - old(repr)) && old(repr) <= repr
      ensures Model() == ReplayStep(config, StartSession(old(Model()), bytes, first), bytes, now)
    {
      hide Valid, Values, Liveness, Messages, OnMessage, Decode, IsRequestType, Field;
      if first && TypeOf(bytes) == ADD_ALL_SRCS {
        BeginSession();
      }
      if IsRequestType(TypeOf(bytes)) {
        RememberRequest(bytes);
      } else {
        HandleResponseMessage(bytes, now, 0);
      }
    }
  }
}
