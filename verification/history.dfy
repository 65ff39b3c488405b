/** The source table as it follows from the log: what each entry holds, read off the messages since its life began. */
module History {
  import opened ByteStrings
  import opened Options
  import opened Streams
  import opened Codec
  import opened Model
  import opened Cleanup
  import opened Isolation
  import opened ListenerProtocol
  import opened ReplaySimulation

  // ---- what entries tell of a source -----------------------------------------

  /** What an entry can tell of a source: that it was removed; described, by a provider that is accepted; named, by a
      TCP or UDP description, by a TCP one, or by one with IPv6 addresses; counted; selected by a scan, or counted. */
  datatype Topic = Removing | Describing | Naming | NamingTcp | NamingV6 | Counting | Asking

  function Said(c: Config, en: Entry): Body {
    if en.Got? && en.bytes != [] then DecodeBody(c.handler, en.bytes) else Unknown
  }

  predicate Selects(en: Entry, k: nat) {
    en.Scanned? && k in en.due
  }

  predicate Tells(c: Config, en: Entry, t: Topic, k: nat) {
    var b := Said(c, en);
    match t
    case Removing => b.SrcRemoved? && b.ref == k
    case Describing => b.SrcDesc? && b.ref == k && (b.desc.OtherProvider? ==> b.desc.accepted)
    case Naming => b.SrcDesc? && b.ref == k && !b.desc.OtherProvider?
    case NamingTcp => b.SrcDesc? && b.ref == k && b.desc.Tcp?
    case NamingV6 => b.SrcDesc? && b.ref == k && !b.desc.OtherProvider? && b.desc.d.v6
    case Counting => b.SrcCounts? && b.ref == k
    case Asking => Selects(en, k) || (b.SrcCounts? && b.ref == k)
  }

  /** The last entry on a topic since entry `b`. */
  function Latest(c: Config, log: seq<Entry>, t: Topic, k: nat, b: nat): Option<Entry> {
    if |log| <= b then None
    else
      var n := |log| - 1;
      if Tells(c, log[n], t, k) then Some(log[n]) else Latest(c, log[..n], t, k, b)
  }

  lemma LatestAppend(c: Config, log: seq<Entry>, en: Entry, k: nat, b: nat)
    requires b <= |log|
    ensures forall t ::
              Latest(c, log + [en], t, k, b) == if Tells(c, en, t, k) then Some(en) else Latest(c, log, t, k, b)
  {
    hide Tells;
    assert (log + [en])[..|log|] == log;
  }

  /** Entry `j` tells of the topic, and no later one does. */
  predicate IsLast(c: Config, log: seq<Entry>, t: Topic, k: nat, b: nat, j: nat) {
    b <= j < |log| && Tells(c, log[j], t, k) && forall i :: j < i < |log| ==> !Tells(c, log[i], t, k)
  }

  lemma LastExtends(c: Config, log: seq<Entry>, en: Entry, t: Topic, k: nat, b: nat, j: nat)
    requires !Tells(c, en, t, k)
    ensures IsLast(c, log, t, k, b, j) ==> IsLast(c, log + [en], t, k, b, j)
    ensures (forall i :: b <= i < |log| ==> !Tells(c, log[i], t, k)) ==>
              forall i :: b <= i < |log + [en]| ==> !Tells(c, (log + [en])[i], t, k)
  {
    hide Tells;
    assert forall i :: 0 <= i < |log| ==> (log + [en])[i] == log[i];
  }

  lemma {:induction false} LatestIsLast(c: Config, log: seq<Entry>, t: Topic, k: nat, b: nat) returns (j: nat)
    ensures match Latest(c, log, t, k, b)
            case None => forall i :: b <= i < |log| ==> !Tells(c, log[i], t, k)
            case Some(en) => IsLast(c, log, t, k, b, j) && log[j] == en
    decreases |log|
  {
    hide Tells;
    if |log| > b {
      j := |log| - 1;
      if !Tells(c, log[j], t, k) {
        j := LatestIsLast(c, log[..|log| - 1], t, k, b);
        LastExtends(c, log[..|log| - 1], log[|log| - 1], t, k, b, j);
        assert log[..|log| - 1] + [log[|log| - 1]] == log;
      }
    } else {
      j := 0;
    }
  }

  /** Where the present, or else the last, life of the source began. */
  function Birth(c: Config, log: seq<Entry>, k: nat): (b: Option<nat>)
    ensures b.Some? ==> b.value < |log|
  {
    if log == [] then None
    else
      var n := |log| - 1;
      if Begins(c, log, k, n) then Some(n) else Birth(c, log[..n], k)
  }

  lemma BirthAppend(c: Config, log: seq<Entry>, en: Entry, k: nat)
    ensures Birth(c, log + [en], k) ==
            if LogsAdd(c, en, k) && !LiveAt(c, log, k, |log|) then Some(|log|) else Birth(c, log, k)
  {
    hide LogsAdd, LiveAt;
    assert (log + [en])[..|log|] == log;
    LiveAtPrefix(c, log, [en], k, |log|);
  }

  lemma {:induction false} BirthIsLast(c: Config, log: seq<Entry>, k: nat)
    ensures match Birth(c, log, k)
            case None => forall i :: 0 <= i < |log| ==> !Begins(c, log, k, i)
            case Some(b) => Begins(c, log, k, b) && forall i :: b < i < |log| ==> !Begins(c, log, k, i)
    decreases |log|
  {
    hide Begins;
    if log != [] {
      var n := |log| - 1;
      BirthIsLast(c, log[..n], k);
      assert log == log[..n] + [log[n]];
      BeginsPrefix(c, log[..n], [log[n]], k);
    }
  }

  // ---- what the table holds ----------------------------------------------------

  function TimeOf(o: Option<Entry>): nat {
    if o.Some? then o.value.at else 0
  }

  /** Flags and times of a source, by the log since its life began. */
  predicate Dated(c: Config, log: seq<Entry>, k: nat, b: nat, src: Source)
    requires b < |log|
  {
    var removed, counted := Latest(c, log, Removing, k, b), Latest(c, log, Counting, k, b);
    var asked := Latest(c, log, Asking, k, b);
    && Said(c, log[b]).SrcAdded? && src.provider == Said(c, log[b]).provider && src.tsAdded == log[b].at
    && src.tsRemoved == TimeOf(removed) && (removed.Some? ==> removed.value.at > 0)
    && src.tsLastUpdate == TimeOf(counted) && (counted.Some? ==> counted.value.at > 0)
    && (src.haveDesc <==> Latest(c, log, Describing, k, b).Some?) && src.notified == src.haveDesc
    && (src.requested <==> asked.Some? && asked.value.Scanned?)
  }

  /** The stream is the one the descriptor describes. */
  predicate Depicts(obj: Stream, d: Descriptor, proto: nat) {
    && obj.key.isV6 == (if d.v6 then 1 else 0) && obj.key.ipproto == proto && obj.key.pad == 0
    && obj.key.ifindex == d.ifindex && obj.key.lport == d.lport && obj.key.rport == d.rport
    && (if d.v6 then obj.key.local == d.local && obj.key.remote == d.remote
        else obj.key.local[..4] == d.local[..4] && obj.key.remote[..4] == d.remote[..4])
    && obj.process.pid == d.pid
    && obj.process.name == if d.pid == 0 then KERNEL_TASK else d.pname
  }

  function NamedIn(c: Config, en: Entry): Descriptor
    requires Said(c, en).SrcDesc? && !Said(c, en).desc.OtherProvider?
  {
    Said(c, en).desc.d
  }

  lemma LatestTells(c: Config, log: seq<Entry>, t: Topic, k: nat, b: nat)
    ensures var o := Latest(c, log, t, k, b); o.Some? ==> Tells(c, o.value, t, k)
  {
  }

  predicate KeyKnown(c: Config, log: seq<Entry>, k: nat, b: nat, obj: Stream) {
    LatestTells(c, log, Naming, k, b);
    match Latest(c, log, Naming, k, b)
    case None =>
      && obj.key == StreamKey(0, 0, 0, 0, 0, 0, ZERO_ADDRESS, ZERO_ADDRESS) && obj.process.pid == 0
      && obj.process.name == if Latest(c, log, Describing, k, b).Some? then KERNEL_TASK else []
    case Some(en) => Depicts(obj, NamedIn(c, en), if Said(c, en).desc.Tcp? then 6 else 17)
  }

  /** The address unions beyond the four bytes of an IPv4 address: left by the last IPv6 description, if any. */
  predicate TailsKnown(c: Config, log: seq<Entry>, k: nat, b: nat, key: StreamKey) {
    LatestTells(c, log, NamingV6, k, b);
    match Latest(c, log, NamingV6, k, b)
    case None => key.local[4..] == ZERO_ADDRESS[4..] && key.remote[4..] == ZERO_ADDRESS[4..]
    case Some(en) =>
      var d := NamedIn(c, en);
      key.local[4..] == d.local[4..] && key.remote[4..] == d.remote[4..]
  }

  predicate StatesKnown(c: Config, log: seq<Entry>, k: nat, b: nat, states: StreamState) {
    LatestTells(c, log, NamingTcp, k, b);
    match Latest(c, log, NamingTcp, k, b)
    case None => states == StreamState(0, 0, 0)
    case Some(en) =>
      var d := NamedIn(c, en);
      states.state == d.state && states.txcwindow == d.txcwindow && states.txwindow == d.txwindow
  }

  /** The counters of a message as far as the version reports them. */
  function Reported(v: Version, n: Counters): Counters {
    if v.V2422? then n.(wiredRxbytes := 0, wiredTxbytes := 0) else n
  }

  predicate StatsKnown(c: Config, log: seq<Entry>, k: nat, b: nat, stats: Counters) {
    match Latest(c, log, Counting, k, b)
    case None => stats == Counters(0, 0, 0, 0, 0, 0, 0, 0, 0, 0)
    case Some(en) => en.Got? && stats == Reported(c.handler.version, c.handler.counters(en.bytes))
  }

  /** A stream as the messages since the source's life began draw it. */
  predicate Portrays(c: Config, log: seq<Entry>, k: nat, b: nat, obj: Stream) {
    obj.id == k && KeyKnown(c, log, k, b, obj) && TailsKnown(c, log, k, b, obj.key) &&
    StatesKnown(c, log, k, b, obj.states) && StatsKnown(c, log, k, b, obj.stats)
  }

  /** The table's live sources are those the log says are live, and what it holds for a source is what the log tells
      of its life. */
  ghost predicate Recounts(c: Config, s: State, k: nat) {
    && (IsLive(s, k) <==> LiveAt(c, s.log, k, |s.log|))
    && (k in s.sources ==>
          && Birth(c, s.log, k).Some?
          && Dated(c, s.log, k, Birth(c, s.log, k).value, s.sources[k])
          && Portrays(c, s.log, k, Birth(c, s.log, k).value, s.sources[k].obj))
  }

  // ---- one message about the source ------------------------------------------

  lemma TellsOfMessage(c: Config, bytes: Bytes, now: nat, k: nat)
    requires bytes != [] && AboutSource(DecodeBody(c.handler, bytes)) && DecodeBody(c.handler, bytes).ref == k
    ensures var b, en := DecodeBody(c.handler, bytes), Got(bytes, now);
            && Said(c, en) == b
            && (Tells(c, en, Removing, k) <==> b.SrcRemoved?)
            && (Tells(c, en, Describing, k) <==> b.SrcDesc? && (b.desc.OtherProvider? ==> b.desc.accepted))
            && (Tells(c, en, Naming, k) <==> b.SrcDesc? && !b.desc.OtherProvider?)
            && (Tells(c, en, NamingTcp, k) <==> b.SrcDesc? && b.desc.Tcp?)
            && (Tells(c, en, NamingV6, k) <==> b.SrcDesc? && !b.desc.OtherProvider? && b.desc.d.v6)
            && (Tells(c, en, Counting, k) <==> b.SrcCounts?)
            && (Tells(c, en, Asking, k) <==> b.SrcCounts?)
  {
    hide DecodeBody;
  }

  lemma DatedByMessage(c: Config, log: seq<Entry>, k: nat, b: nat, src: Source, bytes: Bytes, now: nat)
    requires bytes != [] && AboutSource(DecodeBody(c.handler, bytes)) && DecodeBody(c.handler, bytes).ref == k
    requires b < |log| && Dated(c, log, k, b, src) && now > 0
    requires DecodeBody(c.handler, bytes).SrcAdded? ==> src.tsRemoved == 0
    ensures Dated(c, log + [Got(bytes, now)], k, b, Touch(Some(src), DecodeBody(c.handler, bytes), now).value)
  {
    hide DecodeBody, Tells, Latest, Said, NameKernel, ReadCounts;
    TellsOfMessage(c, bytes, now, k);
    LatestAppend(c, log, Got(bytes, now), k, b);
    assert (log + [Got(bytes, now)])[b] == log[b];
  }

  lemma NamingDepicts(obj: Stream, desc: Description)
    requires !desc.OtherProvider? && obj.key.pad == 0
    ensures ReadDesc(obj, desc).Some?
    ensures Depicts(NameKernel(ReadDesc(obj, desc).value), desc.d, if desc.Tcp? then 6 else 17)
  {
    var d := desc.d;
    assert d.local[..4] == (d.local[..4] + obj.key.local[4..])[..4];
    assert d.remote[..4] == (d.remote[..4] + obj.key.remote[4..])[..4];
  }

  lemma KeyByMessage(c: Config, log: seq<Entry>, k: nat, b: nat, src: Source, bytes: Bytes, now: nat)
    requires bytes != [] && AboutSource(DecodeBody(c.handler, bytes)) && DecodeBody(c.handler, bytes).ref == k
    requires b < |log| && KeyKnown(c, log, k, b, src.obj)
    requires DecodeBody(c.handler, bytes).SrcAdded? ==> src.tsRemoved == 0
    ensures KeyKnown(c, log + [Got(bytes, now)], k, b, Touch(Some(src), DecodeBody(c.handler, bytes), now).value.obj)
  {
    hide DecodeBody, Tells, Latest, Said, Depicts;
    TellsOfMessage(c, bytes, now, k);
    LatestAppend(c, log, Got(bytes, now), k, b);
    var body := DecodeBody(c.handler, bytes);
    PadIsZero(c, log, k, b, src.obj);
    if body.SrcDesc? && !body.desc.OtherProvider? {
      NamingDepicts(src.obj, body.desc);
    } else {
      SameKey(src, body, now);
      match Latest(c, log, Naming, k, b) {
        case None =>
        case Some(en) =>
          KernelStaysNamed(c, log, k, b, src.obj);
          LatestTells(c, log, Naming, k, b);
          DepictsKey(src.obj, Touch(Some(src), body, now).value.obj, NamedIn(c, en),
                     if Said(c, en).desc.Tcp? then 6 else 17);
      }
    }
  }

  lemma PadIsZero(c: Config, log: seq<Entry>, k: nat, b: nat, obj: Stream)
    requires KeyKnown(c, log, k, b, obj)
    ensures obj.key.pad == 0
  {
  }

  /** Naming the kernel process again changes nothing. */
  lemma KernelStaysNamed(c: Config, log: seq<Entry>, k: nat, b: nat, obj: Stream)
    requires KeyKnown(c, log, k, b, obj) && Latest(c, log, Naming, k, b).Some?
    ensures NameKernel(obj) == obj
  {
    hide Tells, Latest, Said;
  }

  lemma SameKey(src: Source, b: Body, now: nat)
    requires AboutSource(b) && (b.SrcDesc? ==> b.desc.OtherProvider?) && (b.SrcAdded? ==> src.tsRemoved == 0)
    ensures var obj := Touch(Some(src), b, now).value.obj;
            obj.(stats := src.obj.stats) ==
            if b.SrcDesc? && b.desc.accepted then NameKernel(src.obj) else src.obj
  {
  }

  lemma DepictsKey(obj: Stream, obj': Stream, d: Descriptor, proto: nat)
    requires obj'.key == obj.key && obj'.process == obj.process
    ensures Depicts(obj, d, proto) == Depicts(obj', d, proto)
  {
  }

  lemma NamingTails(obj: Stream, desc: Description)
    requires !desc.OtherProvider?
    ensures ReadDesc(obj, desc).Some?
    ensures var key := NameKernel(ReadDesc(obj, desc).value).key;
            && key.local[4..] == (if desc.d.v6 then desc.d.local else obj.key.local)[4..]
            && key.remote[4..] == (if desc.d.v6 then desc.d.remote else obj.key.remote)[4..]
  {
    var d := desc.d;
    assert obj.key.local[4..] == (d.local[..4] + obj.key.local[4..])[4..];
    assert obj.key.remote[4..] == (d.remote[..4] + obj.key.remote[4..])[4..];
  }

  lemma TailsByMessage(c: Config, log: seq<Entry>, k: nat, b: nat, src: Source, bytes: Bytes, now: nat)
    requires bytes != [] && AboutSource(DecodeBody(c.handler, bytes)) && DecodeBody(c.handler, bytes).ref == k
    requires b < |log| && TailsKnown(c, log, k, b, src.obj.key)
    requires DecodeBody(c.handler, bytes).SrcAdded? ==> src.tsRemoved == 0
    ensures TailsKnown(c, log + [Got(bytes, now)], k, b,
                       Touch(Some(src), DecodeBody(c.handler, bytes), now).value.obj.key)
  {
    hide DecodeBody, Tells, Latest, Said;
    TellsOfMessage(c, bytes, now, k);
    LatestAppend(c, log, Got(bytes, now), k, b);
    var body := DecodeBody(c.handler, bytes);
    if body.SrcDesc? && !body.desc.OtherProvider? {
      NamingTails(src.obj, body.desc);
    } else {
      SameKey(src, body, now);
    }
  }

  lemma FiguresByMessage(c: Config, log: seq<Entry>, k: nat, b: nat, src: Source, bytes: Bytes, now: nat)
    requires bytes != [] && AboutSource(DecodeBody(c.handler, bytes)) && DecodeBody(c.handler, bytes).ref == k
    requires b < |log| && StatesKnown(c, log, k, b, src.obj.states) && StatsKnown(c, log, k, b, src.obj.stats)
    requires DecodeBody(c.handler, bytes).SrcAdded? ==> src.tsRemoved == 0
    ensures var log', obj := log + [Got(bytes, now)], Touch(Some(src), DecodeBody(c.handler, bytes), now).value.obj;
            StatesKnown(c, log', k, b, obj.states) && StatsKnown(c, log', k, b, obj.stats) && obj.id == src.obj.id
  {
    hide Tells, Latest, Said, SrcRefOf, TypeOf, Classify, DescribedKey, DescribedProcess;
    TellsOfMessage(c, bytes, now, k);
    LatestAppend(c, log, Got(bytes, now), k, b);
  }

  lemma NewLife(c: Config, log: seq<Entry>, bytes: Bytes, now: nat, k: nat, provider: nat)
    requires bytes != [] && DecodeBody(c.handler, bytes) == SrcAdded(k, provider)
    ensures Dated(c, log + [Got(bytes, now)], k, |log|, Fresh(k, provider, now))
    ensures Portrays(c, log + [Got(bytes, now)], k, |log|, Fresh(k, provider, now).obj)
  {
    hide DecodeBody, Tells;
    TellsOfMessage(c, bytes, now, k);
    LatestAppend(c, log, Got(bytes, now), k, |log|);
    assert forall t :: Latest(c, log, t, k, |log|) == None;
  }

  // ---- other entries -----------------------------------------------------------

  lemma Unspoken(c: Config, log: seq<Entry>, en: Entry, k: nat, b: nat, src: Source)
    requires b < |log| && Dated(c, log, k, b, src) && Portrays(c, log, k, b, src.obj)
    requires forall t :: !Tells(c, en, t, k)
    ensures Dated(c, log + [en], k, b, src) && Portrays(c, log + [en], k, b, src.obj)
  {
    hide Tells, Latest, Said, Depicts;
    LatestAppend(c, log, en, k, b);
    assert (log + [en])[b] == log[b];
  }

  lemma DatedByScan(c: Config, log: seq<Entry>, due: set<nat>, now: nat, k: nat, b: nat, src: Source)
    requires b < |log| && Dated(c, log, k, b, src) && Portrays(c, log, k, b, src.obj) && k in due
    ensures Dated(c, log + [Scanned(due, now)], k, b, src.(requested := true))
    ensures Portrays(c, log + [Scanned(due, now)], k, b, src.obj)
  {
    hide Latest, Depicts;
    LatestAppend(c, log, Scanned(due, now), k, b);
    ScanTells(c, due, now, k);
    hide Tells, Said;
    assert (log + [Scanned(due, now)])[b] == log[b];
  }

  lemma ScanTells(c: Config, due: set<nat>, now: nat, k: nat)
    ensures forall t :: Tells(c, Scanned(due, now), t, k) <==> t == Asking && k in due
    ensures !LogsAdd(c, Scanned(due, now), k) && !LogsRemove(c, Scanned(due, now), k)
  {
  }

  lemma SentTells(c: Config, bytes: Bytes, now: nat, k: nat)
    ensures forall t :: !Tells(c, Sent(bytes, now), t, k)
    ensures !LogsAdd(c, Sent(bytes, now), k) && !LogsRemove(c, Sent(bytes, now), k)
  {
  }

  lemma OtherMessageTells(c: Config, e: Event, k: nat)
    requires e.Recv? && !(IsAbout(c, e) && DecodeBody(c.handler, e.bytes).ref == k)
    ensures forall t :: !Tells(c, Got(e.bytes, e.now), t, k)
    ensures !LogsAdd(c, Got(e.bytes, e.now), k) && !LogsRemove(c, Got(e.bytes, e.now), k)
  {
    hide DecodeBody;
  }

  /** The log grows by an entry that does not concern the source, and the source stays as it is. */
  lemma RecountsUnspoken(c: Config, s: State, s': State, en: Entry, k: nat)
    requires Recounts(c, s, k) && s'.log == s.log + [en] && Lookup(s'.sources, k) == Lookup(s.sources, k)
    requires (forall t :: !Tells(c, en, t, k)) && !LogsAdd(c, en, k) && !LogsRemove(c, en, k)
    ensures Recounts(c, s', k)
  {
    hide Tells, Dated, Portrays, LogsAdd, LogsRemove, LiveAt, Birth;
    LiveAfter(c, s.log, en, k);
    BirthAppend(c, s.log, en, k);
    assert Lookup(s.sources, k) == if k in s.sources then Some(s.sources[k]) else None;
    assert Lookup(s'.sources, k) == if k in s'.sources then Some(s'.sources[k]) else None;
    if k in s.sources {
      Unspoken(c, s.log, en, k, Birth(c, s.log, k).value, s.sources[k]);
    }
  }

  lemma RecountsMessage(c: Config, s: State, e: Event, k: nat)
    requires WF(c.handler.version, s) && Recounts(c, s, k) && e.now > 0
    requires IsAbout(c, e) && DecodeBody(c.handler, e.bytes).ref == k
    ensures Recounts(c, Step(c, s, e), k)
  {
    hide DecodeBody, Touch, Step, WF, Dated, Portrays, LiveAt, Birth, Fresh;
    var s', body, en := Step(c, s, e), DecodeBody(c.handler, e.bytes), Got(e.bytes, e.now);
    ReceiveLog(c, s, e);
    SourceAfter(c, s, e, k);
    LiveAfter(c, s.log, en, k);
    BirthAppend(c, s.log, en, k);
    LifeAfter(c, s, e, k);
    assert Lookup(s.sources, k) == if k in s.sources then Some(s.sources[k]) else None;
    assert Lookup(s'.sources, k) == if k in s'.sources then Some(s'.sources[k]) else None;
    if body.SrcAdded? && !IsLive(s, k) {
      NewLife(c, s.log, e.bytes, e.now, k, body.provider);
      BornFresh(Lookup(s.sources, k), body, e.now);
    } else if k in s.sources {
      var b := Birth(c, s.log, k).value;
      DatedByMessage(c, s.log, k, b, s.sources[k], e.bytes, e.now);
      PortraitByMessage(c, s.log, k, b, s.sources[k], e.bytes, e.now);
    } else {
      UnknownStaysUnknown(body, e.now, 0);
    }
  }

  lemma BornFresh(o: Option<Source>, b: Body, now: nat)
    requires b.SrcAdded? && !(o.Some? && o.value.tsRemoved == 0)
    ensures Touch(o, b, now) == Some(Fresh(b.ref, b.provider, now))
  {
  }

  lemma PortraitByMessage(c: Config, log: seq<Entry>, k: nat, b: nat, src: Source, bytes: Bytes, now: nat)
    requires bytes != [] && AboutSource(DecodeBody(c.handler, bytes)) && DecodeBody(c.handler, bytes).ref == k
    requires b < |log| && Portrays(c, log, k, b, src.obj)
    requires DecodeBody(c.handler, bytes).SrcAdded? ==> src.tsRemoved == 0
    ensures Portrays(c, log + [Got(bytes, now)], k, b, Touch(Some(src), DecodeBody(c.handler, bytes), now).value.obj)
  {
    hide DecodeBody, Touch, KeyKnown, TailsKnown, StatesKnown, StatsKnown;
    TouchSome(src, DecodeBody(c.handler, bytes), now);
    KeyByMessage(c, log, k, b, src, bytes, now);
    TailsByMessage(c, log, k, b, src, bytes, now);
    FiguresByMessage(c, log, k, b, src, bytes, now);
  }

  lemma TouchSome(src: Source, b: Body, now: nat)
    requires AboutSource(b)
    ensures Touch(Some(src), b, now).Some?
  {
  }

  // ---- every run -----------------------------------------------------------------

  lemma RecountsScan(c: Config, s: State, now: nat, k: nat)
    requires Recounts(c, s, k)
    ensures Recounts(c, Step(c, s, Scan(now)), k)
  {
    var s', en := Step(c, s, Scan(now)), Scanned(DueSet(s, now), now);
    assert s'.log == s.log + [en];
    assert k in s'.sources <==> k in s.sources;
    assert k in s.sources ==>
             s'.sources[k] == if k in DueSet(s, now) then s.sources[k].(requested := true) else s.sources[k];
    hide Tells, Dated, Portrays, LogsAdd, LogsRemove, LiveAt, Birth, OnScan, Marked, DueSet, Step;
    ScanTells(c, DueSet(s, now), now, k);
    LiveAfter(c, s.log, en, k);
    BirthAppend(c, s.log, en, k);
    if k in s.sources {
      if k in DueSet(s, now) {
        DatedByScan(c, s.log, DueSet(s, now), now, k, Birth(c, s.log, k).value, s.sources[k]);
      } else {
        Unspoken(c, s.log, en, k, Birth(c, s.log, k).value, s.sources[k]);
      }
    }
  }

  lemma RecountsSweep(c: Config, s: State, now: nat, k: nat)
    requires Recounts(c, s, k)
    ensures Recounts(c, Step(c, s, Sweep(now)), k)
  {
    hide Dated, Portrays, LiveAt, Birth;
  }

  lemma RecountsAfter(c: Config, s: State, e: Event, k: nat)
    requires WF(c.handler.version, s) && Recounts(c, s, k) && e.now > 0
    ensures Recounts(c, Step(c, s, e), k)
  {
    hide WF, Recounts, DecodeBody, Tells, LogsAdd, LogsRemove, TakeDesc, TakeCount, OnReceive, OnScan, OnSweep;
    match e
    case Scan(now) => RecountsScan(c, s, now, k);
    case Sweep(now) => RecountsSweep(c, s, now, k);
    case Send(now) =>
      TakesKeep(c.handler.version, s);
      var q := TakeCount(c.handler.version, TakeDesc(c.handler.version, s)).outq;
      if q == [] {
        SameRecount(c, s, Step(c, s, e), k);
      } else {
        SentTells(c, q[0].bytes, now, k);
        RecountsUnspoken(c, s, Step(c, s, e), Sent(q[0].bytes, now), k);
      }
    case Recv(bytes, now) =>
      if IsAbout(c, e) && DecodeBody(c.handler, bytes).ref == k {
        RecountsMessage(c, s, e, k);
      } else if bytes == [] {
        NothingReceived(c, s, e);
      } else {
        ReceiveLog(c, s, e);
        SourceAfter(c, s, e, k);
        OtherMessageTells(c, e, k);
        RecountsUnspoken(c, s, Step(c, s, e), Got(bytes, now), k);
      }
  }

  lemma SameRecount(c: Config, s: State, s': State, k: nat)
    requires Recounts(c, s, k) && s'.log == s.log && s'.sources == s.sources
    ensures Recounts(c, s', k)
  {
  }

  /** In every run the source table is what the log tells: which sources are live, and for each source in the table
      its flags, its times and its stream. */
  lemma {:induction false} TableIsHistory(c: Config, s: State, evs: seq<Event>, k: nat)
    requires WF(c.handler.version, s) && Recounts(c, s, k)
    requires forall i :: 0 <= i < |evs| ==> evs[i].now > 0
    ensures Recounts(c, Exec(c, s, evs), k)
    decreases |evs|
  {
    hide WF, Recounts, Step;
    if evs != [] {
      StepKeepsWF(c, s, evs[0]);
      RecountsAfter(c, s, evs[0], k);
      TableIsHistory(c, Step(c, s, evs[0]), evs[1..], k);
    }
  }
}
