/** The main loop as a schedule of events: what each iteration does depends on the clock and the inbox only. */
module RunLoop {
  import opened ByteStrings
  import opened Model

  /** One iteration: the clock read on entry, the ones read by cleanup and while sending, and each message read
      before the socket is found empty, with the clock read while it is handled. */
  datatype Tick = Tick(now: nat, sweepNow: nat, sendNow: nat, inbox: seq<(Bytes, nat)>)

  predicate PositiveClock(t: Tick) {
    t.now > 0 && t.sweepNow > 0 && t.sendNow > 0 && forall m :: m in t.inbox ==> m.1 > 0
  }

  predicate SweepDue(tLastCleanup: nat, t: Tick) {
    t.now - tLastCleanup > CLEANUP_SECONDS
  }

  predicate ScanDue(c: Config, tLastUpdate: nat, t: Tick) {
    c.interval > 0 && t.now - tLastUpdate >= c.interval
  }

  function Inbox(msgs: seq<(Bytes, nat)>): (evs: seq<Event>)
    ensures |evs| == |msgs|
  {
    seq(|msgs|, i requires 0 <= i < |msgs| => Recv(msgs[i].0, msgs[i].1))
  }

  function Checks(c: Config, tLastCleanup: nat, tLastUpdate: nat, t: Tick): seq<Event> {
    (if SweepDue(tLastCleanup, t) then [Sweep(t.sweepNow)] else []) +
    (if ScanDue(c, tLastUpdate, t) then [Scan(t.now)] else [])
  }

  function TickEvents(c: Config, tLastCleanup: nat, tLastUpdate: nat, t: Tick): seq<Event> {
    Checks(c, tLastCleanup, tLastUpdate, t) + [Send(t.sendNow)] + Inbox(t.inbox)
  }

  function NextCleanup(tLastCleanup: nat, t: Tick): nat {
    if SweepDue(tLastCleanup, t) then t.now else tLastCleanup
  }

  function NextUpdate(c: Config, tLastUpdate: nat, t: Tick): nat {
    if ScanDue(c, tLastUpdate, t) then t.now else tLastUpdate
  }

  function Schedule(c: Config, tLastCleanup: nat, tLastUpdate: nat, ticks: seq<Tick>): seq<Event>
    decreases |ticks|
  {
    if ticks == [] then []
    else
      TickEvents(c, tLastCleanup, tLastUpdate, ticks[0]) +
      Schedule(c, NextCleanup(tLastCleanup, ticks[0]), NextUpdate(c, tLastUpdate, ticks[0]), ticks[1..])
  }

  lemma {:induction false} SchedulePositive(c: Config, tLastCleanup: nat, tLastUpdate: nat, ticks: seq<Tick>)
    requires forall i :: 0 <= i < |ticks| ==> PositiveClock(ticks[i])
    ensures forall e :: e in Schedule(c, tLastCleanup, tLastUpdate, ticks) ==> e.now > 0
    decreases |ticks|
  {
    hide PositiveClock;
    if ticks != [] {
      TickPositive(c, tLastCleanup, tLastUpdate, ticks[0]);
      SchedulePositive(c, NextCleanup(tLastCleanup, ticks[0]), NextUpdate(c, tLastUpdate, ticks[0]), ticks[1..]);
    }
  }

  lemma TickPositive(c: Config, tLastCleanup: nat, tLastUpdate: nat, t: Tick)
    requires PositiveClock(t)
    ensures forall e :: e in TickEvents(c, tLastCleanup, tLastUpdate, t) ==> e.now > 0
  {
    forall e | e in Inbox(t.inbox)
      ensures e.now > 0
    {
      var i :| 0 <= i < |t.inbox| && Inbox(t.inbox)[i] == e;
      assert t.inbox[i] in t.inbox;
    }
  }
}
