/** The data reported to the listener, and the order on stream keys. */
module Streams {
  import opened ByteStrings

  /** The 16 bytes of the address union; an IPv4 address occupies the first four. */
  type Address = b: Bytes | |b| == 16 witness [0, 0, 0, 0, 0, 0, 0, 0, 0, 0, 0, 0, 0, 0, 0, 0]

  const ZERO_ADDRESS: Address := [0, 0, 0, 0, 0, 0, 0, 0, 0, 0, 0, 0, 0, 0, 0, 0]

  function Ipv4(a: Address): nat {
    Field(a, 0, 4)
  }

  datatype StreamKey = StreamKey(
    isV6: nat, ipproto: nat, pad: nat, ifindex: nat, lport: nat, rport: nat,
    local: Address, remote: Address)
  {
    /** The comparison that lets an application use the key in an ordered map. */
    predicate Less(b: StreamKey) {
      if isV6 < b.isV6 then true
      else if isV6 > b.isV6 then false
      else if ipproto < b.ipproto then true
      else if ipproto > b.ipproto then false
      else if lport < b.lport then true
      else if lport > b.lport then false
      else if rport < b.rport then true
      else if rport > b.rport then false
      else if ifindex < b.ifindex then true
      else if ifindex > b.ifindex then false
      else if isV6 != 0 then
        var d := Memcmp(local, b.local);
        if d < 0 then true
        else if d > 0 then false
        else Memcmp(remote, b.remote) < 0
      else if Ipv4(local) < Ipv4(b.local) then true
      else if Ipv4(local) > Ipv4(b.local) then false
      else Ipv4(remote) < Ipv4(b.remote)
    }

    /** Agreement on everything the order looks at: `pad` is not, nor are the last 12 bytes of an IPv4 address. */
    predicate SameStream(b: StreamKey) {
      && isV6 == b.isV6 && ipproto == b.ipproto && ifindex == b.ifindex
      && lport == b.lport && rport == b.rport
      && (if isV6 != 0 then local == b.local && remote == b.remote
          else local[..4] == b.local[..4] && remote[..4] == b.remote[..4])
    }
  }

  /** Sign of the first byte difference. */
  function Memcmp(a: Bytes, b: Bytes): int
    requires |a| == |b|
  {
    if a == [] then 0
    else if a[0] != b[0] then a[0] - b[0]
    else Memcmp(a[1..], b[1..])
  }

  datatype Process = Process(pid: nat, name: Bytes)

  datatype Counters = Counters(
    rxpackets: nat, txpackets: nat, rxbytes: nat, txbytes: nat,
    cellRxbytes: nat, cellTxbytes: nat, wifiRxbytes: nat, wifiTxbytes: nat,
    wiredRxbytes: nat, wiredTxbytes: nat)

  datatype StreamState = StreamState(state: nat, txcwindow: nat, txwindow: nat)

  datatype Stream = Stream(id: nat, key: StreamKey, process: Process, stats: Counters, states: StreamState)

  /** The zero-initialised stream of a source that has not been described yet. */
  function BlankStream(id: nat): Stream {
    Stream(id, StreamKey(0, 0, 0, 0, 0, 0, ZERO_ADDRESS, ZERO_ADDRESS), Process(0, []),
           Counters(0, 0, 0, 0, 0, 0, 0, 0, 0, 0), StreamState(0, 0, 0))
  }

  predicate HasPorts(obj: Stream) {
    !(obj.key.lport == 0 && obj.key.rport == 0)
  }

  // ---- the key order -------------------------------------------------------

  lemma {:induction false} MemcmpAntisymmetric(a: Bytes, b: Bytes)
    requires |a| == |b|
    ensures Memcmp(a, b) < 0 <==> Memcmp(b, a) > 0
    ensures Memcmp(a, b) > 0 <==> Memcmp(b, a) < 0
    ensures Memcmp(a, b) == 0 <==> a == b
  {
    if a != [] && a[0] == b[0] {
      MemcmpAntisymmetric(a[1..], b[1..]);
      assert a == [a[0]] + a[1..] && b == [b[0]] + b[1..];
    }
  }

  lemma {:induction false} MemcmpTransitive(a: Bytes, b: Bytes, c: Bytes)
    requires |a| == |b| == |c|
    requires Memcmp(a, b) < 0 && Memcmp(b, c) < 0
    ensures Memcmp(a, c) < 0
  {
    if a[0] == b[0] == c[0] {
      MemcmpTransitive(a[1..], b[1..], c[1..]);
    }
  }

  lemma {:induction false} FieldInjective(a: Bytes, b: Bytes, off: nat, w: nat)
    requires off + w <= |a| && off + w <= |b|
    ensures Field(a, off, w) == Field(b, off, w) <==> a[off..off + w] == b[off..off + w]
    decreases w
  {
    if w > 0 {
      FieldInjective(a, b, off + 1, w - 1);
      assert a[off..off + w] == [a[off]] + a[off + 1..off + w];
      assert b[off..off + w] == [b[off]] + b[off + 1..off + w];
      assert At(a, off) == Field(a, off, w) % 256 && At(b, off) == Field(b, off, w) % 256;
      if a[off..off + w] == b[off..off + w] {
        assert a[off] == a[off..off + w][0] == b[off];
        assert a[off + 1..off + w] == a[off..off + w][1..] == b[off + 1..off + w];
      }
    }
  }

  lemma KeyOrderTransitive(a: StreamKey, b: StreamKey, c: StreamKey)
    requires a.Less(b) && b.Less(c)
    ensures a.Less(c)
  {
    MemcmpAntisymmetric(a.local, b.local);
    MemcmpAntisymmetric(b.local, c.local);
    if Memcmp(a.local, b.local) < 0 && Memcmp(b.local, c.local) < 0 {
      MemcmpTransitive(a.local, b.local, c.local);
    }
    if Memcmp(a.remote, b.remote) < 0 && Memcmp(b.remote, c.remote) < 0 {
      MemcmpTransitive(a.remote, b.remote, c.remote);
    }
  }

  /** Asymmetric (so irreflexive), and neither key is less exactly when they name the same stream. */
  lemma KeyOrderTrichotomy(a: StreamKey, b: StreamKey)
    ensures a.Less(b) ==> !b.Less(a)
    ensures !a.Less(b) && !b.Less(a) <==> a.SameStream(b)
  {
    MemcmpAntisymmetric(a.local, b.local);
    MemcmpAntisymmetric(a.remote, b.remote);
    FieldInjective(a.local, b.local, 0, 4);
    FieldInjective(a.remote, b.remote, 0, 4);
  }

  /** Keys that compare as equivalent are interchangeable on both sides of the order. */
  lemma KeyOrderRespectsSameStream(a: StreamKey, b: StreamKey, c: StreamKey)
    requires a.SameStream(b)
    ensures a.Less(c) <==> b.Less(c)
    ensures c.Less(a) <==> c.Less(b)
  {
    FieldInjective(a.local, b.local, 0, 4);
    FieldInjective(a.remote, b.remote, 0, 4);
  }

  // ---- the key order is lexicographic ----------------------------------------

  predicate LexLess(a: seq<int>, b: seq<int>) {
    a != [] && b != [] && (a[0] < b[0] || (a[0] == b[0] && LexLess(a[1..], b[1..])))
  }

  /** What the order compares, in turn: addresses byte by byte, or as one number each. */
  function Ranks(k: StreamKey): seq<int> {
    [k.isV6, k.ipproto, k.lport, k.rport, k.ifindex] +
    if k.isV6 != 0 then k.local + k.remote else [Ipv4(k.local), Ipv4(k.remote)]
  }

  lemma LexCons(x: int, a: seq<int>, y: int, b: seq<int>)
    ensures LexLess([x] + a, [y] + b) <==> x < y || (x == y && LexLess(a, b))
  {
    assert ([x] + a)[1..] == a && ([y] + b)[1..] == b;
  }

  lemma {:induction false} LexBytes(a: Bytes, b: Bytes, c: Bytes, d: Bytes)
    requires |a| == |b|
    ensures LexLess(a + c, b + d) <==> Memcmp(a, b) < 0 || (Memcmp(a, b) == 0 && LexLess(c, d))
    decreases |a|
  {
    if a == [] {
      assert a + c == c && b + d == d;
    } else {
      LexBytes(a[1..], b[1..], c, d);
      assert a + c == [a[0]] + (a[1..] + c) && b + d == [b[0]] + (b[1..] + d);
      LexCons(a[0], a[1..] + c, b[0], b[1..] + d);
    }
  }

  predicate First(x: int, y: int, rest: bool) {
    x < y || (x == y && rest)
  }

  lemma LexFive(a: seq<int>, b: seq<int>, c: seq<int>, d: seq<int>)
    requires |a| == |b| == 5
    ensures LexLess(a + c, b + d) <==>
            First(a[0], b[0], First(a[1], b[1], First(a[2], b[2], First(a[3], b[3], First(a[4], b[4], LexLess(c, d))))))
  {
    hide LexLess;
    assert a + c == [a[0]] + ([a[1]] + ([a[2]] + ([a[3]] + ([a[4]] + c))));
    assert b + d == [b[0]] + ([b[1]] + ([b[2]] + ([b[3]] + ([b[4]] + d))));
    LexCons(a[4], c, b[4], d);
    LexCons(a[3], [a[4]] + c, b[3], [b[4]] + d);
    LexCons(a[2], [a[3]] + ([a[4]] + c), b[2], [b[3]] + ([b[4]] + d));
    LexCons(a[1], [a[2]] + ([a[3]] + ([a[4]] + c)), b[1], [b[2]] + ([b[3]] + ([b[4]] + d)));
    LexCons(a[0], [a[1]] + ([a[2]] + ([a[3]] + ([a[4]] + c))), b[0], [b[1]] + ([b[2]] + ([b[3]] + ([b[4]] + d))));
  }

  lemma LexTwo(a: int, b: int, c: int, d: int)
    ensures LexLess([a, b], [c, d]) <==> a < c || (a == c && b < d)
  {
    assert [a, b] == [a] + ([b] + []) && [c, d] == [c] + ([d] + []);
    LexCons(a, [b] + [], c, [d] + []);
    LexCons(b, [], d, []);
    NothingLess();
  }

  /** Keys are ordered by address family, protocol, local port, remote port, interface, local and remote address. */
  lemma KeyOrderIsLexicographic(a: StreamKey, b: StreamKey)
    ensures a.Less(b) <==> LexLess(Ranks(a), Ranks(b))
  {
    hide LexLess, Memcmp, Ipv4;
    var five := [a.isV6, a.ipproto, a.lport, a.rport, a.ifindex];
    var five' := [b.isV6, b.ipproto, b.lport, b.rport, b.ifindex];
    LexFive(five, five', Ranks(a)[5..], Ranks(b)[5..]);
    assert Ranks(a) == five + Ranks(a)[5..] && Ranks(b) == five' + Ranks(b)[5..];
    if a.isV6 == b.isV6 == 0 {
      assert Ranks(a)[5..] == [Ipv4(a.local), Ipv4(a.remote)] && Ranks(b)[5..] == [Ipv4(b.local), Ipv4(b.remote)];
      LexTwo(Ipv4(a.local), Ipv4(a.remote), Ipv4(b.local), Ipv4(b.remote));
    } else if a.isV6 == b.isV6 {
      assert Ranks(a)[5..] == a.local + a.remote && Ranks(b)[5..] == b.local + b.remote;
      LexBytes(a.local, b.local, a.remote, b.remote);
      LexBytes(a.remote, b.remote, [], []);
      assert a.remote + [] == a.remote && b.remote + [] == b.remote;
      NothingLess();
    }
  }

  lemma NothingLess()
    ensures !LexLess([], [])
  {
  }
}
