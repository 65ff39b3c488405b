/** Byte strings and the little-endian integers that message structs and recordings are made of. */
module ByteStrings {

  type byte = x: int | 0 <= x < 256
  type Bytes = seq<byte>

  function Pow256(w: nat): (p: nat)
    ensures p > 0
  {
    if w == 0 then 1 else 256 * Pow256(w - 1)
  }

  /** The `w` low-order bytes of `n`, least significant first: storing `n` in a `w`-byte unsigned field. */
  function Le(n: nat, w: nat): (b: Bytes)
    ensures |b| == w
    decreases w, n
  {
    if w == 0 then [] else [n % 256] + Le(n / 256, w - 1)
  }

  /** Fields that a value-initialised message leaves zero. */
  function Zeros(n: nat): (b: Bytes)
    ensures |b| == n
  {
    seq(n, _ => 0)
  }

  /** Reading past the end of a message yields zero bytes. */
  function At(b: Bytes, i: nat): byte {
    if i < |b| then b[i] else 0
  }

  /** The `w`-byte unsigned field at offset `off`. */
  function Field(b: Bytes, off: nat, w: nat): (n: nat)
    ensures n < Pow256(w)
    decreases w, b
  {
    if w == 0 then 0 else At(b, off) + 256 * Field(b, off + 1, w - 1)
  }

  lemma Pow256Values()
    ensures Pow256(2) == 0x1_0000
    ensures Pow256(4) == 0x1_0000_0000
    ensures Pow256(8) == 0x1_0000_0000_0000_0000
  {
    assert Pow256(4) == 256 * 256 * Pow256(2);
    assert Pow256(8) == 256 * 256 * Pow256(6) && Pow256(6) == 256 * 256 * Pow256(4);
  }

  lemma ModSplit(n: nat, p: nat)
    requires p > 0
    ensures n % (256 * p) == n % 256 + 256 * ((n / 256) % p)
  {
    var q := n / 256;
    assert n == 256 * q + n % 256;
    assert q == p * (q / p) + q % p;
    var r := n % 256 + 256 * (q % p);
    assert n == (256 * p) * (q / p) + r;
    assert 0 <= r < 256 * p;
    DivModUnique(n, 256 * p, q / p, r);
  }

  lemma DivModUnique(n: int, d: int, q: int, r: int)
    requires d > 0 && 0 <= r < d && n == d * q + r
    ensures n % d == r
  {
    var q', r' := n / d, n % d;
    assert n == d * q' + r';
    assert d * (q' - q) == r - r';
    assert q' - q >= 1 ==> d * (q' - q) >= d;
    assert q - q' >= 1 ==> d * (q - q') >= d;
  }

  /** What is stored in a field is read back modulo the field's width, wherever the field lies. */
  lemma {:induction false} FieldOfLe(a: Bytes, n: nat, w: nat, c: Bytes)
    ensures Field(a + Le(n, w) + c, |a|, w) == n % Pow256(w)
    decreases w
  {
    var b := a + Le(n, w) + c;
    if w > 0 {
      var a' := a + [n % 256];
      assert b == a' + Le(n / 256, w - 1) + c;
      FieldOfLe(a', n / 256, w - 1, c);
      assert At(b, |a|) == n % 256;
      ModSplit(n, Pow256(w - 1));
    }
  }
}
