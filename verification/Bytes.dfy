/** Little-endian words and byte-range updates, as DataView and Uint8Array perform them. */
module Bytes {
  import opened Numbers

  type byte = x: int | 0 <= x < 256

  const TWO_TO_31 := 0x8000_0000
  const TWO_TO_32 := 0x1_0000_0000

  /** The JavaScript conversion of a number to a signed 32-bit integer. */
  function ToInt32(x: int): (r: int)
    ensures -TWO_TO_31 <= r < TWO_TO_31 && (x - r) % TWO_TO_32 == 0
  {
    var u := x % TWO_TO_32;
    if u < TWO_TO_31 then u else u - TWO_TO_32
  }

  /** `v & ~7` on a signed 32-bit integer. */
  function AlignDown8(v: int): (r: int)
    ensures r % 8 == 0 && r <= v < r + 8
  {
    v - v % 8
  }

  function Pow256(n: nat): (r: nat)
    ensures r > 0
  {
    if n == 0 then 1 else 0x100 * Pow256(n - 1)
  }

  /** The n low bytes of v, lowest first. */
  function LEBytes(v: nat, n: nat): (r: seq<byte>)
    ensures |r| == n
  {
    if n == 0 then [] else [v % 0x100] + LEBytes(v / 0x100, n - 1)
  }

  function LEValue(b: seq<byte>): (v: nat)
    ensures v < Pow256(|b|)
  {
    if b == [] then 0 else
      var low: int := b[0];
      low + 0x100 * LEValue(b[1..])
  }

  lemma {:induction false} LERoundTrip(v: nat, n: nat)
    requires v < Pow256(n)
    ensures LEValue(LEBytes(v, n)) == v
  {
    if n > 0 {
      LERoundTrip(v / 0x100, n - 1);
      assert LEBytes(v, n)[1..] == LEBytes(v / 0x100, n - 1);
    }
  }

  lemma DivideTwice(v: nat)
    ensures v / 0x100 / 0x100 == v / 0x1_0000 && v / 0x1_0000 / 0x100 == v / 0x100_0000
  {
  }

  /** The lowest byte comes first. */
  lemma LowByteFirst(v: nat)
    ensures LE32(v) == [v % 0x100, v / 0x100 % 0x100, v / 0x1_0000 % 0x100, v / 0x100_0000 % 0x100]
  {
    DivideTwice(v);
    var q1, q2, q3: nat := v / 0x100, v / 0x1_0000, v / 0x100_0000;
    assert LEBytes(q3, 1) == [q3 % 0x100];
    assert LEBytes(q2, 2) == [q2 % 0x100] + LEBytes(q3, 1);
    assert LEBytes(q1, 3) == [q1 % 0x100] + LEBytes(q2, 2);
    assert LE32(v) == [v % 0x100] + LEBytes(q1, 3);
  }

  lemma {:induction false} LEBytesOfValue(b: seq<byte>)
    ensures LEBytes(LEValue(b), |b|) == b
  {
    if b != [] {
      LEBytesOfValue(b[1..]);
      var v := LEValue(b);
      assert v % 0x100 == b[0] && v / 0x100 == LEValue(b[1..]);
    }
  }

  lemma Pow256Of4()
    ensures Pow256(4) == TWO_TO_32
  {
    assert Pow256(2) == 0x1_0000;
  }

  /** The four bytes DataView.setUint32(.., v, true) stores; larger values wrap. */
  function LE32(v: nat): (r: seq<byte>)
    ensures |r| == 4
  {
    LEBytes(v, 4)
  }

  function U32At(m: seq<byte>, at: int): (v: nat)
    requires 0 <= at && at + 4 <= |m|
    ensures v < TWO_TO_32
  {
    Pow256Of4();
    LEValue(m[at..at + 4])
  }

  lemma WordAt(m: seq<byte>, at: int, v: nat)
    requires 0 <= at && at + 4 <= |m| && v < TWO_TO_32 && m[at..at + 4] == LE32(v)
    ensures U32At(m, at) == v
  {
    Pow256Of4();
    LERoundTrip(v, 4);
  }

  /** Write `b` at `at`; whatever would fall past the end is dropped. */
  function Overwrite(m: seq<byte>, at: nat, b: seq<byte>): (r: seq<byte>)
    ensures |r| == |m|
    ensures forall i {:trigger r[i]} :: 0 <= i < |m| && !(at <= i < at + |b|) ==> r[i] == m[i]
    ensures at + |b| <= |m| ==> r[at..at + |b|] == b
  {
    var r := seq(|m|, i requires 0 <= i < |m| => if at <= i < at + |b| then b[i - at] else m[i]);
    assert at + |b| <= |m| ==> r[at..at + |b|] == b;
    r
  }

  /** Uint8Array.copyWithin for non-negative offsets: offsets past the end are clamped, overlap is safe. */
  function CopyWithin(m: seq<byte>, target: nat, start: nat, end: nat): (r: seq<byte>)
    requires start <= end
  {
    Overwrite(m, target, m[Min(start, |m|)..Min(end, |m|)])
  }

  /** An empty copy is skipped. */
  function CopyNonEmpty(m: seq<byte>, target: nat, start: nat, len: nat): (r: seq<byte>)
    ensures |r| == |m|
    ensures forall i {:trigger r[i]} :: 0 <= i < |m| && !(target <= i < target + len) ==> r[i] == m[i]
  {
    if len > 0 then CopyWithin(m, target, start, start + len) else m
  }

  /** An in-range copy puts the source bytes at the target and leaves everything below alone. */
  lemma CopyLands(m: seq<byte>, to: nat, from: nat, data: seq<byte>)
    requires to + |data| <= |m|
    requires data != [] ==> from + |data| <= |m| && m[from..from + |data|] == data
    ensures CopyNonEmpty(m, to, from, |data|)[to..to + |data|] == data
    ensures CopyNonEmpty(m, to, from, |data|)[..to] == m[..to]
  {
    var r := CopyNonEmpty(m, to, from, |data|);
    assert r[..to] == m[..to];
  }

  lemma SamePrefix(m: seq<byte>, n: seq<byte>, cut: nat, lo: nat, hi: nat)
    requires lo <= hi <= cut <= |m| && cut <= |n| && m[..cut] == n[..cut]
    ensures m[lo..hi] == n[lo..hi]
  {
    assert m[lo..hi] == m[..cut][lo..hi];
    assert n[lo..hi] == n[..cut][lo..hi];
  }

  lemma SliceOfSlice(m: seq<byte>, p: nat, q: nat, lo: nat, hi: nat)
    requires p <= q <= |m| && lo <= hi <= q - p
    ensures m[p..q][lo..hi] == m[p + lo..p + hi]
  {
    forall i | 0 <= i < hi - lo ensures m[p..q][lo..hi][i] == m[p + lo..p + hi][i] {
      assert m[p..q][lo + i] == m[p + lo + i];
    }
  }

  /** The words laid out one after the other. */
  function Flat(words: seq<nat>): (r: seq<byte>)
    ensures |r| == 4 * |words|
  {
    if words == [] then [] else LE32(words[0]) + Flat(words[1..])
  }

  lemma {:induction false} FlatAt(words: seq<nat>, k: nat)
    requires k < |words|
    ensures Flat(words)[4 * k..4 * k + 4] == LE32(words[k])
  {
    if k > 0 {
      FlatAt(words[1..], k - 1);
      assert Flat(words)[4 * k..4 * k + 4] == Flat(words[1..])[4 * (k - 1)..4 * (k - 1) + 4];
    }
  }

  datatype Stored = Stored(mem: seq<byte>, ok: bool)

  /** Consecutive DataView.setUint32 calls; the first one out of range throws. */
  function StoreWords(m: seq<byte>, at: nat, words: seq<nat>): (r: Stored)
    ensures |r.mem| == |m| && (r.ok <==> words == [] || at + 4 * |words| <= |m|)
    ensures forall i {:trigger r.mem[i]} :: 0 <= i < |m| && !(at <= i < at + 4 * |words|) ==> r.mem[i] == m[i]
    ensures r.ok && words != [] ==> r.mem[at..at + 4 * |words|] == Flat(words)
    decreases |words|
  {
    if words == [] then Stored(m, true)
    else if at + 4 > |m| then Stored(m, false)
    else
      var m1 := Overwrite(m, at, LE32(words[0]));
      var r := StoreWords(m1, at + 4, words[1..]);
      assert m1[at..at + 4] == LE32(words[0]);
      assert forall i :: at <= i < at + 4 ==> r.mem[i] == m1[i];
      assert r.ok ==> r.mem[at..at + 4] == LE32(words[0]);
      assert r.ok && |words| > 1 ==> r.mem[at..at + 4 * |words|] == r.mem[at..at + 4] + r.mem[at + 4..at + 4 * |words|];
      r
  }
}
