/** Log indices are stored under 8-byte big-endian keys so that the byte order
    of a bucket is the numeric order of its indices. */
module IndexKeys {

  type Byte = n: nat | n < 256
  type Key = seq<Byte>

  function Pow256(w: nat): (p: nat)
    ensures p > 0
  {
    if w == 0 then 1 else 256 * Pow256(w - 1)
  }

  lemma MulMonotone(a: nat, b: nat, p: nat)
    requires a <= b
    ensures a * p <= b * p
  {
  }

  /** The most significant byte, and what remains below it. */
  function Top(n: nat, p: nat): (b: Byte)
    requires p > 0 && n < 256 * p
    ensures b * p <= n < b * p + p
  {
    TopFits(n, p);
    n / p
  }

  lemma TopFits(n: nat, p: nat)
    requires p > 0 && n < 256 * p
    ensures 0 <= n / p < 256 && (n / p) * p <= n < (n / p) * p + p
  {
    assert n == (n / p) * p + n % p;
  }

  function Encode(w: nat, n: nat): (k: Key)
    requires n < Pow256(w)
    ensures |k| == w
    decreases w
  {
    if w == 0 then []
    else
      var p := Pow256(w - 1);
      var top := Top(n, p);
      [top] + Encode(w - 1, n - top * p)
  }

  lemma DigitBound(top: nat, p: nat, rest: nat)
    requires top < 256 && rest < p
    ensures 0 <= top * p + rest < 256 * p
  {
    MulMonotone(top + 1, 256, p);
  }

  function Decode(k: Key): (n: nat)
    ensures n < Pow256(|k|)
  {
    if k == [] then 0
    else
      var top: nat := k[0];
      var rest := Decode(k[1..]);
      DigitBound(top, Pow256(|k| - 1), rest);
      top * Pow256(|k| - 1) + rest
  }

  predicate Less(a: Key, b: Key)
  {
    b != [] && (a == [] || a[0] < b[0] || (a[0] == b[0] && Less(a[1..], b[1..])))
  }

  lemma {:induction false} DecodeEncode(w: nat, n: nat)
    requires n < Pow256(w)
    ensures Decode(Encode(w, n)) == n
    decreases w
  {
    if w > 0 {
      var p := Pow256(w - 1);
      DecodeEncode(w - 1, n - Top(n, p) * p);
    }
  }

  lemma TopUnique(q: nat, p: nat, n: nat)
    requires q < 256 && q * p <= n < q * p + p && n < 256 * p
    ensures Top(n, p) == q
  {
    var d: nat := Top(n, p);
    if d < q { MulMonotone(d + 1, q, p); }
    if q < d { MulMonotone(q + 1, d, p); }
  }

  lemma {:induction false} EncodeDecode(k: Key)
    ensures Encode(|k|, Decode(k)) == k
  {
    if k != [] {
      TopUnique(k[0], Pow256(|k| - 1), Decode(k));
      EncodeDecode(k[1..]);
    }
  }

  /** Byte order is numeric order. */
  lemma {:induction false} OrderPreserved(w: nat, m: nat, n: nat)
    requires m < Pow256(w) && n < Pow256(w)
    ensures Less(Encode(w, m), Encode(w, n)) <==> m < n
    decreases w
  {
    if w > 0 {
      var p := Pow256(w - 1);
      var a, b := Top(m, p), Top(n, p);
      var m', n' := m - a * p, n - b * p;
      OrderPreserved(w - 1, m', n');
      CompareByTop(m, n, p, a, b);
      LessOfCons(a, Encode(w - 1, m'), b, Encode(w - 1, n'));
      assert Encode(w, m) == [a] + Encode(w - 1, m') && Encode(w, n) == [b] + Encode(w - 1, n');
    }
  }

  lemma CompareByTop(m: nat, n: nat, p: nat, a: nat, b: nat)
    requires a * p <= m < a * p + p && b * p <= n < b * p + p
    ensures m < n <==> a < b || (a == b && m - a * p < n - b * p)
  {
    if a < b { MulMonotone(a + 1, b, p); }
    if b < a { MulMonotone(b + 1, a, p); }
  }

  lemma LessOfCons(x: Byte, a: Key, y: Byte, b: Key)
    ensures Less([x] + a, [y] + b) <==> x < y || (x == y && Less(a, b))
  {
    assert ([x] + a)[1..] == a && ([y] + b)[1..] == b;
  }

  /** For keys of one width, in particular the 8 bytes of indexKey: a cursor
      meets the indices in increasing order, and distinct keys never name the
      same index. */
  lemma CursorOrder(a: Key, b: Key)
    requires |a| == |b|
    ensures Less(a, b) <==> Decode(a) < Decode(b)
    ensures Decode(a) == Decode(b) <==> a == b
  {
    EncodeDecode(a);
    EncodeDecode(b);
    OrderPreserved(|a|, Decode(a), Decode(b));
  }
}
