/** Values shared by every part of the wall detector: optional values, plane points,
    squared distances, the square root the geometry library uses, and Python's
    insertion-ordered dictionaries. */
module Common {

  datatype Option<+T> = None | Some(value: T) {
    /** Python's `d.get(key, default)` once the lookup has been made. */
    function GetOr(default: T): T {
      if Some? then value else default
    }
  }

  /** A 2-D drawing coordinate (x, y). */
  datatype Point = Point(x: real, y: real)

  /** Real multiplication. Products are kept behind this function so that the
      facts the proofs need about them are stated once, as lemmas below. */
  function Mul(a: real, b: real): real { a * b }

  lemma MulNonNeg(a: real, b: real)
    requires (0.0 <= a && 0.0 <= b) || (a <= 0.0 && b <= 0.0)
    ensures Mul(a, b) >= 0.0
  {}

  lemma MulPos(a: real, b: real)
    requires (0.0 < a && 0.0 < b) || (a < 0.0 && b < 0.0)
    ensures Mul(a, b) > 0.0
  {}

  lemma MulMonotone(a: real, b: real, c: real, d: real)
    requires 0.0 <= a <= b && 0.0 <= c <= d
    ensures Mul(a, c) <= Mul(b, d)
  {
    assert a * c <= b * c;
    assert b * c <= b * d;
  }

  lemma MulStrictMonotone(a: real, b: real, c: real, d: real)
    requires 0.0 <= a < b && 0.0 <= c < d
    ensures Mul(a, c) < Mul(b, d)
  {
    assert a * c <= b * c;
    assert b * c < b * d;
  }

  /** Squared Euclidean distance. Where the source compares `math.hypot(dx, dy)`
      against a bound or against another hypot, the model compares squares. */
  function DistSq(p: Point, q: Point): real {
    Mul(p.x - q.x, p.x - q.x) + Mul(p.y - q.y, p.y - q.y)
  }

  lemma DistSqProperties(p: Point, q: Point)
    ensures DistSq(p, q) >= 0.0
    ensures DistSq(p, q) == DistSq(q, p)
    ensures p == q <==> DistSq(p, q) == 0.0
  {
    var dx, dy := p.x - q.x, p.y - q.y;
    MulNonNeg(dx, dx);
    MulNonNeg(dy, dy);
    if dx != 0.0 {
      MulPos(dx, dx);
    }
    if dy != 0.0 {
      MulPos(dy, dy);
    }
    assert Mul(dx, dx) == Mul(q.x - p.x, q.x - p.x);
    assert Mul(dy, dy) == Mul(q.y - p.y, q.y - p.y);
  }

  /** `hypot <= bound`, stated on the squared distance. */
  predicate HypotLe(dsq: real, bound: real) {
    0.0 <= bound && dsq <= Mul(bound, bound)
  }

  /** `hypot < bound`, stated on the squared distance. */
  predicate HypotLt(dsq: real, bound: real) {
    0.0 < bound && dsq < Mul(bound, bound)
  }

  /** `f` is the non-negative square root on the non-negative reals (what
      `math.hypot` and Shapely's `Point.distance` are built on). */
  ghost predicate IsSqrt(f: real -> real) {
    forall x :: 0.0 <= x ==> 0.0 <= f(x) && Mul(f(x), f(x)) == x
  }

  /** Comparing a hypot with a bound is comparing its square with the bound's
      square: the encoding used throughout the model is exact. */
  lemma HypotCompare(sqrt: real -> real, dsq: real, bound: real)
    requires IsSqrt(sqrt) && 0.0 <= dsq
    ensures sqrt(dsq) <= bound <==> HypotLe(dsq, bound)
    ensures sqrt(dsq) < bound <==> HypotLt(dsq, bound)
  {
    var s := sqrt(dsq);
    assert 0.0 <= s && Mul(s, s) == dsq;
    if bound < 0.0 {
    } else if s <= bound {
      MulMonotone(s, bound, s, bound);
      if s < bound {
        MulStrictMonotone(s, bound, s, bound);
      }
    } else {
      MulStrictMonotone(bound, s, bound, s);
    }
  }

  /** Square roots are unique: the root of `a * a` is `a` for `a >= 0`. */
  lemma SqrtOfSquare(sqrt: real -> real, a: real)
    requires IsSqrt(sqrt) && 0.0 <= a
    ensures sqrt(Mul(a, a)) == a
  {
    MulNonNeg(a, a);
    var s := sqrt(Mul(a, a));
    assert 0.0 <= s && Mul(s, s) == Mul(a, a);
    if s < a {
      MulStrictMonotone(s, a, s, a);
    } else if a < s {
      MulStrictMonotone(a, s, a, s);
    }
  }

  /** The square root preserves order, so comparing two hypots is comparing
      their squares. */
  lemma SqrtMonotone(sqrt: real -> real, x: real, y: real)
    requires IsSqrt(sqrt) && 0.0 <= x && 0.0 <= y
    ensures sqrt(x) < sqrt(y) <==> x < y
    ensures sqrt(x) <= sqrt(y) <==> x <= y
  {
    var a, b := sqrt(x), sqrt(y);
    assert Mul(a, a) == x && Mul(b, b) == y;
    if a < b {
      MulStrictMonotone(a, b, a, b);
    } else if b < a {
      MulStrictMonotone(b, a, b, a);
    }
  }

  /** A number that may be `float('inf')`: the starting value of the source's
      running minima. */
  datatype Extended = Finite(v: real) | Infinity {
    predicate Below(other: Extended) {
      Finite? && (other.Infinity? || v < other.v)
    }
    function Min(other: Extended): Extended {
      if other.Below(this) then other else this
    }
  }

  // ---------------------------------------------------------------------------
  // Insertion-ordered dictionaries: a sequence of key/value pairs, keys distinct.
  // ---------------------------------------------------------------------------

  predicate DistinctKeys<K(==), V>(d: seq<(K, V)>) {
    forall i, j :: 0 <= i < j < |d| ==> d[i].0 != d[j].0
  }

  predicate HasKey<K(==), V>(d: seq<(K, V)>, k: K) {
    exists i :: 0 <= i < |d| && d[i].0 == k
  }

  /** `d.get(k)`: the value stored under `k`, if any. */
  function Get<K(==), V>(d: seq<(K, V)>, k: K): (r: Option<V>)
    ensures r.Some? <==> HasKey(d, k)
  {
    if d == [] then None
    else if d[0].0 == k then Some(d[0].1)
    else
      assert forall i :: 1 <= i < |d| && d[i].0 == k ==> d[1..][i - 1].0 == k;
      Get(d[1..], k)
  }

  lemma {:induction false} GetAt<K, V>(d: seq<(K, V)>, i: nat)
    requires DistinctKeys(d) && i < |d|
    ensures Get(d, d[i].0) == Some(d[i].1)
  {
    if i > 0 {
      DistinctTail(d);
      GetAt(d[1..], i - 1);
      assert d[1..][i - 1] == d[i];
    }
  }

  lemma DistinctTail<K, V>(d: seq<(K, V)>)
    requires DistinctKeys(d) && d != []
    ensures DistinctKeys(d[1..])
  {
    forall a, b | 0 <= a < b < |d[1..]| ensures d[1..][a].0 != d[1..][b].0 {
      assert d[1..][a] == d[a + 1] && d[1..][b] == d[b + 1];
    }
  }

  /** `d[k] = v` on a dictionary: an existing key keeps its position and takes the
      new value; a new key goes to the end. */
  function Put<K(==), V>(d: seq<(K, V)>, k: K, v: V): (r: seq<(K, V)>)
    requires DistinctKeys(d)
    ensures DistinctKeys(r)
    ensures |r| == if HasKey(d, k) then |d| else |d| + 1
    ensures forall i :: 0 <= i < |d| ==> r[i].0 == d[i].0
    ensures HasKey(d, k) ==> forall i :: 0 <= i < |d| ==> r[i] == (if d[i].0 == k then (k, v) else d[i])
    ensures !HasKey(d, k) ==> r == d + [(k, v)]
    ensures HasKey(r, k)
  {
    if HasKey(d, k) then
      var r := seq(|d|, i requires 0 <= i < |d| => if d[i].0 == k then (k, v) else d[i]);
      assert HasKey(r, k) by {
        var j :| 0 <= j < |d| && d[j].0 == k;
        assert r[j].0 == k;
      }
      r
    else
      var r := d + [(k, v)];
      assert r[|d|].0 == k;
      r
  }

  /** Looking up after `d[k] = v`: `k` gives `v`, every other key what it gave
      before. */
  lemma GetAfterPut<K, V>(d: seq<(K, V)>, k: K, v: V, x: K)
    requires DistinctKeys(d)
    ensures Get(Put(d, k, v), x) == if x == k then Some(v) else Get(d, x)
  {
    var r := Put(d, k, v);
    if HasKey(r, x) {
      var i :| 0 <= i < |r| && r[i].0 == x;
      GetAt(r, i);
      if x != k {
        GetAt(d, i);
      }
    }
  }
}
