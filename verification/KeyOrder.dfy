/** The byte order of store keys, prefix scans and zero-padded timestamps (gateway/store.go). */
module KeyOrder {
  import opened Octets
  import opened Options
  import opened Seqs

  /** Lexicographic order of octet strings, the order in which the store iterates. */
  predicate Less(a: Bytes, b: Bytes) {
    b != [] && (a == [] || a[0] < b[0] || (a[0] == b[0] && Less(a[1..], b[1..])))
  }

  lemma {:induction false} LessIrreflexive(a: Bytes)
    ensures !Less(a, a)
  {
    if a != [] {
      LessIrreflexive(a[1..]);
    }
  }

  lemma {:induction false} LessTransitive(a: Bytes, b: Bytes, c: Bytes)
    requires Less(a, b) && Less(b, c)
    ensures Less(a, c)
  {
    if a != [] && a[0] == b[0] == c[0] {
      LessTransitive(a[1..], b[1..], c[1..]);
    }
  }

  lemma {:induction false} LessTotal(a: Bytes, b: Bytes)
    ensures Less(a, b) || a == b || Less(b, a)
  {
    if a != [] && b != [] && a[0] == b[0] {
      LessTotal(a[1..], b[1..]);
      assert a == [a[0]] + a[1..] && b == [b[0]] + b[1..];
    }
  }

  /** A common prefix does not matter. */
  lemma {:induction false} LessAfterPrefix(p: Bytes, a: Bytes, b: Bytes)
    ensures Less(p + a, p + b) <==> Less(a, b)
  {
    if p == [] {
      assert p + a == a && p + b == b;
    } else {
      assert (p + a)[1..] == p[1..] + a && (p + b)[1..] == p[1..] + b;
      LessAfterPrefix(p[1..], a, b);
    }
  }

  /** Strings that differ in a common prefix are ordered by it. */
  lemma {:induction false} LessByPrefix(a: Bytes, b: Bytes, x: Bytes, y: Bytes)
    requires |a| == |b| && a != b
    ensures Less(a + x, b + y) <==> Less(a, b)
  {
    if a == [] {
    } else {
      assert (a + x)[1..] == a[1..] + x && (b + y)[1..] == b[1..] + y;
      assert a == [a[0]] + a[1..] && b == [b[0]] + b[1..];
      if a[0] == b[0] {
        LessByPrefix(a[1..], b[1..], x, y);
      }
    }
  }

  // ---- Prefix scans ----------------------------------------------------------

  const FF: Byte := 0xFF

  /** How many octets 0xFF the prefix ends in. */
  function TrailingFF(p: Bytes): (n: nat)
    ensures n <= |p|
    ensures forall i :: |p| - n <= i < |p| ==> p[i] == FF
    ensures n < |p| ==> p[|p| - n - 1] < FF
  {
    if p == [] || p[|p| - 1] != FF then 0 else 1 + TrailingFF(p[..|p| - 1])
  }

  function Zeros(n: nat): (z: Bytes)
    ensures |z| == n && forall i :: 0 <= i < n ==> z[i] == 0
  {
    seq(n, _ => 0)
  }

  /** `prefixUpperBound`: the carry turns trailing 0xFF octets into zeros; none for all-0xFF prefixes. */
  function UpperBound(p: Bytes): (r: Option<Bytes>) {
    Incremented(p, TrailingFF(p))
  }

  /** The octet before the last `n` goes up by one, and those become zero. */
  function Incremented(p: Bytes, n: nat): (r: Option<Bytes>)
    requires n < |p| ==> p[|p| - n - 1] < FF
  {
    if n >= |p| then None else Some(p[..|p| - n - 1] + [p[|p| - n - 1] + 1] + Zeros(n))
  }

  /** `prefixUpperBound`, in place on a copy of the prefix. */
  method PrefixUpperBound(prefix: Bytes) returns (r: Option<Bytes>)
    ensures r == UpperBound(prefix)
  {
    var n := |prefix|;
    var upper := new Byte[n](i requires 0 <= i < n => prefix[i]);
    var i := n - 1;
    while i >= 0
      invariant -1 <= i < n
      invariant forall j :: 0 <= j <= i ==> upper[j] == prefix[j]
      invariant forall j :: i < j < n ==> upper[j] == 0 && prefix[j] == FF
    {
      upper[i] := (upper[i] as int + 1) % 256;
      if upper[i] != 0 {
        TrailingFFIs(prefix, n - 1 - i);
        Carried(prefix, upper[..], i);
        return Some(upper[..]);
      }
      i := i - 1;
    }
    TrailingFFIs(prefix, n);
    return None;
  }

  lemma Carried(prefix: Bytes, upper: Bytes, i: nat)
    requires |upper| == |prefix| && i == |prefix| - 1 - TrailingFF(prefix)
    requires (forall j :: 0 <= j < i ==> upper[j] == prefix[j]) && upper[i] == prefix[i] + 1
    requires forall j :: i < j < |prefix| ==> upper[j] == 0
    ensures UpperBound(prefix) == Some(upper)
  {
    var n := TrailingFF(prefix);
    SplitAround(upper, i);
    assert upper[..i] == prefix[..i];
    assert upper[i + 1..] == Zeros(n);
    Assoc(prefix[..i], [prefix[i] + 1], Zeros(n));
  }

  lemma TrailingFFIs(p: Bytes, n: nat)
    requires n <= |p| && (forall i :: |p| - n <= i < |p| ==> p[i] == FF)
    requires n < |p| ==> p[|p| - n - 1] < FF
    ensures TrailingFF(p) == n
  {
  }

  ghost predicate InRange(key: Bytes, prefix: Bytes) {
    var upper := UpperBound(prefix);
    !Less(key, prefix) && (upper.Some? ==> Less(key, upper.value))
  }

  predicate AllFF(f: Bytes) {
    forall i :: 0 <= i < |f| ==> f[i] == FF
  }

  lemma {:induction false} AtLeastAllFF(key: Bytes, f: Bytes)
    requires AllFF(f)
    ensures !Less(key, f) <==> f <= key
  {
    if f != [] && key != [] {
      AtLeastAllFF(key[1..], f[1..]);
      assert key == [key[0]] + key[1..] && f == [f[0]] + f[1..];
    }
  }

  lemma {:induction false} BelowZeros(key: Bytes, z: Bytes)
    requires forall i :: 0 <= i < |z| ==> z[i] == 0
    ensures Less(key, z) <==> |key| < |z| && key == Zeros(|key|)
  {
    if z != [] && key != [] {
      BelowZeros(key[1..], z[1..]);
      assert key == [key[0]] + key[1..];
      assert Zeros(|key|) == [0] + Zeros(|key| - 1);
    }
  }

  /** A key outside a prefix is on the same side of everything under it. */
  lemma {:induction false} OutsidePrefix(q: Bytes, key: Bytes, x: Bytes, y: Bytes)
    requires !(q <= key) && x != [] && y != []
    ensures Less(key, q + x) == Less(key, q + y)
  {
    if key != [] && key[0] == q[0] {
      assert (q + x)[1..] == q[1..] + x && (q + y)[1..] == q[1..] + y;
      assert !(q[1..] <= key[1..]) by {
        assert q == [q[0]] + q[1..] && key == [key[0]] + key[1..];
      }
      OutsidePrefix(q[1..], key[1..], x, y);
    }
  }

  /** Keys that a scan visits although they do not have the prefix: the carried octet and zeros. */
  predicate Stray(key: Bytes, prefix: Bytes) {
    var n := TrailingFF(prefix);
    && n < |prefix|
    && |prefix| - n <= |key| < |prefix|
    && key == prefix[..|prefix| - n - 1] + [prefix[|prefix| - n - 1] + 1] + Zeros(|key| - (|prefix| - n))
  }

  /** Comparisons with a string that starts with `c` and goes on as `f`. */
  lemma Cons(t: Bytes, c: Byte, f: Bytes)
    requires t != []
    ensures Less(t, [c] + f) <==> t[0] < c || (t[0] == c && Less(t[1..], f))
    ensures [c] + f <= t <==> t[0] == c && f <= t[1..]
    ensures t == [c] + f <==> t[0] == c && t[1..] == f
  {
    assert ([c] + f)[1..] == f;
    assert t == [t[0]] + t[1..];
  }

  lemma RangeOfTail(c: Byte, f: Bytes, t: Bytes)
    requires c < FF && AllFF(f)
    ensures !Less(t, [c] + f) && Less(t, [c + 1] + Zeros(|f|)) <==>
            [c] + f <= t || (1 <= |t| <= |f| && t == [c + 1] + Zeros(|t| - 1))
  {
    if t != [] {
      Cons(t, c, f);
      Cons(t, c + 1, Zeros(|f|));
      Cons(t, c + 1, Zeros(|t| - 1));
      AtLeastAllFF(t[1..], f);
      BelowZeros(t[1..], Zeros(|f|));
    }
  }

  /** A tail `t` under the unchanged part `q` of the prefix lies between the two bounds. */
  lemma VisitsUnder(q: Bytes, c: Byte, f: Bytes, t: Bytes)
    requires c < FF && AllFF(f)
    ensures !Less(q + t, q + ([c] + f)) && Less(q + t, q + ([c + 1] + Zeros(|f|))) <==>
            [c] + f <= t || (1 <= |t| <= |f| && t == [c + 1] + Zeros(|t| - 1))
  {
    LessAfterPrefix(q, t, [c] + f);
    LessAfterPrefix(q, t, [c + 1] + Zeros(|f|));
    RangeOfTail(c, f, t);
  }

  lemma PrefixUnder(q: Bytes, x: Bytes, t: Bytes)
    ensures q + x <= q + t <==> x <= t
  {
    if x <= t {
      assert (q + t)[..|q| + |x|] == q + t[..|x|];
    }
    if q + x <= q + t {
      assert (q + t)[|q|..|q| + |x|] == t[..|x|];
      assert (q + x)[|q|..] == x;
    }
  }

  lemma StrayUnder(prefix: Bytes, k: nat, t: Bytes)
    requires k < |prefix| && TrailingFF(prefix) == |prefix| - k - 1
    ensures Stray(prefix[..k] + t, prefix) <==>
            1 <= |t| < |prefix| - k && t == [prefix[k] + 1] + Zeros(|t| - 1)
  {
    if 1 <= |t| {
      var u := [prefix[k] + 1] + Zeros(|t| - 1);
      assert prefix[..k] + [prefix[k] + 1] + Zeros(|t| - 1) == prefix[..k] + u;
      SameTail(prefix[..k], t, u);
    }
  }

  lemma TailIsFF(prefix: Bytes, k: nat)
    requires k < |prefix| && TrailingFF(prefix) == |prefix| - k - 1
    ensures prefix[k] < FF && AllFF(prefix[k + 1..])
  {
  }

  lemma UpperUnder(prefix: Bytes, k: nat, key: Bytes, upper: Bytes)
    requires k < |prefix| && TrailingFF(prefix) == |prefix| - k - 1 && prefix[k] < FF
    requires Incremented(prefix, |prefix| - k - 1) == Some(upper)
    ensures InRange(key, prefix) <==> !Less(key, prefix) && Less(key, upper)
  {
  }

  lemma ScanUnder(prefix: Bytes, k: nat, t: Bytes, key: Bytes)
    requires k < |prefix| && TrailingFF(prefix) == |prefix| - k - 1 && key == prefix[..k] + t
    ensures InRange(key, prefix) <==> prefix <= key || Stray(key, prefix)
  {
    RangeIs(prefix, k, t, key);
    StrayUnder(prefix, k, t);
  }

  lemma RangeIs(prefix: Bytes, k: nat, t: Bytes, key: Bytes)
    requires k < |prefix| && TrailingFF(prefix) == |prefix| - k - 1 && key == prefix[..k] + t
    ensures InRange(key, prefix) <==>
            prefix <= key || (1 <= |t| < |prefix| - k && t == [prefix[k] + 1] + Zeros(|t| - 1))
  {
    TailIsFF(prefix, k);
    BoundsUnder(prefix, k);
    var q, c, f, n := prefix[..k], prefix[k], prefix[k + 1..], |prefix| - k - 1;
    UpperUnder(prefix, k, key, q + ([c + 1] + Zeros(n)));
    RangeUnder(q, c, f, n, t, key, prefix);
  }

  lemma RangeUnder(q: Bytes, c: Byte, f: Bytes, n: nat, t: Bytes, key: Bytes, prefix: Bytes)
    requires c < FF && AllFF(f) && |f| == n
    requires key == q + t && prefix == q + ([c] + f)
    ensures !Less(key, prefix) && Less(key, q + ([c + 1] + Zeros(n))) <==>
            prefix <= key || (1 <= |t| <= n && t == [c + 1] + Zeros(|t| - 1))
  {
    VisitsUnder(q, c, f, t);
    PrefixUnder(q, [c] + f, t);
  }

  lemma ScanOutside(prefix: Bytes, k: nat, key: Bytes)
    requires k < |prefix| && TrailingFF(prefix) == |prefix| - k - 1 && !(prefix[..k] <= key)
    ensures !InRange(key, prefix) && !(prefix <= key) && !Stray(key, prefix)
  {
    TailIsFF(prefix, k);
    BoundsUnder(prefix, k);
    SameSide(prefix[..k], key, [prefix[k]] + prefix[k + 1..], [prefix[k] + 1] + Zeros(|prefix| - k - 1), prefix);
    UpperUnder(prefix, k, key, prefix[..k] + ([prefix[k] + 1] + Zeros(|prefix| - k - 1)));
    NotUnder(prefix, k, key);
  }

  lemma SameSide(q: Bytes, key: Bytes, x: Bytes, y: Bytes, prefix: Bytes)
    requires !(q <= key) && x != [] && y != [] && prefix == q + x
    ensures Less(key, prefix) == Less(key, q + y)
  {
    OutsidePrefix(q, key, x, y);
  }

  /** Exactly what a prefix scan visits. */
  lemma ScanVisits(key: Bytes, prefix: Bytes)
    ensures InRange(key, prefix) <==> prefix <= key || Stray(key, prefix)
  {
    var n := TrailingFF(prefix);
    if n == |prefix| {
      AtLeastAllFF(key, prefix);
    } else {
      var k := |prefix| - n - 1;
      if prefix[..k] <= key {
        assert key == prefix[..k] + key[k..];
        ScanUnder(prefix, k, key[k..], key);
      } else {
        ScanOutside(prefix, k, key);
      }
    }
  }

  lemma BoundsUnder(prefix: Bytes, k: nat)
    requires k < |prefix| && prefix[k] < FF
    ensures prefix == prefix[..k] + ([prefix[k]] + prefix[k + 1..])
    ensures Incremented(prefix, |prefix| - k - 1) == Some(prefix[..k] + ([prefix[k] + 1] + Zeros(|prefix| - k - 1)))
  {
    SplitAround(prefix, k);
    Assoc(prefix[..k], [prefix[k] + 1], Zeros(|prefix| - k - 1));
  }

  lemma NotUnder(prefix: Bytes, k: nat, key: Bytes)
    requires k < |prefix| && TrailingFF(prefix) == |prefix| - k - 1 && !(prefix[..k] <= key)
    ensures !(prefix <= key) && !Stray(key, prefix)
  {
  }

  lemma SameTail(q: Bytes, t: Bytes, u: Bytes)
    ensures q + t == q + u <==> t == u
  {
    if q + t == q + u {
      assert t == (q + t)[|q|..] == (q + u)[|q|..] == u;
    }
  }

  /** Every key with the prefix is visited, and no other exactly when it does not end in a carried 0xFF. */
  lemma ScanExact(prefix: Bytes)
    ensures (forall key :: InRange(key, prefix) <==> prefix <= key) <==>
            TrailingFF(prefix) == 0 || TrailingFF(prefix) == |prefix|
  {
    forall key ensures InRange(key, prefix) <==> prefix <= key || Stray(key, prefix) {
      ScanVisits(key, prefix);
    }
    var n := TrailingFF(prefix);
    if 0 < n < |prefix| {
      var key := prefix[..|prefix| - n - 1] + [prefix[|prefix| - n - 1] + 1];
      assert key + Zeros(0) == key;
      assert Stray(key, prefix);
      ScanVisits(key, prefix);
    }
  }

  /** A scan of the prefix "a\xff" visits the key "b". */
  lemma StrayVisited()
    ensures InRange([0x62], [0x61, 0xFF]) && !([0x61, 0xFF] <= [0x62])
  {
    TrailingFFIs([0x61, 0xFF], 1);
    assert [0x61, 0xFF][..0] + [0x61 + 1] + Zeros(0) == [0x62];
    assert Stray([0x62], [0x61, 0xFF]);
    ScanVisits([0x62], [0x61, 0xFF]);
  }
}
