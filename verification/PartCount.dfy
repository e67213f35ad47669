/** How many parts a text is cut into, read off the text itself (smpp/segment.go). */
module PartCount {
  import opened GsmAlphabet
  import opened Gsm7
  import opened Seqs
  import opened Segmentation

  // ---- 7-bit -----------------------------------------------------------------

  /** Parts closed before the last one, and the septets in the last one. */
  datatype Tally = Tally(closed: nat, last: nat)

  function Count(t: Tally, n: nat, max: nat): Tally {
    if t.last + n > max then Tally(t.closed + 1, n) else Tally(t.closed, t.last + n)
  }

  /** Character by character: a part is closed when the next character does not fit. */
  function TallyOf(a: Alphabet, text: Text, max: nat): Tally
    requires Encodable(a, text)
  {
    if text == [] then Tally(0, 0)
    else Count(TallyOf(a, text[..|text| - 1], max), Gsm7Len(a, text[|text| - 1]), max)
  }

  lemma TallyNext(a: Alphabet, t: Text, r: Rune, max: nat)
    requires Encodable(a, t) && IsGsm7(a, r)
    ensures Encodable(a, t + [r]) && TallyOf(a, t + [r], max) == Count(TallyOf(a, t, max), Gsm7Len(a, r), max)
  {
    assert (t + [r])[..|t|] == t;
  }

  /** Text that fits into the last part goes there. */
  lemma {:induction false} TallyFits(a: Alphabet, t: Text, u: Text, max: nat)
    requires Encodable(a, t) && Encodable(a, u) && TallyOf(a, t, max).last + CharCount(a, u) <= max
    ensures Encodable(a, t + u)
    ensures var k := TallyOf(a, t, max); TallyOf(a, t + u, max) == Tally(k.closed, k.last + CharCount(a, u))
  {
    if u == [] {
      assert t + u == t;
    } else {
      var init, r := u[..|u| - 1], u[|u| - 1];
      TallyFits(a, t, init, max);
      TallyNext(a, t + init, r, max);
      assert t + u == t + init + [r];
    }
  }

  /** A part whose first character does not fit is a new one. */
  lemma TallyCuts(a: Alphabet, t: Text, u: Text, max: nat)
    requires Encodable(a, t) && Encodable(a, u) && u != [] && CharCount(a, u) <= max
    requires TallyOf(a, t, max).last + Gsm7Len(a, u[0]) > max
    ensures Encodable(a, t + u)
    ensures TallyOf(a, t + u, max) == Tally(TallyOf(a, t, max).closed + 1, CharCount(a, u))
  {
    var r, rest := u[0], u[1..];
    assert u == [r] + rest && t + u == t + [r] + rest;
    TallyNext(a, t, r, max);
    CharCountSplit(a, [r], rest);
    assert [r][..0] == [];
    TallyFits(a, t + [r], rest, max);
  }

  ghost predicate WithinEach(a: Alphabet, max: nat, p: seq<Text>) {
    forall i :: 0 <= i < |p| ==> Encodable(a, p[i]) && CharCount(a, p[i]) <= max
  }

  /** The greedy cut has one part more than the text closes, and its last part has what the text leaves. */
  lemma {:induction false} GreedyTally(a: Alphabet, max: nat, p: seq<Text>)
    requires p != [] && Greedy(a, max, p) && WithinEach(a, max, p)
    ensures Encodable(a, Concat(p))
    ensures TallyOf(a, Concat(p), max) == Tally(|p| - 1, CharCount(a, p[|p| - 1]))
  {
    var init, last := p[..|p| - 1], p[|p| - 1];
    if init == [] {
      assert Concat(init) == [] && Concat(p) == [] + last;
      TallyFits(a, [], last, max);
    } else {
      GreedyInit(a, max, p);
      GreedyTally(a, max, init);
      TallyCuts(a, Concat(init), last, max);
    }
  }

  lemma GreedyInit(a: Alphabet, max: nat, p: seq<Text>)
    requires |p| >= 2 && Greedy(a, max, p) && WithinEach(a, max, p)
    ensures var init := p[..|p| - 1];
            && Greedy(a, max, init) && WithinEach(a, max, init)
            && CharCount(a, init[|init| - 1]) + Gsm7Len(a, p[|p| - 1][0]) > max
  {
    var init := p[..|p| - 1];
    forall i | 0 <= i < |init| - 1 ensures CharCount'(a, init[i]) + Gsm7Len(a, init[i + 1][0]) > max {
      assert init[i] == p[i] && init[i + 1] == p[i + 1];
    }
    var k := |p| - 2;
    assert CharCount'(a, p[k]) + Gsm7Len(a, p[k + 1][0]) > max;
  }

  predicate AllBasic(a: Alphabet, text: Text) {
    forall i :: 0 <= i < |text| ==> text[i] in a.basic
  }

  /** Without extension characters every closed part is full. */
  lemma {:induction false} BasicTally(a: Alphabet, text: Text, max: nat)
    requires AllBasic(a, text) && max > 0
    ensures var k := TallyOf(a, text, max);
            && k.closed * max + k.last == |text| && k.last <= max && (text != [] ==> k.last > 0)
  {
    if text != [] {
      BasicTally(a, text[..|text| - 1], max);
      var k := TallyOf(a, text[..|text| - 1], max);
      assert (k.closed + 1) * max == k.closed * max + max;
    }
  }

  // ---- UCS-2 -----------------------------------------------------------------

  /** Full chunks but for the last. */
  ghost predicate Chunked(size: nat, p: seq<Text>) {
    && (forall i :: 0 <= i < |p| ==> 0 < |p[i]| <= size)
    && (forall i :: 0 <= i < |p| - 1 ==> |p[i]| == size)
  }

  lemma {:induction false} ChunkStart(size: nat, p: seq<Text>, k: nat)
    requires Chunked(size, p) && k < |p|
    ensures |Concat(p[..k])| == size * k
  {
    if k > 0 {
      ChunkStart(size, p, k - 1);
      ConcatNext(p, k - 1);
      assert size * k == size * (k - 1) + size;
    }
  }

  /** Chunk `i` is the stretch of the text from `size * i` on. */
  lemma ChunkAt(size: nat, p: seq<Text>, i: nat)
    requires Chunked(size, p) && i < |p|
    ensures var text := Concat(p);
            && size * i + |p[i]| <= |text| && p[i] == text[size * i..size * i + |p[i]|]
            && |p[i]| == if size * i + size <= |text| then size else |text| - size * i
  {
    ChunkStart(size, p, i);
    PartAt(p, i);
    if i < |p| - 1 {
      ChunkStart(size, p, i + 1);
    } else {
      TakeAll(p);
    }
  }

  lemma ChunkCount(size: nat, p: seq<Text>)
    requires Chunked(size, p) && p != []
    ensures size * (|p| - 1) < |Concat(p)| <= size * |p|
  {
    ChunkAt(size, p, |p| - 1);
    TakeAll(p);
    ChunkStart(size, p, |p| - 1);
    PartAt(p, |p| - 1);
    assert size * |p| == size * (|p| - 1) + size;
  }
}
