/** Splitting long messages into segments and putting them together again (smpp/segment.go). */
module Segmentation {
  import opened Octets
  import opened GsmAlphabet
  import opened Gsm7
  import opened Seqs
  import Ucs2

  const GSM7_SINGLE_MAX := 160
  const GSM7_SEGMENT_MAX := 153
  const UCS2_SINGLE_MAX := 70
  const UCS2_SEGMENT_MAX := 67

  // ---- Counting --------------------------------------------------------------

  lemma {:induction false} CharCountSplit(a: Alphabet, t: Text, u: Text)
    requires Encodable(a, t + u)
    ensures Encodable(a, t) && Encodable(a, u)
    ensures CharCount(a, t + u) == CharCount(a, t) + CharCount(a, u)
  {
    assert forall i :: 0 <= i < |t| ==> t[i] == (t + u)[i];
    assert forall i :: 0 <= i < |u| ==> u[i] == (t + u)[|t| + i];
    if u == [] {
      assert t + u == t;
    } else {
      var v := u[..|u| - 1];
      assert (t + u)[..|t + u| - 1] == t + v;
      CharCountSplit(a, t, v);
    }
  }

  /** `gsm7CharCount`. */
  method Gsm7CharCount(a: Alphabet, text: Text) returns (count: int)
    ensures count == if Encodable(a, text) then CharCount(a, text) else -1
  {
    count := 0;
    for i := 0 to |text|
      invariant Encodable(a, text[..i]) && count == CharCount(a, text[..i])
    {
      assert text[..i + 1][..i] == text[..i];
      var n := Gsm7Len(a, text[i]);
      if n < 0 {
        return -1;
      }
      count := count + n;
    }
    assert text[..|text|] == text;
  }

  // ---- Cutting the text into parts -------------------------------------------

  function Concat(parts: seq<Text>): Text {
    if parts == [] then [] else Concat(parts[..|parts| - 1]) + parts[|parts| - 1]
  }

  /** `q` cuts `text` on character boundaries into parts of at most `max` septets. */
  ghost predicate Splits(a: Alphabet, text: Text, max: nat, q: seq<Text>) {
    && Concat(q) == text
    && forall i :: 0 <= i < |q| ==> Encodable(a, q[i]) && CharCount(a, q[i]) <= max
  }

  /** No part but the last could have taken the first character of the next one. */
  ghost predicate Greedy(a: Alphabet, max: nat, q: seq<Text>) {
    && (forall i :: 0 <= i < |q| ==> q[i] != [])
    && (forall i :: 0 <= i < |q| - 1 ==> CharCount'(a, q[i]) + Gsm7Len(a, q[i + 1][0]) > max)
  }

  ghost function CharCount'(a: Alphabet, t: Text): int {
    if Encodable(a, t) then CharCount(a, t) else -1
  }

  /** The loop state of `splitTextBySeptets`: closed parts and the one being filled. */
  ghost predicate Filling(a: Alphabet, max: nat, parts: seq<Text>, current: Text, done: Text) {
    && Splits(a, Concat(parts), max, parts)
    && Concat(parts) + current == done
    && Encodable(a, current) && CharCount(a, current) <= max
    && (current == [] ==> done == [] && parts == [])
    && Greedy(a, max, if current == [] then parts else parts + [current])
  }

  lemma GreedyCut(a: Alphabet, max: nat, parts: seq<Text>, current: Text, r: Rune)
    requires current != [] && Encodable(a, current) && CharCount(a, current) + Gsm7Len(a, r) > max
    requires Greedy(a, max, parts + [current])
    ensures Greedy(a, max, parts + [current] + [[r]])
  {
    var q := parts + [current] + [[r]];
    forall i | 0 <= i < |q| - 1 ensures CharCount'(a, q[i]) + Gsm7Len(a, q[i + 1][0]) > max {
      if i < |q| - 2 {
        assert q[i] == (parts + [current])[i] && q[i + 1] == (parts + [current])[i + 1];
      }
    }
  }

  lemma GreedyExtend(a: Alphabet, max: nat, parts: seq<Text>, current: Text, r: Rune)
    requires Greedy(a, max, if current == [] then parts else parts + [current])
    requires current == [] ==> parts == []
    ensures Greedy(a, max, parts + [current + [r]])
  {
    var q := parts + [current + [r]];
    forall i | 0 <= i < |q| - 1 ensures CharCount'(a, q[i]) + Gsm7Len(a, q[i + 1][0]) > max {
      assert q[i] == (parts + [current])[i] && q[i + 1][0] == (parts + [current])[i + 1][0];
    }
    forall i | 0 <= i < |q| ensures q[i] != [] {
      if i < |q| - 1 {
        assert q[i] == (parts + [current])[i];
      }
    }
  }

  /** The current part takes one more character. */
  lemma Extend(a: Alphabet, max: nat, parts: seq<Text>, current: Text, done: Text, r: Rune)
    requires Filling(a, max, parts, current, done) && IsGsm7(a, r)
    requires CharCount(a, current) + Gsm7Len(a, r) <= max
    ensures Encodable(a, current + [r])
    ensures CharCount(a, current + [r]) == CharCount(a, current) + Gsm7Len(a, r)
    ensures Filling(a, max, parts, current + [r], done + [r])
  {
    assert (current + [r])[..|current|] == current;
    GreedyExtend(a, max, parts, current, r);
  }

  /** The current part is full: it is closed and the character opens the next one. */
  lemma Cut(a: Alphabet, max: nat, parts: seq<Text>, current: Text, done: Text, r: Rune)
    requires Filling(a, max, parts, current, done) && IsGsm7(a, r) && max >= 2
    requires CharCount(a, current) + Gsm7Len(a, r) > max
    ensures Encodable(a, [r]) && CharCount(a, [r]) == Gsm7Len(a, r)
    ensures Filling(a, max, parts + [current], [r], done + [r])
  {
    Close(a, max, parts, current);
    GreedyCut(a, max, parts, current, r);
    assert [r][..0] == [];
  }

  lemma Close(a: Alphabet, max: nat, parts: seq<Text>, current: Text)
    requires Splits(a, Concat(parts), max, parts)
    requires Encodable(a, current) && CharCount(a, current) <= max
    ensures Splits(a, Concat(parts) + current, max, parts + [current])
  {
    assert (parts + [current])[..|parts|] == parts;
  }

  lemma Finish(a: Alphabet, max: nat, parts: seq<Text>, current: Text, done: Text)
    requires Filling(a, max, parts, current, done)
    ensures var q := if current == [] then parts else parts + [current];
      Splits(a, done, max, q) && Greedy(a, max, q)
  {
    Close(a, max, parts, current);
  }

  /** One turn of the loop of `splitTextBySeptets`. */
  method PlaceRune(a: Alphabet, max: nat, parts: seq<Text>, current: Text, septets: nat, r: Rune, ghost done: Text)
    returns (parts': seq<Text>, current': Text, septets': nat)
    requires IsGsm7(a, r) && max >= 2
    requires Filling(a, max, parts, current, done) && septets == CharCount(a, current)
    ensures Filling(a, max, parts', current', done + [r]) && septets' == CharCount(a, current')
  {
    var n := Gsm7Len(a, r);
    if septets + n > max {
      Cut(a, max, parts, current, done, r);
      return parts + [current], [r], n;
    } else {
      Extend(a, max, parts, current, done, r);
      return parts, current + [r], septets + n;
    }
  }

  /** `splitTextBySeptets`. */
  method SplitTextBySeptets(a: Alphabet, text: Text, maxSeptets: nat) returns (parts: seq<Text>)
    requires Encodable(a, text) && maxSeptets >= 2
    ensures Splits(a, text, maxSeptets, parts) && Greedy(a, maxSeptets, parts)
  {
    parts := [];
    var current: Text := [];
    var currentSeptets := 0;
    for i := 0 to |text|
      invariant Filling(a, maxSeptets, parts, current, text[..i])
      invariant currentSeptets == CharCount(a, current)
    {
      TakeNext(text, i);
      parts, current, currentSeptets := PlaceRune(a, maxSeptets, parts, current, currentSeptets, text[i], text[..i]);
    }
    TakeAll(text);
    Finish(a, maxSeptets, parts, current, text);
    if |current| > 0 {
      parts := parts + [current];
    }
  }

  // ---- The greedy cut is the shortest one ------------------------------------

  /** Characters in the first `k` parts. */
  ghost function CutAt(q: seq<Text>, k: nat): nat
    requires k <= |q|
  {
    |Concat(q[..k])|
  }

  lemma {:induction false} ConcatPrefix(q: seq<Text>, k: nat)
    requires k <= |q|
    ensures Concat(q[..k]) <= Concat(q)
    decreases |q| - k
  {
    if k == |q| {
      TakeAll(q);
    } else {
      ConcatPrefix(q, k + 1);
      ConcatNext(q, k);
    }
  }

  lemma ConcatNext(q: seq<Text>, k: nat)
    requires k < |q|
    ensures Concat(q[..k + 1]) == Concat(q[..k]) + q[k]
  {
    TakeNext(q, k);
    assert (q[..k] + [q[k]])[..k] == q[..k];
  }

  /** Part `k` sits between two cuts of the text. */
  lemma PartAt(q: seq<Text>, k: nat)
    requires k < |q|
    ensures CutAt(q, k + 1) == CutAt(q, k) + |q[k]| <= |Concat(q)|
    ensures q[k] == Concat(q)[CutAt(q, k)..CutAt(q, k + 1)]
  {
    ConcatNext(q, k);
    ConcatPrefix(q, k + 1);
  }

  /** A stretch of text inside another one needs no more septets. */
  lemma CountWithin(a: Alphabet, t: Text, i: nat, j: nat, i': nat, j': nat)
    requires Encodable(a, t) && i <= i' <= j' <= j <= |t|
    ensures CharCount(a, t[i'..j']) <= CharCount(a, t[i..j])
  {
    var x, y, z := t[i..i'], t[i'..j'], t[j'..j];
    assert t[i..j] == x + y + z;
    CharCountSplit(a, x + y, z);
    CharCountSplit(a, x, y);
  }

  /** Text that overflows with its next character overflows in every longer stretch. */
  lemma Overflows(a: Alphabet, t: Text, max: nat, c: nat, d: nat, i: nat, j: nat)
    requires Encodable(a, t) && i <= c <= d < j <= |t|
    requires CharCount'(a, t[c..d]) + Gsm7Len(a, t[d]) > max
    ensures CharCount'(a, t[i..j]) > max
  {
    var x, r := t[c..d], t[d];
    assert t[c..d + 1] == x + [r];
    CharCountSplit(a, x, [r]);
    assert IsGsm7(a, [r][0]) && [r][..0] == [];
    CountWithin(a, t, i, j, c, d + 1);
  }

  lemma NextFirst(p: seq<Text>, k: nat)
    requires k + 1 < |p| && p[k + 1] != []
    ensures CutAt(p, k + 1) < |Concat(p)| && Concat(p)[CutAt(p, k + 1)] == p[k + 1][0]
  {
    PartAt(p, k + 1);
  }

  /** After `k` parts the greedy cut is at least as far as any other. */
  lemma {:induction false} GreedyAhead(a: Alphabet, text: Text, max: nat, p: seq<Text>, q: seq<Text>, k: nat)
    requires Encodable(a, text) && Splits(a, text, max, q)
    requires Concat(p) == text && Greedy(a, max, p)
    requires k <= |p| && k <= |q|
    ensures CutAt(q, k) <= CutAt(p, k)
  {
    if k > 0 {
      GreedyAhead(a, text, max, p, q, k - 1);
      GreedyAheadStep(a, text, max, p, q, k - 1);
    }
  }

  lemma GreedyAheadStep(a: Alphabet, text: Text, max: nat, p: seq<Text>, q: seq<Text>, k: nat)
    requires Encodable(a, text) && Splits(a, text, max, q)
    requires Concat(p) == text && Greedy(a, max, p)
    requires k < |p| && k < |q| && CutAt(q, k) <= CutAt(p, k)
    ensures CutAt(q, k + 1) <= CutAt(p, k + 1)
  {
    PartAt(q, k);
    PartAt(p, k);
    if k + 1 == |p| {
      TakeAll(p);
    } else if CutAt(q, k + 1) > CutAt(p, k + 1) {
      NextFirst(p, k);
      Overflows(a, text, max, CutAt(p, k), CutAt(p, k + 1), CutAt(q, k), CutAt(q, k + 1));
      assert false;
    }
  }

  /** No split on character boundaries into parts of at most `max` septets is shorter than the greedy one. */
  lemma GreedyIsShortest(a: Alphabet, text: Text, max: nat, p: seq<Text>, q: seq<Text>)
    requires Encodable(a, text) && Splits(a, text, max, q)
    requires Concat(p) == text && Greedy(a, max, p)
    ensures |p| <= |q|
  {
    if |q| < |p| {
      GreedyAhead(a, text, max, p, q, |q|);
      TakeAll(q);
      PartAt(p, |q|);
    }
  }

  /** Every part but the last is full: 152 or 153 septets of 153. */
  lemma GreedyPartsFull(a: Alphabet, max: nat, p: seq<Text>, i: nat)
    requires Greedy(a, max, p) && i + 1 < |p|
    requires forall j :: 0 <= j < |p| ==> Encodable(a, p[j]) && CharCount(a, p[j]) <= max
    ensures max - 1 <= CharCount(a, p[i]) <= max
  {
    assert CharCount'(a, p[i]) + Gsm7Len(a, p[i + 1][0]) > max;
  }

  // ---- UCS-2 chunks ----------------------------------------------------------

  /** `splitRuneChunks`. */
  method SplitRuneChunks(runes: Text, chunkSize: nat) returns (chunks: seq<Text>)
    requires chunkSize > 0
    ensures Concat(chunks) == runes
    ensures forall i :: 0 <= i < |chunks| ==> 0 < |chunks[i]| <= chunkSize
    ensures forall i :: 0 <= i < |chunks| - 1 ==> |chunks[i]| == chunkSize
  {
    chunks := [];
    var i := 0;
    while i < |runes|
      invariant Concat(chunks) == if i <= |runes| then runes[..i] else runes
      invariant forall j :: 0 <= j < |chunks| ==> 0 < |chunks[j]| <= chunkSize
      invariant forall j :: 0 <= j < |chunks| ==> (j == |chunks| - 1 && i >= |runes|) || |chunks[j]| == chunkSize
      decreases |runes| - i
    {
      var end := if i + chunkSize > |runes| then |runes| else i + chunkSize;
      assert (chunks + [runes[i..end]])[..|chunks|] == chunks;
      assert runes[..i] + runes[i..end] == runes[..end];
      chunks := chunks + [runes[i..end]];
      i := i + chunkSize;
    }
  }
}
