/** The northbound retry queue in the key-value store (gateway/store.go, gateway/router.go). */
module RetryStore {
  import opened Octets
  import opened Options
  import opened Seqs
  import opened KeyOrder
  import opened Sessions
  import opened Northbound

  // ---- Keys ------------------------------------------------------------------

  function Pow10(k: nat): nat {
    if k == 0 then 1 else 10 * Pow10(k - 1)
  }

  /** A time that fits twenty digits. */
  type Stamp = n: int | 0 <= n < 100000000000000000000

  /** `%0kd`. */
  function Digits(n: nat, k: nat): (d: Bytes)
    ensures |d| == k
  {
    if k == 0 then [] else Digits(n / 10, k - 1) + [48 + n % 10]
  }

  /** Zero-padded numbers of equal width sort as numbers. */
  lemma {:induction false} DigitsSort(m: nat, n: nat, k: nat)
    requires m < Pow10(k) && n < Pow10(k)
    ensures Less(Digits(m, k), Digits(n, k)) <==> m < n
    ensures Digits(m, k) == Digits(n, k) <==> m == n
  {
    if k > 0 {
      DigitsSort(m / 10, n / 10, k - 1);
      var a, b := Digits(m / 10, k - 1), Digits(n / 10, k - 1);
      if a == b {
        LessAfterPrefix(a, [48 + m % 10], [48 + n % 10]);
        LastDigits(a, 48 + m % 10, 48 + n % 10);
      } else {
        LessByPrefix(a, b, [48 + m % 10], [48 + n % 10]);
        assert (a + [48 + m % 10])[..k - 1] == a && (b + [48 + n % 10])[..k - 1] == b;
      }
    }
  }

  lemma LastDigits(a: Bytes, x: Byte, y: Byte)
    ensures Less([x], [y]) <==> x < y
    ensures a + [x] == a + [y] <==> x == y
  {
    assert (a + [x])[|a|] == x && (a + [y])[|a|] == y;
    assert [x][1..] == [] && [y][1..] == [];
  }

  const RETRY: Bytes := [0x72, 0x65, 0x74, 0x72, 0x79, 0x3A]  // "retry:"
  const COLON: Byte := 0x3A

  /** "retry:", twenty digits, ":". */
  function KeyHead(t: Stamp): (d: Bytes)
    ensures |d| == 27
  {
    RETRY + (Digits(t, 20) + [COLON])
  }

  /** The key of an entry: `retry:%020d:%s`. */
  function RetryKey(t: Stamp, id: Bytes): Bytes {
    KeyHead(t) + id
  }

  lemma StampFits(t: Stamp)
    ensures t < Pow10(20)
  {
    assert Pow10(5) == 100000 by {
      assert Pow10(3) == 1000;
    }
    assert Pow10(10) == 10000000000 by {
      assert Pow10(7) == 100 * Pow10(5);
      assert Pow10(9) == 100 * Pow10(7);
    }
    assert Pow10(15) == 100000 * Pow10(10) by {
      assert Pow10(12) == 100 * Pow10(10);
      assert Pow10(14) == 100 * Pow10(12);
    }
    assert Pow10(20) == 100000 * Pow10(15) by {
      assert Pow10(17) == 100 * Pow10(15);
      assert Pow10(19) == 100 * Pow10(17);
    }
  }

  /** Keys sort by time first. */
  lemma HeadsSort(s: Stamp, t: Stamp)
    ensures Less(KeyHead(s), KeyHead(t)) <==> s < t
    ensures KeyHead(s) == KeyHead(t) <==> s == t
  {
    StampFits(s);
    StampFits(t);
    DigitsSort(s, t, 20);
    SortAround(Digits(s, 20), Digits(t, 20));
  }

  /** The key's frame does not change the order of what it frames. */
  lemma SortAround(x: Bytes, y: Bytes)
    requires |x| == |y|
    ensures Less(RETRY + (x + [COLON]), RETRY + (y + [COLON])) <==> Less(x, y)
    ensures RETRY + (x + [COLON]) == RETRY + (y + [COLON]) <==> x == y
  {
    LessAfterPrefix(RETRY, x + [COLON], y + [COLON]);
    if x == y {
      LessIrreflexive(x);
      LessIrreflexive(x + [COLON]);
    } else {
      LessByPrefix(x, y, [COLON], [COLON]);
      Framed(RETRY, x, [COLON]);
      Framed(RETRY, y, [COLON]);
    }
  }

  lemma Framed(a: Bytes, x: Bytes, b: Bytes)
    ensures (a + (x + b))[|a|..|a| + |x|] == x
  {
  }

  /** A drain up to the key of `now` covers exactly the entries from before `now`. */
  lemma KeyBeforeNow(t: Stamp, id: Bytes, now: Stamp)
    ensures Less(RetryKey(t, id), KeyHead(now)) <==> t < now
    ensures !Less(RetryKey(t, id), RETRY)
  {
    HeadsSort(t, now);
    assert KeyHead(now) + [] == KeyHead(now);
    if t != now {
      LessByPrefix(KeyHead(t), KeyHead(now), id, []);
    } else {
      LessAfterPrefix(KeyHead(t), id, []);
    }
    var rest := Digits(t, 20) + [COLON] + id;
    assert RetryKey(t, id) == RETRY + rest && RETRY + [] == RETRY;
    LessAfterPrefix(RETRY, rest, []);
  }

  /** Earlier keys are not later entries. */
  lemma KeyOrderIsTimeOrder(s: Stamp, i: Bytes, t: Stamp, j: Bytes)
    requires Less(RetryKey(s, i), RetryKey(t, j))
    ensures s <= t
  {
    if t < s {
      HeadsSort(t, s);
      LessByPrefix(KeyHead(t), KeyHead(s), j, i);
      LessTransitive(RetryKey(s, i), RetryKey(t, j), RetryKey(s, i));
      LessIrreflexive(RetryKey(s, i));
    }
  }

  // ---- The queue -------------------------------------------------------------

  /** A queued `PendingDeliver` with its `EnqueuedAt`. */
  datatype Entry = Entry(at: Stamp, pd: PendingDeliver)

  /** Every entry is filed under its own time. */
  ghost predicate Filed(db: map<Bytes, Entry>) {
    forall k :: k in db ==> KeyHead(db[k].at) <= k
  }

  lemma FiledBeforeNow(db: map<Bytes, Entry>, k: Bytes, now: Stamp)
    requires Filed(db) && k in db
    ensures !Less(k, RETRY) && (Less(k, KeyHead(now)) <==> db[k].at < now)
  {
    KeyBeforeNow(db[k].at, k[27..], now);
    assert k == RetryKey(db[k].at, k[27..]);
  }

  /** `visited` is, in order, the `limit` oldest entries from before `now` (all of them without a limit). */
  ghost predicate Oldest(db: map<Bytes, Entry>, visited: seq<Bytes>, now: Stamp, limit: int) {
    && (forall i :: 0 <= i < |visited| ==> visited[i] in db && db[visited[i]].at < now)
    && (forall i, j :: 0 <= i < j < |visited| ==> Less(visited[i], visited[j]))
    && (forall i, k :: 0 <= i < |visited| && k in db && k !in visited && db[k].at < now ==> Less(visited[i], k))
    && (limit > 0 ==> |visited| <= limit)
    && (limit <= 0 || |visited| < limit ==> forall k :: k in db && db[k].at < now ==> k in visited)
  }

  /** Drained entries come out by age, and nothing older stays behind. */
  lemma OldestFirst(db: map<Bytes, Entry>, visited: seq<Bytes>, now: Stamp, limit: int)
    requires Filed(db) && Oldest(db, visited, now, limit)
    ensures forall i, j :: 0 <= i < j < |visited| ==> db[visited[i]].at <= db[visited[j]].at
    ensures forall i, k :: 0 <= i < |visited| && k in db && k !in visited ==> db[visited[i]].at <= db[k].at
  {
    forall i, j | 0 <= i < j < |visited| ensures db[visited[i]].at <= db[visited[j]].at {
      FiledInOrder(db, visited[i], visited[j]);
    }
    forall i, k | 0 <= i < |visited| && k in db && k !in visited ensures db[visited[i]].at <= db[k].at {
      if db[k].at < now {
        FiledInOrder(db, visited[i], k);
      }
    }
  }

  lemma FiledInOrder(db: map<Bytes, Entry>, k: Bytes, l: Bytes)
    requires Filed(db) && k in db && l in db && Less(k, l)
    ensures db[k].at <= db[l].at
  {
    assert k == RetryKey(db[k].at, k[27..]) && l == RetryKey(db[l].at, l[27..]);
    KeyOrderIsTimeOrder(db[k].at, k[27..], db[l].at, l[27..]);
  }

  /** Of the visited entries, those not older than the threshold. */
  function Recent(db: map<Bytes, Entry>, visited: seq<Bytes>, threshold: int): seq<Entry>
    requires forall i :: 0 <= i < |visited| ==> visited[i] in db
  {
    if visited == [] then []
    else
      var last := |visited| - 1;
      Recent(db, visited[..last], threshold) +
      (if db[visited[last]].at < threshold then [] else [db[visited[last]]])
  }

  ghost predicate Least(k: Bytes, keys: set<Bytes>) {
    k in keys && forall j :: j in keys && j != k ==> Less(k, j)
  }

  /** Exactly the visited entries that are not too old are returned. */
  lemma {:induction false} RecentExactly(db: map<Bytes, Entry>, visited: seq<Bytes>, threshold: int, e: Entry)
    requires forall i :: 0 <= i < |visited| ==> visited[i] in db
    ensures e in Recent(db, visited, threshold) <==> e.at >= threshold && exists i :: 0 <= i < |visited| && db[visited[i]] == e
  {
    if visited != [] {
      var last := |visited| - 1;
      RecentExactly(db, visited[..last], threshold, e);
      if i :| 0 <= i < |visited| && db[visited[i]] == e {
        assert i < last ==> visited[..last][i] == visited[i];
      }
    }
  }

  lemma {:induction false} HasLeast(keys: set<Bytes>) returns (k: Bytes)
    requires keys != {}
    ensures Least(k, keys)
  {
    k :| k in keys;
    var rest := keys - {k};
    assert keys == rest + {k};
    if rest != {} {
      var b := HasLeast(rest);
      if Less(k, b) {
        BelowLeast(k, b, rest);
      } else {
        LessTotal(k, b);
        k := b;
      }
    }
  }

  lemma BelowLeast(k: Bytes, b: Bytes, rest: set<Bytes>)
    requires Less(k, b) && Least(b, rest)
    ensures forall j :: j in rest ==> Less(k, j)
  {
    forall j | j in rest ensures Less(k, j) {
      if j != b {
        LessTransitive(k, b, j);
      }
    }
  }

  function SetOf(keys: seq<Bytes>): set<Bytes> {
    set k | k in keys
  }

  lemma SizeAfterPut(db: map<Bytes, Entry>, key: Bytes, e: Entry)
    ensures |db[key := e]| == |db| + (if key in db then 0 else 1)
  {
    assert db[key := e].Keys == db.Keys + {key};
  }

  class MessageStore {
    /** The keys under "retry:". */
    var db: map<Bytes, Entry>
    var retryCount: int
    /** How often an entry was written over one with the same key. */
    ghost var overwritten: nat

    /** The counter is off by exactly the entries that were overwritten. */
    ghost predicate Valid()
      reads this
    {
      Filed(db) && retryCount == |db| + overwritten
    }

    constructor ()
      ensures Valid() && db == map[] && retryCount == 0
    {
      db, retryCount, overwritten := map[], 0, 0;
    }

    method EnqueueRetry(id: Bytes, pending: Entry)
      requires Valid()
      modifies this
      ensures Valid()
      ensures db == old(db)[RetryKey(pending.at, id) := pending]
      ensures retryCount == old(retryCount) + 1
      ensures overwritten == old(overwritten) + (if RetryKey(pending.at, id) in old(db) then 1 else 0)
    {
      var key := RetryKey(pending.at, id);
      SizeAfterPut(db, key, pending);
      overwritten := overwritten + (if key in db then 1 else 0);
      db := db[key := pending];
      retryCount := retryCount + 1;
    }

    method DrainRetries(now: Stamp, threshold: int, limit: int) returns (results: seq<Entry>, ghost visited: seq<Bytes>)
      requires Valid()
      modifies this
      ensures Valid() && overwritten == old(overwritten)
      ensures Oldest(old(db), visited, now, limit)
      ensures db == old(db) - SetOf(visited)
      ensures retryCount == old(retryCount) - |visited|
      ensures results == Recent(old(db), visited, threshold)
    {
      var batch;
      results, batch := Scan(db, now, threshold, limit);
      visited := batch;
      RemoveVisited(db, batch);
      db := db - SetOf(batch);
      retryCount := retryCount - |batch|;
    }
  }

  /** The iteration of `DrainRetries`; `batch` holds the keys to delete. */
  method Scan(db: map<Bytes, Entry>, now: Stamp, threshold: int, limit: int) returns (results: seq<Entry>, batch: seq<Bytes>)
    requires Filed(db)
    ensures Oldest(db, batch, now, limit)
    ensures results == Recent(db, batch, threshold)
  {
    var range := set k | k in db && !Less(k, RETRY) && Less(k, KeyHead(now));
    RangeIsPast(db, range, now);
    var rest := range;
    results, batch := [], [];
    while rest != {} && !(limit > 0 && |batch| >= limit)
      invariant Partial(db, range, rest, batch)
      invariant limit > 0 ==> |batch| <= limit
      invariant results == Recent(db, batch, threshold)
      decreases rest
    {
      var k := First(rest);
      var pending := db[k];
      PartialNext(db, range, rest, batch, k);
      TakeLast(batch, k);
      batch := batch + [k];
      rest := rest - {k};
      if !(pending.at < threshold) {
        results := results + [pending];
      }
    }
    PartialDone(db, range, rest, batch, now, limit);
  }

  /** Where the store's iterator stands next. */
  method First(keys: set<Bytes>) returns (k: Bytes)
    requires keys != {}
    ensures Least(k, keys)
  {
    ghost var least := HasLeast(keys);
    k :| k in keys && forall j :: j in keys && j != k ==> Less(k, j);
  }

  lemma RangeIsPast(db: map<Bytes, Entry>, range: set<Bytes>, now: Stamp)
    requires Filed(db) && range == set k | k in db && !Less(k, RETRY) && Less(k, KeyHead(now))
    ensures Past(db, range, now)
  {
    forall k | k in db ensures k in range <==> db[k].at < now {
      FiledBeforeNow(db, k, now);
    }
  }

  ghost predicate Past(db: map<Bytes, Entry>, range: set<Bytes>, now: Stamp) {
    range <= db.Keys && forall k :: k in db ==> (k in range <==> db[k].at < now)
  }

  lemma TakeLast(s: seq<Bytes>, x: Bytes)
    ensures (s + [x])[..|s|] == s
  {
  }

  /** The iterator stands after `batch`, with `rest` of the `range` still to come. */
  ghost predicate Partial(db: map<Bytes, Entry>, range: set<Bytes>, rest: set<Bytes>, batch: seq<Bytes>) {
    && range <= db.Keys
    && (forall k :: k in batch ==> k in db)
    && SetOf(batch) !! rest
    && SetOf(batch) + rest == range
    && (forall i, j :: 0 <= i < j < |batch| ==> Less(batch[i], batch[j]))
    && (forall i, k :: 0 <= i < |batch| && k in rest ==> Less(batch[i], k))
  }

  lemma PartialNext(db: map<Bytes, Entry>, range: set<Bytes>, rest: set<Bytes>, batch: seq<Bytes>, k: Bytes)
    requires Partial(db, range, rest, batch)
    requires Least(k, rest)
    ensures Partial(db, range, rest - {k}, batch + [k])
  {
    assert SetOf(batch + [k]) == SetOf(batch) + {k};
  }

  lemma PartialDone(db: map<Bytes, Entry>, range: set<Bytes>, rest: set<Bytes>, batch: seq<Bytes>, now: Stamp, limit: int)
    requires Partial(db, range, rest, batch)
    requires Past(db, range, now)
    requires limit > 0 ==> |batch| <= limit
    requires rest == {} || (limit > 0 && |batch| == limit)
    ensures Oldest(db, batch, now, limit)
  {
    forall k | k in range ensures k in batch || k in rest {
      assert k in SetOf(batch) + rest;
    }
    forall i | 0 <= i < |batch| ensures db[batch[i]].at < now {
      assert batch[i] in SetOf(batch);
    }
  }

  lemma RemoveVisited(db: map<Bytes, Entry>, visited: seq<Bytes>)
    requires forall i :: 0 <= i < |visited| ==> visited[i] in db
    requires forall i, j :: 0 <= i < j < |visited| ==> Less(visited[i], visited[j])
    ensures |db - SetOf(visited)| == |db| - |visited|
  {
    CountOf(visited);
    assert (db - SetOf(visited)).Keys == db.Keys - SetOf(visited);
    assert SetOf(visited) <= db.Keys;
  }

  lemma {:induction false} CountOf(keys: seq<Bytes>)
    requires forall i, j :: 0 <= i < j < |keys| ==> Less(keys[i], keys[j])
    ensures |SetOf(keys)| == |keys|
  {
    if keys != [] {
      var last := |keys| - 1;
      CountOf(keys[..last]);
      assert SetOf(keys) == SetOf(keys[..last]) + {keys[last]};
      LessIrreflexive(keys[last]);
    }
  }

  // ---- One drain of the router -----------------------------------------------

  /** What a drained entry meets: registered engines, the round-robin choice, the response, a fresh id. */
  datatype Luck = Luck(conns: set<ConnId>, other: ConnId, accepted: bool, id: Bytes)

  /** The engine that takes the entry, if one does. */
  function TakenBy(e: Entry, l: Luck): (r: Option<ConnId>)
    ensures r.Some? && IsDlr(e.pd.esm) ==> r.value == e.pd.target && r.value in l.conns
  {
    var direct := e.pd.target != "" && e.pd.target in l.conns;
    var conn := if direct then e.pd.target else if IsDlr(e.pd.esm) then "" else l.other;
    if conn != "" && l.accepted then Some(conn) else None
  }

  /** The entries that go back, each under the key of its new id. */
  function Returned(pending: seq<Entry>, luck: seq<Luck>): seq<(Bytes, Entry)>
    requires |pending| == |luck|
  {
    if pending == [] then []
    else
      var last := |pending| - 1;
      Returned(pending[..last], luck[..last]) +
      (if TakenBy(pending[last], luck[last]).Some? then []
       else [(RetryKey(pending[last].at, luck[last].id), pending[last])])
  }

  /** The entries that were delivered, and to whom. */
  function Taken(pending: seq<Entry>, luck: seq<Luck>): seq<(ConnId, Entry)>
    requires |pending| == |luck|
  {
    if pending == [] then []
    else
      var last := |pending| - 1;
      var conn := TakenBy(pending[last], luck[last]);
      Taken(pending[..last], luck[..last]) + (if conn.Some? then [(conn.value, pending[last])] else [])
  }

  function PutAll(db: map<Bytes, Entry>, items: seq<(Bytes, Entry)>): map<Bytes, Entry> {
    if items == [] then db
    else
      var last := |items| - 1;
      PutAll(db, items[..last])[items[last].0 := items[last].1]
  }

  /** No two of the keys are equal, and none is in use. */
  ghost predicate NewKeys(db: map<Bytes, Entry>, items: seq<(Bytes, Entry)>) {
    && (forall i :: 0 <= i < |items| ==> items[i].0 !in db)
    && (forall i, j :: 0 <= i < j < |items| ==> items[i].0 != items[j].0)
  }

  lemma {:induction false} PutAllKeys(db: map<Bytes, Entry>, items: seq<(Bytes, Entry)>, k: Bytes)
    ensures k in PutAll(db, items) <==> k in db || exists i :: 0 <= i < |items| && items[i].0 == k
  {
    if items != [] {
      var last := |items| - 1;
      PutAllKeys(db, items[..last], k);
      if i :| 0 <= i < |items| && items[i].0 == k {
        assert i < last ==> items[..last][i].0 == k;
      }
    }
  }

  /** Putting entries back loses none exactly when their keys are new. */
  lemma {:induction false} NoneLost(db: map<Bytes, Entry>, items: seq<(Bytes, Entry)>)
    ensures |PutAll(db, items)| <= |db| + |items|
    ensures |PutAll(db, items)| == |db| + |items| <==> NewKeys(db, items)
  {
    if items != [] {
      var last := |items| - 1;
      NoneLost(db, items[..last]);
      PutAllKeys(db, items[..last], items[last].0);
      SizeAfterPut(PutAll(db, items[..last]), items[last].0, items[last].1);
      NewKeysNext(db, items[..last], items[last]);
      TakeNext(items, last);
      TakeAll(items);
    }
  }

  lemma NewKeysNext(db: map<Bytes, Entry>, init: seq<(Bytes, Entry)>, item: (Bytes, Entry))
    ensures NewKeys(db, init + [item]) <==>
            NewKeys(db, init) && item.0 !in db && forall i :: 0 <= i < |init| ==> init[i].0 != item.0
  {
    var items := init + [item];
    assert items[|init|] == item && forall i :: 0 <= i < |init| ==> init[i] == items[i];
  }

  /** With new keys, the queue holds what it held and every returned entry with its original time. */
  lemma {:induction false} PutAllHolds(db: map<Bytes, Entry>, items: seq<(Bytes, Entry)>)
    requires NewKeys(db, items)
    ensures forall k :: k in db ==> k in PutAll(db, items) && PutAll(db, items)[k] == db[k]
    ensures forall i :: 0 <= i < |items| ==> items[i].0 in PutAll(db, items) && PutAll(db, items)[items[i].0] == items[i].1
  {
    if items != [] {
      var last := |items| - 1;
      NewKeysNext(db, items[..last], items[last]);
      TakeNext(items, last);
      TakeAll(items);
      PutAllHolds(db, items[..last]);
      forall i | 0 <= i < last ensures items[i].0 in PutAll(db, items) && PutAll(db, items)[items[i].0] == items[i].1 {
        assert items[..last][i] == items[i];
      }
    }
  }

  /** Entry `i` goes back under its own time, and nobody takes it. */
  ghost predicate GoesBack(pending: seq<Entry>, luck: seq<Luck>, i: nat)
    requires |pending| == |luck| && i < |pending|
  {
    && Taken(pending[..i + 1], luck[..i + 1]) == Taken(pending[..i], luck[..i])
    && Returned(pending[..i + 1], luck[..i + 1]) ==
       Returned(pending[..i], luck[..i]) + [(RetryKey(pending[i].at, luck[i].id), pending[i])]
  }

  /** Entry `i` is taken by `conn`, and does not go back. */
  ghost predicate GoesTo(pending: seq<Entry>, luck: seq<Luck>, i: nat, conn: ConnId)
    requires |pending| == |luck| && i < |pending|
  {
    && Taken(pending[..i + 1], luck[..i + 1]) == Taken(pending[..i], luck[..i]) + [(conn, pending[i])]
    && Returned(pending[..i + 1], luck[..i + 1]) == Returned(pending[..i], luck[..i])
  }

  /**
   * What becomes of each entry, by what it meets: refused entries go back; accepted ones are with
   * their own engine if it is registered; otherwise a receipt goes back, and anything else is with
   * the engine chosen instead, if there is one.
   */
  lemma FateOf(pending: seq<Entry>, luck: seq<Luck>, i: nat)
    requires |pending| == |luck| && i < |pending|
    ensures var e, l := pending[i].pd, luck[i];
      var registered := e.target != "" && e.target in l.conns;
      && (!l.accepted ==> GoesBack(pending, luck, i))
      && (l.accepted && registered ==> GoesTo(pending, luck, i, e.target))
      && (!registered && IsDlr(e.esm) ==> GoesBack(pending, luck, i))
      && (!registered && !IsDlr(e.esm) && l.other == "" ==> GoesBack(pending, luck, i))
      && (l.accepted && !registered && !IsDlr(e.esm) && l.other != "" ==> GoesTo(pending, luck, i, l.other))
  {
    assert pending[..i + 1][..i] == pending[..i] && luck[..i + 1][..i] == luck[..i];
  }

  /** What was done with the first entries stays done. */
  lemma {:induction false} FatesStay(pending: seq<Entry>, luck: seq<Luck>, i: nat)
    requires |pending| == |luck| && i <= |pending|
    ensures Taken(pending[..i], luck[..i]) <= Taken(pending, luck)
    ensures Returned(pending[..i], luck[..i]) <= Returned(pending, luck)
    decreases |pending| - i
  {
    if i == |pending| {
      TakeAll(pending);
      TakeAll(luck);
    } else {
      FatesStay(pending, luck, i + 1);
      assert pending[..i + 1][..i] == pending[..i] && luck[..i + 1][..i] == luck[..i];
    }
  }

  /** A refused entry is in the queue again, with its original time, if the keys are new. */
  lemma RefusedIsKept(db: map<Bytes, Entry>, pending: seq<Entry>, luck: seq<Luck>, i: nat)
    requires |pending| == |luck| && i < |pending| && !luck[i].accepted && NewKeys(db, Returned(pending, luck))
    ensures var key, after := RetryKey(pending[i].at, luck[i].id), PutAll(db, Returned(pending, luck));
            key in after && after[key] == pending[i]
  {
    FateOf(pending, luck, i);
    FatesStay(pending, luck, i + 1);
    var items, n := Returned(pending, luck), |Returned(pending[..i], luck[..i])|;
    assert items[n] == (RetryKey(pending[i].at, luck[i].id), pending[i]);
    PutAllHolds(db, items);
  }

  /** An entry that its registered engine accepts is delivered to it. */
  lemma AcceptedIsTaken(pending: seq<Entry>, luck: seq<Luck>, i: nat)
    requires |pending| == |luck| && i < |pending| && luck[i].accepted
    requires pending[i].pd.target != "" && pending[i].pd.target in luck[i].conns
    ensures (pending[i].pd.target, pending[i]) in Taken(pending, luck)
  {
    FateOf(pending, luck, i);
    FatesStay(pending, luck, i + 1);
    var n := |Taken(pending[..i], luck[..i])|;
    assert Taken(pending, luck)[n] == (pending[i].pd.target, pending[i]);
  }

  /** Every entry either goes back or is taken. */
  lemma {:induction false} BackOrTaken(pending: seq<Entry>, luck: seq<Luck>)
    requires |pending| == |luck|
    ensures |Returned(pending, luck)| + |Taken(pending, luck)| == |pending|
    ensures forall i :: 0 <= i < |Taken(pending, luck)| ==> FairTake(Taken(pending, luck)[i])
  {
    if pending != [] {
      BackOrTaken(pending[..|pending| - 1], luck[..|pending| - 1]);
    }
  }

  /** Receipts are delivered to nobody but the engine they are for. */
  predicate FairTake(t: (ConnId, Entry)) {
    IsDlr(t.1.pd.esm) ==> t.0 == t.1.pd.target
  }

  method RedeliverOne(store: MessageStore, p: Entry, l: Luck) returns (r: Option<ConnId>)
    requires store.Valid()
    modifies store
    ensures store.Valid()
    ensures r == TakenBy(p, l)
    ensures store.db == if r.Some? then old(store.db) else old(store.db)[RetryKey(p.at, l.id) := p]
    ensures store.retryCount == old(store.retryCount) + (if r.Some? then 0 else 1)
  {
    var conn := p.pd.target;
    if conn == "" || conn !in l.conns {
      conn := if IsDlr(p.pd.esm) then "" else l.other;
    }
    if conn == "" || !l.accepted {
      store.EnqueueRetry(l.id, p);
      return None;
    }
    return Some(conn);
  }

  /** The loop of `drainRetries`. */
  method Redeliver(store: MessageStore, pending: seq<Entry>, luck: seq<Luck>) returns (taken: seq<(ConnId, Entry)>)
    requires store.Valid() && |pending| == |luck|
    modifies store
    ensures store.Valid()
    ensures taken == Taken(pending, luck)
    ensures store.db == PutAll(old(store.db), Returned(pending, luck))
    ensures store.retryCount == old(store.retryCount) + |Returned(pending, luck)|
  {
    taken := [];
    var i := 0;
    while i < |pending|
      invariant 0 <= i <= |pending| && store.Valid()
      invariant taken == Taken(pending[..i], luck[..i])
      invariant store.db == PutAll(old(store.db), Returned(pending[..i], luck[..i]))
      invariant store.retryCount == old(store.retryCount) + |Returned(pending[..i], luck[..i])|
    {
      OneMore(old(store.db), pending, luck, i);
      var conn := RedeliverOne(store, pending[i], luck[i]);
      if conn.Some? {
        taken := taken + [(conn.value, pending[i])];
      }
      i := i + 1;
    }
    TakeAll(pending);
    TakeAll(luck);
  }

  lemma OneMore(db: map<Bytes, Entry>, pending: seq<Entry>, luck: seq<Luck>, i: nat)
    requires |pending| == |luck| && i < |pending|
    ensures var p, l := pending[i], luck[i];
            var back := Returned(pending[..i], luck[..i]);
            var more := Returned(pending[..i + 1], luck[..i + 1]);
            var conn := TakenBy(p, l);
            && Taken(pending[..i + 1], luck[..i + 1]) ==
               Taken(pending[..i], luck[..i]) + (if conn.Some? then [(conn.value, p)] else [])
            && |more| == |back| + (if conn.Some? then 0 else 1)
            && PutAll(db, more) == if conn.Some? then PutAll(db, back) else PutAll(db, back)[RetryKey(p.at, l.id) := p]
  {
    var p, l := pending[i], luck[i];
    assert pending[..i + 1][..i] == pending[..i] && luck[..i + 1][..i] == luck[..i];
    var back := Returned(pending[..i], luck[..i]);
    assert (back + [(RetryKey(p.at, l.id), p)])[..|back|] == back;
    assert back + [] == back;
  }

  /** How many visited entries were too old. */
  function Dropped(db: map<Bytes, Entry>, visited: seq<Bytes>, threshold: int): (n: nat)
    requires forall i :: 0 <= i < |visited| ==> visited[i] in db
    ensures n + |Recent(db, visited, threshold)| == |visited|
  {
    if visited == [] then 0
    else
      var last := |visited| - 1;
      Dropped(db, visited[..last], threshold) + (if db[visited[last]].at < threshold then 1 else 0)
  }

  /**
   * `drainRetries`: what leaves the counter is exactly what was delivered or too old, and the entries
   * themselves are conserved the same way if and only if the new keys of returned entries are new.
   */
  method DrainOnce(store: MessageStore, now: Stamp, threshold: int, limit: int, luck: seq<Luck>)
      returns (taken: seq<(ConnId, Entry)>, ghost visited: seq<Bytes>)
    requires store.Valid()
    requires |luck| >= |store.db|
    modifies store
    ensures store.Valid()
    ensures Oldest(old(store.db), visited, now, limit)
    ensures store.retryCount == old(store.retryCount) - |taken| - Dropped(old(store.db), visited, threshold)
    ensures forall i :: 0 <= i < |taken| ==> FairTake(taken[i])
    ensures var pending := Recent(old(store.db), visited, threshold);
            && |pending| <= |luck|
            && taken == Taken(pending, luck[..|pending|])
            && (|store.db| == |old(store.db)| - |taken| - Dropped(old(store.db), visited, threshold) <==>
                NewKeys(old(store.db) - SetOf(visited), Returned(pending, luck[..|pending|])))
  {
    var pending;
    pending, visited := store.DrainRetries(now, threshold, limit);
    ghost var n := Dropped(old(store.db), visited, threshold);
    RemoveVisited(old(store.db), visited);
    taken := Redeliver(store, pending, luck[..|pending|]);
    NoneLost(old(store.db) - SetOf(visited), Returned(pending, luck[..|pending|]));
    BackOrTaken(pending, luck[..|pending|]);
  }

  /** Two entries of one time that go back under one id: the queue has one of them, the counter both. */
  lemma OneOfTwoLost(t: Stamp, first: PendingDeliver, second: PendingDeliver, id: Bytes)
    ensures var pending, luck := [Entry(t, first), Entry(t, second)], [Luck({}, "", false, id), Luck({}, "", false, id)];
            && |Returned(pending, luck)| == 2
            && PutAll(map[], Returned(pending, luck)) == map[RetryKey(t, id) := Entry(t, second)]
  {
    var pending, luck := [Entry(t, first), Entry(t, second)], [Luck({}, "", false, id), Luck({}, "", false, id)];
    assert pending[..1] == [Entry(t, first)] && luck[..1] == [luck[0]];
    assert |pending[..1][..0]| == |luck[..1][..0]| == 0;
    var key := RetryKey(t, id);
    var items: seq<(Bytes, Entry)> := [(key, pending[0]), (key, pending[1])];
    var one: seq<(Bytes, Entry)> := items[..1];
    assert Returned(pending[..1], luck[..1]) == [(key, pending[0])];
    assert Returned(pending, luck) == items;
    assert one == [(key, pending[0])] && |one[..0]| == 0;
    assert PutAll(map[], one) == map[key := pending[0]];
    assert PutAll(map[], items) == PutAll(map[], one)[key := pending[1]];
  }
}
