/** The sharded concurrent map behind the correlation tables (gateway/shardmap.go). */
module ShardMap {
  import opened Octets
  import opened Options

  const SHARDS := 64

  type Word32 = n: int | 0 <= n < 0x1_0000_0000

  /** Exclusive or with an octet changes the low octet. */
  function Xor(h: Word32, b: Byte): Word32 {
    h - h % 256 + OctetOf((i: nat) => Bit(h % 256, i) != Bit(b, i))
  }

  function Mix(h: Word32, b: Byte): Word32 {
    Xor(h, b) * 16777619 % 0x1_0000_0000
  }

  /** FNV-1a. */
  function Fnv(key: Bytes): Word32 {
    if key == [] then 2166136261 else Mix(Fnv(key[..|key| - 1]), key[|key| - 1])
  }

  function Index(key: Bytes): (i: nat)
    ensures i < SHARDS
  {
    Fnv(key) % SHARDS
  }

  /** `shardIndex`, octet by octet. */
  method ShardIndex(key: Bytes) returns (i: nat)
    ensures i == Index(key)
  {
    var h: Word32 := 2166136261;
    for j := 0 to |key|
      invariant h == Fnv(key[..j])
    {
      assert key[..j + 1][..j] == key[..j];
      h := Mix(h, key[j]);
    }
    assert key[..|key|] == key;
    i := h % SHARDS;
  }

  // ---- Interleaved callers ---------------------------------------------------

  /** Callers between unlocking their shard and updating the counter: `adding` owe +1, `removing` -1. */
  datatype Sharded<V> = Sharded(shards: seq<map<Bytes, V>>, count: int, adding: set<nat>, removing: set<nat>)

  /** The locked section of `Set` or `Delete` by a caller, or its counter update. */
  datatype Op<V> = Store(who: nat, key: Bytes, val: V) | Drop(who: nat, key: Bytes) | Settle(who: nat)

  function Step<V>(s: Sharded<V>, op: Op<V>): Option<Sharded<V>>
    requires |s.shards| == SHARDS
  {
    match op
    case Store(who, key, val) =>
      var i := Index(key);
      if who in s.adding + s.removing then None
      else Some(s.(shards := s.shards[i := s.shards[i][key := val]],
                   adding := if key in s.shards[i] then s.adding else s.adding + {who}))
    case Drop(who, key) =>
      var i := Index(key);
      if who in s.adding + s.removing then None
      else if key !in s.shards[i] then Some(s)
      else Some(s.(shards := s.shards[i := s.shards[i] - {key}], removing := s.removing + {who}))
    case Settle(who) =>
      if who in s.adding then Some(s.(count := s.count + 1, adding := s.adding - {who}))
      else if who in s.removing then Some(s.(count := s.count - 1, removing := s.removing - {who}))
      else None
  }

  /** The same operation on one plain map. */
  function PlainStep<V>(m: map<Bytes, V>, op: Op<V>): map<Bytes, V> {
    match op
    case Store(_, key, val) => m[key := val]
    case Drop(_, key) => m - {key}
    case Settle(_) => m
  }

  /** A shard is the part of the plain map whose keys hash to `i`. */
  ghost predicate Part<V>(shard: map<Bytes, V>, m: map<Bytes, V>, i: nat) {
    && (forall k :: k in shard <==> k in m && Index(k) == i)
    && (forall k :: k in shard ==> shard[k] == m[k])
  }

  ghost predicate Refines<V>(shards: seq<map<Bytes, V>>, m: map<Bytes, V>) {
    |shards| == SHARDS && forall i :: 0 <= i < SHARDS ==> Part(shards[i], m, i)
  }

  ghost predicate Inv<V>(s: Sharded<V>, m: map<Bytes, V>) {
    && Refines(s.shards, m)
    && s.adding !! s.removing
    && s.count + |s.adding| == |m| + |s.removing|
  }

  lemma Growth<V>(m: map<Bytes, V>, k: Bytes, v: V)
    ensures |m[k := v]| == |m| + (if k in m then 0 else 1)
  {
    assert m[k := v].Keys == m.Keys + {k};
  }

  lemma Shrink<V>(m: map<Bytes, V>, k: Bytes)
    ensures |m - {k}| == |m| - (if k in m then 1 else 0)
    ensures k !in m ==> m - {k} == m
  {
    assert (m - {k}).Keys == m.Keys - {k};
  }

  lemma PartStore<V>(shard: map<Bytes, V>, m: map<Bytes, V>, i: nat, key: Bytes, val: V)
    requires Part(shard, m, i)
    ensures Part(if Index(key) == i then shard[key := val] else shard, m[key := val], i)
  {
  }

  lemma PartDrop<V>(shard: map<Bytes, V>, m: map<Bytes, V>, i: nat, key: Bytes)
    requires Part(shard, m, i)
    ensures Part(if Index(key) == i then shard - {key} else shard, m - {key}, i)
  {
  }

  lemma StoreRefines<V>(shards: seq<map<Bytes, V>>, m: map<Bytes, V>, key: Bytes, val: V)
    requires Refines(shards, m)
    ensures Refines(shards[Index(key) := shards[Index(key)][key := val]], m[key := val])
    ensures key in shards[Index(key)] <==> key in m
  {
    assert Part(shards[Index(key)], m, Index(key));
    var after := shards[Index(key) := shards[Index(key)][key := val]];
    forall i | 0 <= i < SHARDS ensures Part(after[i], m[key := val], i) {
      PartStore(shards[i], m, i, key, val);
    }
  }

  lemma DropRefines<V>(shards: seq<map<Bytes, V>>, m: map<Bytes, V>, key: Bytes)
    requires Refines(shards, m)
    ensures Refines(shards[Index(key) := shards[Index(key)] - {key}], m - {key})
    ensures key in shards[Index(key)] <==> key in m
  {
    assert Part(shards[Index(key)], m, Index(key));
    var after := shards[Index(key) := shards[Index(key)] - {key}];
    forall i | 0 <= i < SHARDS ensures Part(after[i], m - {key}, i) {
      PartDrop(shards[i], m, i, key);
    }
  }

  lemma StepRefines<V>(s: Sharded<V>, m: map<Bytes, V>, op: Op<V>)
    requires Inv(s, m) && Step(s, op).Some?
    ensures Inv(Step(s, op).value, PlainStep(m, op))
  {
    match op
    case Store(who, key, val) => StoreStep(s, m, who, key, val);
    case Drop(who, key) => DropStep(s, m, who, key);
    case Settle(who) =>
  }

  lemma StoreStep<V>(s: Sharded<V>, m: map<Bytes, V>, who: nat, key: Bytes, val: V)
    requires Inv(s, m) && who !in s.adding + s.removing
    ensures Inv(Step(s, Store(who, key, val)).value, m[key := val])
  {
    StoreRefines(s.shards, m, key, val);
    Growth(m, key, val);
  }

  lemma DropStep<V>(s: Sharded<V>, m: map<Bytes, V>, who: nat, key: Bytes)
    requires Inv(s, m) && who !in s.adding + s.removing
    ensures Inv(Step(s, Drop(who, key)).value, m - {key})
  {
    DropRefines(s.shards, m, key);
    Shrink(m, key);
  }

  ghost predicate Run<V>(s: Sharded<V>, ops: seq<Op<V>>, t: Sharded<V>)
    decreases |ops|
  {
    if ops == [] then s == t
    else |s.shards| == SHARDS && Step(s, ops[0]).Some? && Run(Step(s, ops[0]).value, ops[1..], t)
  }

  function PlainRun<V>(m: map<Bytes, V>, ops: seq<Op<V>>): map<Bytes, V>
    decreases |ops|
  {
    if ops == [] then m else PlainRun(PlainStep(m, ops[0]), ops[1..])
  }

  function Empty<V>(): Sharded<V> {
    Sharded(seq(SHARDS, _ => map[]), 0, {}, {})
  }

  lemma {:induction false} RunRefines<V>(s: Sharded<V>, m: map<Bytes, V>, ops: seq<Op<V>>, t: Sharded<V>)
    requires Inv(s, m) && Run(s, ops, t)
    ensures Inv(t, PlainRun(m, ops))
    decreases |ops|
  {
    if ops != [] {
      StepRefines(s, m, ops[0]);
      RunRefines(Step(s, ops[0]).value, PlainStep(m, ops[0]), ops[1..], t);
    }
  }

  /** After any interleaving, every lookup answers as one plain map and the counter is off by what is owed. */
  lemma Linearizable<V>(ops: seq<Op<V>>, t: Sharded<V>, key: Bytes)
    requires Run(Empty(), ops, t)
    ensures |t.shards| == SHARDS
    ensures var m := PlainRun(map[], ops);
            && (key in t.shards[Index(key)] <==> key in m)
            && (key in m ==> t.shards[Index(key)][key] == m[key])
            && t.count == |m| + |t.removing| - |t.adding|
            && (t.adding == {} && t.removing == {} ==> t.count == |m|)
  {
    RunRefines(Empty<V>(), map[], ops, t);
  }

  /** While callers are between their two halves, the length can even be negative. */
  lemma LengthCanBeNegative(key: Bytes)
    ensures exists ops: seq<Op<int>>, t :: Run(Empty(), ops, t) && t.count == -1
  {
    var s0 := Empty<int>();
    var a, b, c := Store(0, key, 7), Drop(1, key), Settle(1);
    var s1 := Step(s0, a).value;
    var s2 := Step(s1, b).value;
    var s3 := Step(s2, c).value;
    assert Run(s3, [], s3);
    RunOne(s2, c, [], s3);
    RunOne(s1, b, [c], s3);
    RunOne(s0, a, [b, c], s3);
    assert Run(s0, [a] + [b, c], s3);
  }

  lemma RunOne<V>(s: Sharded<V>, op: Op<V>, ops: seq<Op<V>>, t: Sharded<V>)
    requires |s.shards| == SHARDS && Step(s, op).Some? && Run(Step(s, op).value, ops, t)
    ensures Run(s, [op] + ops, t)
  {
    assert ([op] + ops)[1..] == ops;
  }

  // ---- The map itself --------------------------------------------------------

  class ShardMap<V> {
    const shards: array<map<Bytes, V>>
    var count: int
    ghost var adding: set<nat>
    ghost var removing: set<nat>
    /** The plain map that this one stands for. */
    ghost var view: map<Bytes, V>

    ghost function State(): Sharded<V>
      reads this, shards
    {
      Sharded(shards[..], count, adding, removing)
    }

    ghost predicate Valid()
      reads this, shards
    {
      Inv(State(), view)
    }

    constructor ()
      ensures Valid() && view == map[] && count == 0 && fresh(shards)
    {
      shards := new map<Bytes, V>[SHARDS](_ => map[]);
      count, adding, removing, view := 0, {}, {}, map[];
    }

    method Get(key: Bytes) returns (r: Option<V>)
      requires Valid()
      ensures r == if key in view then Some(view[key]) else None
    {
      var i := ShardIndex(key);
      assert shards[..][i] == shards[i];
      r := if key in shards[i] then Some(shards[i][key]) else None;
    }

    /** The locked section of `Set`. */
    method SetLocked(ghost who: nat, key: Bytes, val: V) returns (existed: bool)
      requires Valid() && who !in adding + removing
      modifies this, shards
      ensures Valid() && view == old(view)[key := val] && existed == (key in old(view))
      ensures Some(State()) == Step(old(State()), Store(who, key, val))
    {
      StepRefines(State(), view, Store(who, key, val));
      StoreRefines(shards[..], view, key, val);
      var i := ShardIndex(key);
      assert shards[..][i] == shards[i];
      existed := key in shards[i];
      shards[i] := shards[i][key := val];
      adding := if existed then adding else adding + {who};
      view := view[key := val];
    }

    /** The locked section of `Delete`. */
    method DeleteLocked(ghost who: nat, key: Bytes) returns (existed: bool)
      requires Valid() && who !in adding + removing
      modifies this, shards
      ensures Valid() && view == old(view) - {key} && existed == (key in old(view))
      ensures Some(State()) == Step(old(State()), Drop(who, key))
    {
      StepRefines(State(), view, Drop(who, key));
      DropRefines(shards[..], view, key);
      var i := ShardIndex(key);
      assert shards[..][i] == shards[i];
      existed := key in shards[i];
      if existed {
        shards[i] := shards[i] - {key};
        removing := removing + {who};
      }
      view := view - {key};
    }

    /** The counter update that follows a locked section. */
    method AddCount(ghost who: nat, delta: int)
      requires Valid() && who in adding + removing && delta == (if who in adding then 1 else -1)
      modifies this
      ensures Valid() && view == old(view) && count == old(count) + delta
      ensures Some(State()) == Step(old(State()), Settle(who))
    {
      ghost var next := Step(State(), Settle(who)).value;
      StepRefines(State(), view, Settle(who));
      count := count + delta;
      if who in adding {
        adding := adding - {who};
      } else {
        removing := removing - {who};
      }
      assert State() == next;
    }

    method Set(ghost who: nat, key: Bytes, val: V)
      requires Valid() && who !in adding + removing
      modifies this, shards
      ensures Valid() && view == old(view)[key := val]
      ensures count == old(count) + |view| - |old(view)|
    {
      var existed := SetLocked(who, key, val);
      Growth(old(view), key, val);
      if !existed {
        AddCount(who, 1);
      }
    }

    method Delete(ghost who: nat, key: Bytes)
      requires Valid() && who !in adding + removing
      modifies this, shards
      ensures Valid() && view == old(view) - {key}
      ensures count == old(count) + |view| - |old(view)|
    {
      var existed := DeleteLocked(who, key);
      Shrink(old(view), key);
      if existed {
        AddCount(who, -1);
      }
    }

    method Len() returns (n: int)
      requires Valid()
      ensures n == |view| + |removing| - |adding|
      ensures adding == {} && removing == {} ==> n == |view|
    {
      n := count;
    }

    /** Every entry is visited once, up to the first that stops the iteration. */
    method Range(go: (Bytes, V) -> bool) returns (visited: seq<Bytes>)
      requires Valid()
      ensures VisitsAll(view, visited, go) || StopsEarly(view, visited, go)
    {
      visited := [];
      for i := 0 to SHARDS
        invariant Covered(view, i, {}, visited)
        invariant AllGo(view, visited, go)
      {
        var m := shards[i];
        assert Part(shards[..][i], view, i);
        NextShard(view, i, m.Keys, visited);
        var stopped;
        visited, stopped := RangeShard(m, go, visited, view, i + 1);
        if stopped {
          return;
        }
      }
    }
  }

  /** The part of `Range` under the lock of one shard. */
  method RangeShard<V>(m: map<Bytes, V>, go: (Bytes, V) -> bool, before: seq<Bytes>, ghost view: map<Bytes, V>, ghost i: nat)
    returns (visited: seq<Bytes>, stopped: bool)
    requires Covered(view, i, m.Keys, before) && AllGo(view, before, go)
    requires forall k :: k in m ==> k in view && m[k] == view[k]
    ensures !stopped ==> Covered(view, i, {}, visited) && AllGo(view, visited, go)
    ensures stopped ==> StopsEarly(view, visited, go)
  {
    visited := before;
    var rest := m.Keys;
    while rest != {}
      invariant rest <= m.Keys
      invariant Covered(view, i, rest, visited) && AllGo(view, visited, go)
      decreases rest
    {
      var k :| k in rest;
      CoverOne(view, i, rest, visited, k);
      assert (visited + [k])[..|visited|] == visited;
      rest := rest - {k};
      visited := visited + [k];
      if !go(k, m[k]) {
        Stopped(view, i, rest, visited, go);
        return visited, true;
      }
    }
    return visited, false;
  }

  /** Every key, once, and the callback never stopped. */
  ghost predicate VisitsAll<V>(m: map<Bytes, V>, visited: seq<Bytes>, go: (Bytes, V) -> bool) {
    && (forall k :: k in visited <==> k in m)
    && (forall a, b :: 0 <= a < b < |visited| ==> visited[a] != visited[b])
    && AllGo(m, visited, go)
  }

  /** Some keys, none twice; the callback stopped at the last and at no other. */
  ghost predicate StopsEarly<V>(m: map<Bytes, V>, visited: seq<Bytes>, go: (Bytes, V) -> bool) {
    && visited != []
    && (forall k :: k in visited ==> k in m)
    && (forall a, b :: 0 <= a < b < |visited| ==> visited[a] != visited[b])
    && AllGo(m, visited[..|visited| - 1], go)
    && !go(visited[|visited| - 1], m[visited[|visited| - 1]])
  }

  lemma Stopped<V>(m: map<Bytes, V>, i: nat, rest: set<Bytes>, visited: seq<Bytes>, go: (Bytes, V) -> bool)
    requires visited != [] && Covered(m, i, rest, visited) && AllGo(m, visited[..|visited| - 1], go)
    requires visited[|visited| - 1] in m && !go(visited[|visited| - 1], m[visited[|visited| - 1]])
    ensures StopsEarly(m, visited, go)
  {
  }

  /** The visited keys are, without repetition, those of shards below `i` except `rest`. */
  ghost predicate Covered<V>(m: map<Bytes, V>, i: nat, rest: set<Bytes>, visited: seq<Bytes>) {
    && (forall k :: k in visited ==> k in m && Index(k) < i && k !in rest)
    && (forall k :: k in m && Index(k) < i && k !in rest ==> k in visited)
    && (forall a, b :: 0 <= a < b < |visited| ==> visited[a] != visited[b])
    && (forall k :: k in rest ==> k in m && Index(k) < i)
  }

  ghost predicate AllGo<V>(m: map<Bytes, V>, visited: seq<Bytes>, go: (Bytes, V) -> bool) {
    forall j :: 0 <= j < |visited| ==> visited[j] in m && go(visited[j], m[visited[j]])
  }

  lemma NextShard<V>(m: map<Bytes, V>, i: nat, rest: set<Bytes>, visited: seq<Bytes>)
    requires Covered(m, i, {}, visited) && forall k :: k in rest <==> k in m && Index(k) == i
    ensures Covered(m, i + 1, rest, visited)
  {
  }

  lemma CoverOne<V>(m: map<Bytes, V>, i: nat, rest: set<Bytes>, visited: seq<Bytes>, k: Bytes)
    requires Covered(m, i, rest, visited) && k in rest
    ensures Covered(m, i, rest - {k}, visited + [k])
  {
  }

  /** A callback that never stops the iteration sees each of the `Len()` entries exactly once. */
  lemma UninterruptedSeesAll<V>(m: map<Bytes, V>, visited: seq<Bytes>, go: (Bytes, V) -> bool)
    requires VisitsAll(m, visited, go) || StopsEarly(m, visited, go)
    requires forall k :: k in m ==> go(k, m[k])
    ensures VisitsAll(m, visited, go) && |visited| == |m|
  {
    CountKeys(visited);
    assert (set k | k in visited) == m.Keys;
  }

  lemma {:induction false} CountKeys(keys: seq<Bytes>)
    requires forall a, b :: 0 <= a < b < |keys| ==> keys[a] != keys[b]
    ensures |set k | k in keys| == |keys|
  {
    if keys != [] {
      var init := keys[..|keys| - 1];
      CountKeys(init);
      assert (set k | k in keys) == (set k | k in init) + {keys[|keys| - 1]};
    }
  }
}
