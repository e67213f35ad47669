/** In-flight counters are exact (gateway/connection.go, gateway/router.go). */
module InFlight {
  import opened Options
  import opened Sessions
  import opened Southbound
  import opened Conservation

  /** Message `m` is carried by `k`, and counts for the session `x` captured at submit. */
  ghost predicate Carries(s: South, m: MsgId, k: Carrier, x: SessionId) {
    match k
    case BySubmit(y) =>
      y in s.submits && (s.submits[y].Counted? || s.submits[y].Refused?) && s.submits[y].msg == m && s.submits[y].sess == Some(x)
    case ByChannel(n) =>
      s.taken <= n < s.taken + |s.channel| && s.channel[n - s.taken] == Task(Some(x), m)
    case ByWorker(w) =>
      w in s.workers && s.workers[w].task == Task(Some(x), m)
  }

  ghost predicate Flies(s: South, m: MsgId, k: Carrier, x: SessionId) {
    m in s.flight && s.flight[m] == (k, x)
  }

  /** The messages that count for a session. */
  ghost function Flying(s: South, x: SessionId): set<MsgId> {
    set m | m in s.flight && s.flight[m].1 == x
  }

  /** A worker never has a message that is still on its way to the workers. */
  ghost predicate PastChannel(s: South, m: MsgId) {
    m in s.place && !s.place[m].Enqueuing? && !s.place[m].InChannel?
  }

  ghost predicate InvFlight(s: South) {
    && (forall m, k, x :: Carries(s, m, k, x) <==> Flies(s, m, k, x))
    && (forall w :: w in s.workers ==> PastChannel(s, s.workers[w].task.msg))
    && Exact(s)
  }

  ghost predicate Exact(s: South) {
    forall x :: InFlight(s, x) == |Flying(s, x)|
  }

  // ---- Counting --------------------------------------------------------------

  lemma PickUp(s: South, s': South, sess: Option<SessionId>, m: MsgId, k: Carrier)
    requires m !in s.flight && Exact(s)
    requires s'.flight == Carry(s, sess, m, k) && s'.inFlight == InFlightAdd(s, sess, 1)
    ensures Exact(s')
  {
    forall x: SessionId ensures InFlight(s', x) == |Flying(s', x)| {
      assert InFlight(s, x) == |Flying(s, x)|;
      FlyingWith(s, s', sess, m, k, x);
    }
  }

  lemma FlyingWith(s: South, s': South, sess: Option<SessionId>, m: MsgId, k: Carrier, x: SessionId)
    requires m !in s.flight && s'.flight == Carry(s, sess, m, k)
    ensures Flying(s', x) == Flying(s, x) + (if sess == Some(x) then {m} else {})
    ensures |Flying(s', x)| == |Flying(s, x)| + (if sess == Some(x) then 1 else 0)
  {
    assert Flying(s', x) == Flying(s, x) + (if sess == Some(x) then {m} else {});
  }

  lemma Pass(s: South, s': South, sess: Option<SessionId>, m: MsgId, k: Carrier)
    requires (sess.Some? ==> m in s.flight && s.flight[m].1 == sess.value) && Exact(s)
    requires s'.flight == Carry(s, sess, m, k) && s'.inFlight == s.inFlight
    ensures Exact(s')
  {
    forall x: SessionId ensures InFlight(s', x) == |Flying(s', x)| {
      assert InFlight(s, x) == |Flying(s, x)|;
      assert Flying(s', x) == Flying(s, x);
    }
  }

  lemma SetDown(s: South, s': South, sess: Option<SessionId>, m: MsgId)
    requires (sess.Some? ==> m in s.flight && s.flight[m].1 == sess.value) && Exact(s)
    requires s'.flight == PutDown(s, sess, m) && s'.inFlight == InFlightAdd(s, sess, -1)
    ensures Exact(s')
  {
    forall x: SessionId ensures InFlight(s', x) == |Flying(s', x)| {
      assert InFlight(s, x) == |Flying(s, x)|;
      assert Flying(s', x) == Flying(s, x) - (if sess == Some(x) then {m} else {});
    }
  }

  lemma SameFlight(s: South, s': South)
    requires Exact(s) && s'.flight == s.flight && s'.inFlight == s.inFlight
    ensures Exact(s')
  {
    forall x: SessionId ensures InFlight(s', x) == |Flying(s', x)| {
      assert InFlight(s, x) == |Flying(s, x)|;
      assert Flying(s', x) == Flying(s, x);
    }
  }

  // ---- HandleSubmit ----------------------------------------------------------

  /** A message that is being enqueued is carried by that session's `HandleSubmit` or by nothing. */
  lemma EnqueuingCarrier(s: South, m: MsgId, x: SessionId, k: Carrier, y: SessionId)
    requires InvPlace(s) && InvFlight(s) && At(s, m, Enqueuing(x)) && Carries(s, m, k, y)
    ensures k == BySubmit(x)
  {
    match k
    case BySubmit(z) => assert Sits(s, m, Enqueuing(z));
    case ByChannel(n) => assert Sits(s, m, InChannel(n));
    case ByWorker(w) =>
  }

  lemma CountKeeps(c: Config, r: Registry, s: South, x: SessionId, s': South, e: Effect)
    requires InvPlace(s) && InvFlight(s) && SubmitStep(c, r, s, x, Count) == Goes(s', e)
    ensures InvFlight(s')
  {
    var sess, m0 := s.submits[x].sess, s.submits[x].msg;
    assert Sits(s, m0, Enqueuing(x));
    if m0 in s.flight {
      EnqueuingCarrier(s, m0, x, s.flight[m0].0, s.flight[m0].1);
    }
    PickUp(s, s', sess, m0, BySubmit(x));
    forall m, k, y ensures Carries(s', m, k, y) <==> Flies(s', m, k, y) {
      assert Carries(s, m, k, y) <==> Flies(s, m, k, y);
    }
  }

  lemma EnqueueKeeps(c: Config, r: Registry, s: South, x: SessionId, s': South, e: Effect)
    requires InvPlace(s) && InvFlight(s) && SubmitStep(c, r, s, x, Enqueue) == Goes(s', e)
    ensures InvFlight(s')
  {
    var sess, m0 := s.submits[x].sess, s.submits[x].msg;
    assert Sits(s, m0, Enqueuing(x));
    if sess.Some? {
      assert Carries(s, m0, BySubmit(x), sess.value);
    }
    Pass(s, s', sess, m0, ByChannel(s.taken + |s.channel|));
    forall m, k, y ensures Carries(s', m, k, y) <==> Flies(s', m, k, y) {
      assert Carries(s, m, k, y) <==> Flies(s, m, k, y);
    }
  }

  lemma UncountKeeps(c: Config, r: Registry, s: South, x: SessionId, s': South, e: Effect)
    requires InvPlace(s) && InvFlight(s) && SubmitStep(c, r, s, x, Uncount) == Goes(s', e)
    ensures InvFlight(s')
  {
    var sess, m0 := s.submits[x].sess, s.submits[x].msg;
    assert Sits(s, m0, Enqueuing(x));
    if sess.Some? {
      assert Carries(s, m0, BySubmit(x), sess.value);
    }
    SetDown(s, s', sess, m0);
    forall m, k, y ensures Carries(s', m, k, y) <==> Flies(s', m, k, y) {
      assert Carries(s, m, k, y) <==> Flies(s, m, k, y);
    }
  }

  lemma SubmitKeeps(c: Config, r: Registry, s: South, x: SessionId, op: SubmitOp, s': South, e: Effect)
    requires InvPlace(s) && InvFlight(s) && SubmitStep(c, r, s, x, op) == Goes(s', e)
    requires op != Count && op != Enqueue && op != Uncount
    ensures InvFlight(s')
  {
    if x in s.submits && !s.submits[x].Looked? {
      assert Sits(s, s.submits[x].msg, Enqueuing(x));
    }
    SubmitFrame(c, r, s, x, op, s', e);
    SameFlight(s, s');
    forall m, k, y ensures Carries(s', m, k, y) == Carries(s, m, k, y) {
      SubmitCarries(c, r, s, x, op, s', e, m, k, y);
    }
    forall w | w in s'.workers ensures PastChannel(s', s'.workers[w].task.msg) {
      SubmitPast(c, r, s, x, op, s', e, s.workers[w].task.msg);
    }
  }

  lemma SubmitFrame(c: Config, r: Registry, s: South, x: SessionId, op: SubmitOp, s': South, e: Effect)
    requires SubmitStep(c, r, s, x, op) == Goes(s', e)
    requires op != Count && op != Enqueue && op != Uncount
    ensures s'.channel == s.channel && s'.taken == s.taken && s'.workers == s.workers
    ensures s'.flight == s.flight && s'.inFlight == s.inFlight
  {
    if op.BackOff? {
      RetryFrame(c, s.(submits := s.submits - {x}), s.submits[x].msg, r.bound[x], 0, op.now, s', e);
    }
  }

  lemma RetryFrame(c: Config, s: South, msg: MsgId, conn: ConnId, retryCount: nat, now: Time, s': South, e: Effect)
    requires RetryOrFail(c, s, msg, conn, retryCount, now) == Goes(s', e)
    ensures s'.channel == s.channel && s'.taken == s.taken && s'.workers == s.workers && s'.submits == s.submits
    ensures s'.flight == s.flight && s'.inFlight == s.inFlight
  {
  }

  lemma SubmitCarries(c: Config, r: Registry, s: South, x: SessionId, op: SubmitOp, s': South, e: Effect,
                      m: MsgId, k: Carrier, y: SessionId)
    requires SubmitStep(c, r, s, x, op) == Goes(s', e)
    requires op != Count && op != Enqueue && op != Uncount
    ensures Carries(s', m, k, y) == Carries(s, m, k, y)
  {
  }

  lemma SubmitPast(c: Config, r: Registry, s: South, x: SessionId, op: SubmitOp, s': South, e: Effect, m: MsgId)
    requires SubmitStep(c, r, s, x, op) == Goes(s', e) && PastChannel(s, m) && m != s.nextMsg + 1
    requires x in s.submits && !s.submits[x].Looked? ==> At(s, s.submits[x].msg, Enqueuing(x))
    ensures PastChannel(s', m)
  {
  }

  // ---- Workers and the drainer -----------------------------------------------

  lemma TakeKeeps(c: Config, r: Registry, s: South, w: WorkerId, s': South, e: Effect)
    requires InvPlace(s) && InvFlight(s) && WorkStep(c, r, s, w, Take) == Goes(s', e)
    ensures InvFlight(s')
  {
    var task := s.channel[0];
    assert Sits(s, task.msg, InChannel(s.taken));
    if task.sess.Some? {
      assert Carries(s, task.msg, ByChannel(s.taken), task.sess.value);
    }
    Pass(s, s', task.sess, task.msg, ByWorker(w));
    forall m, k, y ensures Carries(s', m, k, y) <==> Flies(s', m, k, y) {
      assert Carries(s, m, k, y) <==> Flies(s, m, k, y);
    }
  }

  lemma ReleaseKeeps(c: Config, r: Registry, s: South, w: WorkerId, s': South, e: Effect)
    requires InvPlace(s) && InvFlight(s) && WorkStep(c, r, s, w, Release) == Goes(s', e)
    ensures InvFlight(s')
  {
    var task := s.workers[w].task;
    if task.sess.Some? {
      assert Carries(s, task.msg, ByWorker(w), task.sess.value);
    }
    SetDown(s, s', task.sess, task.msg);
    forall m, k, y ensures Carries(s', m, k, y) <==> Flies(s', m, k, y) {
      assert Carries(s, m, k, y) <==> Flies(s, m, k, y);
    }
  }

  lemma WorkPast(c: Config, r: Registry, s: South, w: WorkerId, op: WorkOp, s': South, e: Effect, m: MsgId)
    requires WorkStep(c, r, s, w, op) == Goes(s', e) && PastChannel(s, m)
    ensures PastChannel(s', m)
  {
  }

  lemma WorkKeeps(c: Config, r: Registry, s: South, w: WorkerId, op: WorkOp, s': South, e: Effect)
    requires InvFlight(s) && WorkStep(c, r, s, w, op) == Goes(s', e)
    requires op != Take && op != Release
    ensures InvFlight(s')
  {
    WorkFrame(c, r, s, w, op, s', e);
    SameFlight(s, s');
    forall m, k, y ensures Carries(s', m, k, y) == Carries(s, m, k, y) {
      SameCarries(s, s', w, m, k, y);
    }
    forall v | v in s'.workers ensures PastChannel(s', s'.workers[v].task.msg) {
      assert v != w ==> v in s'.workers - {w};
      WorkPast(c, r, s, w, op, s', e, s.workers[v].task.msg);
    }
  }

  lemma WorkFrame(c: Config, r: Registry, s: South, w: WorkerId, op: WorkOp, s': South, e: Effect)
    requires WorkStep(c, r, s, w, op) == Goes(s', e)
    requires op != Take && op != Release
    ensures s'.submits == s.submits && s'.channel == s.channel && s'.taken == s.taken
    ensures s'.flight == s.flight && s'.inFlight == s.inFlight
    ensures s'.workers - {w} == s.workers - {w}
    ensures w in s.workers && w in s'.workers && s'.workers[w].task == s.workers[w].task
  {
  }

  lemma SameCarries(s: South, s': South, w: WorkerId, m: MsgId, k: Carrier, y: SessionId)
    requires s'.submits == s.submits && s'.channel == s.channel && s'.taken == s.taken
    requires s'.workers - {w} == s.workers - {w}
    requires w in s.workers && w in s'.workers && s'.workers[w].task == s.workers[w].task
    ensures Carries(s', m, k, y) == Carries(s, m, k, y)
  {
    if k.ByWorker? && k.w != w {
      assert k.w in s'.workers - {w} <==> k.w in s.workers - {w};
      assert k.w in s'.workers ==> (s'.workers - {w})[k.w] == (s.workers - {w})[k.w];
    }
  }

  lemma DrainPast(c: Config, s: South, op: DrainOp, s': South, e: Effect, m: MsgId)
    requires DrainStep(c, s, op) == Goes(s', e) && PastChannel(s, m)
    ensures PastChannel(s', m)
  {
  }

  lemma DrainFrame(c: Config, s: South, op: DrainOp, s': South, e: Effect)
    requires DrainStep(c, s, op) == Goes(s', e)
    ensures s'.submits == s.submits && s'.channel == s.channel && s'.taken == s.taken && s'.workers == s.workers
    ensures s'.flight == s.flight && s'.inFlight == s.inFlight
  {
  }

  lemma DrainKeeps(c: Config, s: South, op: DrainOp, s': South, e: Effect)
    requires InvFlight(s) && DrainStep(c, s, op) == Goes(s', e)
    ensures InvFlight(s')
  {
    DrainFrame(c, s, op, s', e);
    SameFlight(s, s');
    assert forall m, k, y :: Carries(s', m, k, y) == Carries(s, m, k, y);
    forall v | v in s'.workers ensures PastChannel(s', s'.workers[v].task.msg) {
      DrainPast(c, s, op, s', e, s.workers[v].task.msg);
    }
  }

  lemma StepKeepsFlight(c: Config, r: Registry, s: South, step: Step, s': South, e: Effect)
    requires InvPlace(s) && InvFlight(s) && Next(c, r, s, step) == Goes(s', e)
    ensures InvFlight(s')
  {
    match step
    case OfSubmit(x, op) =>
      match op {
        case Count => CountKeeps(c, r, s, x, s', e);
        case Enqueue => EnqueueKeeps(c, r, s, x, s', e);
        case Uncount => UncountKeeps(c, r, s, x, s', e);
        case _ => SubmitKeeps(c, r, s, x, op, s', e);
      }
    case OfWorker(w, op) =>
      match op {
        case Take => TakeKeeps(c, r, s, w, s', e);
        case Release => ReleaseKeeps(c, r, s, w, s', e);
        case _ => WorkKeeps(c, r, s, w, op, s', e);
      }
    case OfDrainer(op) => DrainKeeps(c, s, op, s', e);
    case OfCounter(add) => CounterKeeps(s, add, s', e);
  }

  lemma CounterKeeps(s: South, add: bool, s': South, e: Effect)
    requires InvFlight(s) && CounterStep(s, add) == Goes(s', e)
    ensures InvFlight(s')
  {
    SameFlight(s, s');
    forall m, k, y ensures Carries(s', m, k, y) == Carries(s, m, k, y) {
    }
    forall w | w in s'.workers ensures PastChannel(s', s'.workers[w].task.msg) {
      assert PastChannel(s, s.workers[w].task.msg);
    }
  }
}
