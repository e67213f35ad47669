/** Bounded retry and single outcome (gateway/router.go). */
module Retrying {
  import opened Options
  import opened Sessions
  import opened Southbound
  import opened Conservation

  /** Southbound attempts made for a message. */
  ghost function Attempts(s: South, m: MsgId): nat {
    s.log[Attempt(m, true)] + s.log[Attempt(m, false)]
  }

  function MaxRetries(c: Config): nat {
    if c.maxSubmitRetries > 0 then c.maxSubmitRetries else 0
  }

  /** Messages that found the channel full start one attempt behind. */
  ghost function Behind(s: South, m: MsgId): nat {
    if m in s.overflow then 1 else 0
  }

  ghost predicate CountOk(c: Config, s: South, m: MsgId, p: PendingSubmit, more: nat) {
    1 <= p.retryCount <= MaxRetries(c) && Attempts(s, m) + Behind(s, m) <= p.retryCount + more
  }

  /** How many attempts a message can have behind it, by its place. */
  ghost predicate WithinBudget(c: Config, s: South, m: MsgId)
    requires m in s.place
  {
    match s.place[m]
    case Enqueuing(x) =>
      Attempts(s, m) == 0 && x in s.submits && (m in s.overflow <==> s.submits[x].Refused? || s.submits[x].Uncounted?)
    case InChannel(_) => Attempts(s, m) == 0 && m !in s.overflow
    case AtWorker(w) =>
      w in s.workers && m !in s.overflow && Attempts(s, m) <= if s.workers[w].Failing? then 1 else 0
    case InRetryQueue(key) => key in s.retryQueue && CountOk(c, s, m, s.retryQueue[key], 0)
    case AtDrainer(n) =>
      && s.finished <= n < s.finished + |s.held|
      && CountOk(c, s, m, s.held[n - s.finished], if n == s.finished && s.drain == HeadFailed then 1 else 0)
    case _ => Attempts(s, m) + Behind(s, m) <= MaxRetries(c) + 1
  }

  ghost predicate InvRetry(c: Config, s: South) {
    && (forall m :: m in s.place ==> WithinBudget(c, s, m))
    && (forall m :: m !in s.place ==> Attempts(s, m) == 0 && m !in s.overflow)
    && (s.drain == HeadFailed ==> s.held != [])
  }

  // ---- One message over one step ---------------------------------------------

  /** What the proofs below know of a message before the step. */
  ghost predicate Known(c: Config, s: South, m: MsgId) {
    && m in s.place && Sits(s, m, s.place[m]) && WithinBudget(c, s, m)
    && (s.place[m].InRetryQueue? ==> s.place[m].key.1 == m)
  }

  /** `enqueueSubmitRetryOrFail` for a message with `retryCount` retries behind it. */
  lemma RetryOrFailBudget(c: Config, s: South, m0: MsgId, conn: ConnId, retryCount: nat, now: Time,
                          s': South, e: Effect, m: MsgId)
    requires RetryOrFail(c, s, m0, conn, retryCount, now) == Goes(s', e)
    requires retryCount <= MaxRetries(c) && Attempts(s, m0) + Behind(s, m0) <= retryCount + 1
    requires m != m0 ==> Known(c, s, m)
    ensures m in s'.place && WithinBudget(c, s', m)
  {
  }

  lemma EnqueueBudget(c: Config, r: Registry, s: South, x: SessionId, s': South, e: Effect, m: MsgId)
    requires SubmitStep(c, r, s, x, Enqueue) == Goes(s', e)
    requires At(s, s.submits[x].msg, Enqueuing(x)) && Known(c, s, m)
    ensures m in s'.place && WithinBudget(c, s', m)
  {
  }

  lemma RefuseBudget(c: Config, r: Registry, s: South, x: SessionId, s': South, e: Effect, m: MsgId)
    requires SubmitStep(c, r, s, x, Refuse) == Goes(s', e)
    requires At(s, s.submits[x].msg, Enqueuing(x)) && Known(c, s, m)
    ensures m in s'.place && WithinBudget(c, s', m)
  {
  }

  lemma SubmitBudget(c: Config, r: Registry, s: South, x: SessionId, op: SubmitOp, s': South, e: Effect, m: MsgId)
    requires SubmitStep(c, r, s, x, op) == Goes(s', e)
    requires op == Lookup || op == Reject || op == Correlate || op == Count || op == Uncount
    requires x in s.submits && !s.submits[x].Looked? ==> At(s, s.submits[x].msg, Enqueuing(x))
    requires Known(c, s, m)
    ensures m in s'.place && WithinBudget(c, s', m)
  {
  }

  lemma BackOffBudget(c: Config, r: Registry, s: South, x: SessionId, now: Time, s': South, e: Effect, m: MsgId)
    requires SubmitStep(c, r, s, x, BackOff(now)) == Goes(s', e)
    requires At(s, s.submits[x].msg, Enqueuing(x)) && WithinBudget(c, s, s.submits[x].msg)
    requires Known(c, s, m)
    ensures m in s'.place && WithinBudget(c, s', m)
  {
    RetryOrFailBudget(c, s.(submits := s.submits - {x}), s.submits[x].msg, r.bound[x], 0, now, s', e, m);
  }

  lemma AcceptBudget(c: Config, r: Registry, s: South, x: SessionId, s': South, e: Effect, m: MsgId)
    requires SubmitStep(c, r, s, x, Accept) == Goes(s', e)
    requires s.nextMsg + 1 !in s.place && Attempts(s, s.nextMsg + 1) == 0 && s.nextMsg + 1 !in s.overflow
    requires m in s.place ==> Known(c, s, m)
    requires m in s'.place
    ensures WithinBudget(c, s', m)
  {
  }

  lemma TakeBudget(c: Config, r: Registry, s: South, w: WorkerId, s': South, e: Effect, m: MsgId)
    requires WorkStep(c, r, s, w, Take) == Goes(s', e)
    requires At(s, s.channel[0].msg, InChannel(s.taken)) && WithinBudget(c, s, s.channel[0].msg)
    requires Known(c, s, m)
    ensures m in s'.place && WithinBudget(c, s', m)
  {
  }

  lemma FailBudget(c: Config, r: Registry, s: South, w: WorkerId, s': South, e: Effect, m: MsgId)
    requires WorkStep(c, r, s, w, Fail) == Goes(s', e) && At(s, s.workers[w].task.msg, AtWorker(w))
    requires Known(c, s, m)
    ensures m in s'.place && WithinBudget(c, s', m)
  {
  }

  lemma SucceedBudget(c: Config, r: Registry, s: South, w: WorkerId, smsc: SmscId, s': South, e: Effect, m: MsgId)
    requires WorkStep(c, r, s, w, Succeed(smsc)) == Goes(s', e) && At(s, s.workers[w].task.msg, AtWorker(w))
    requires Known(c, s, m)
    ensures m in s'.place && WithinBudget(c, s', m)
  {
  }

  /** The other steps of a worker attempt nothing and move nothing. */
  lemma WorkQuiet(c: Config, r: Registry, s: South, w: WorkerId, op: WorkOp, s': South, e: Effect)
    requires WorkStep(c, r, s, w, op) == Goes(s', e) && (op == Unrouted || op == Link || op == Persist || op == Release)
    ensures s' == s.(workers := s'.workers, inFlight := s'.inFlight, flight := s'.flight) && w in s.workers
    ensures s'.workers - {w} == s.workers - {w} && (s.workers[w].Holding? ==> w in s'.workers)
  {
  }

  lemma QuietBudget(c: Config, s: South, w: WorkerId, s': South, m: MsgId)
    requires s' == s.(workers := s'.workers, inFlight := s'.inFlight, flight := s'.flight) && w in s.workers
    requires s'.workers - {w} == s.workers - {w} && (s.workers[w].Holding? ==> w in s'.workers)
    requires Known(c, s, m) && (s.workers[w].Failing? ==> w in s'.workers && s'.workers[w].Failing?)
    ensures m in s'.place && WithinBudget(c, s', m)
  {
    if s.place[m].AtWorker? && s.place[m].w != w {
      assert s.place[m].w in s'.workers - {w};
      assert s'.workers[s.place[m].w] == (s.workers - {w})[s.place[m].w];
    }
  }

  lemma WorkBudget(c: Config, r: Registry, s: South, w: WorkerId, op: WorkOp, s': South, e: Effect, m: MsgId)
    requires WorkStep(c, r, s, w, op) == Goes(s', e) && !op.GiveBack? && !op.Take?
    requires s.workers[w].Holding? || s.workers[w].Failing? ==> At(s, s.workers[w].task.msg, AtWorker(w))
    requires Known(c, s, m)
    ensures m in s'.place && WithinBudget(c, s', m)
  {
    match op
    case Fail => FailBudget(c, r, s, w, s', e, m);
    case Succeed(smsc) => SucceedBudget(c, r, s, w, smsc, s', e, m);
    case _ =>
      WorkQuiet(c, r, s, w, op, s', e);
      QuietBudget(c, s, w, s', m);
  }

  lemma GiveBackBudget(c: Config, r: Registry, s: South, w: WorkerId, now: Time, s': South, e: Effect, m: MsgId)
    requires WorkStep(c, r, s, w, GiveBack(now)) == Goes(s', e)
    requires At(s, s.workers[w].task.msg, AtWorker(w)) && WithinBudget(c, s, s.workers[w].task.msg)
    requires Known(c, s, m)
    ensures m in s'.place && WithinBudget(c, s', m)
  {
    var task := s.workers[w].task;
    RetryOrFailBudget(c, s.(workers := s.workers[w := Releasing(task)]), task.msg, IdOf(r, task.sess), 0, now, s', e, m);
  }

  lemma FetchBudget(c: Config, s: South, key: (Time, MsgId), s': South, e: Effect, m: MsgId)
    requires DrainStep(c, s, Fetch(key)) == Goes(s', e)
    requires At(s, s.retryQueue[key].msg, InRetryQueue(key)) && WithinBudget(c, s, s.retryQueue[key].msg)
    requires s.drain == HeadFailed ==> s.held != []
    requires Known(c, s, m)
    ensures m in s'.place && WithinBudget(c, s', m)
  {
  }

  lemma SucceedHeadBudget(c: Config, s: South, smsc: SmscId, s': South, e: Effect, m: MsgId)
    requires DrainStep(c, s, SucceedHead(smsc)) == Goes(s', e)
    requires At(s, s.held[0].msg, AtDrainer(s.finished)) && WithinBudget(c, s, s.held[0].msg)
    requires Known(c, s, m)
    ensures m in s'.place && WithinBudget(c, s', m)
  {
  }

  lemma DrainBudget(c: Config, s: South, op: DrainOp, s': South, e: Effect, m: MsgId)
    requires DrainStep(c, s, op) == Goes(s', e) && !op.GiveBackHead? && !op.Fetch? && !op.SucceedHead?
    requires s.held != [] ==> At(s, s.held[0].msg, AtDrainer(s.finished))
    requires Known(c, s, m)
    ensures m in s'.place && WithinBudget(c, s', m)
  {
  }

  lemma GiveBackHeadBudget(c: Config, s: South, now: Time, s': South, e: Effect, m: MsgId)
    requires DrainStep(c, s, GiveBackHead(now)) == Goes(s', e)
    requires At(s, s.held[0].msg, AtDrainer(s.finished)) && WithinBudget(c, s, s.held[0].msg)
    requires Known(c, s, m)
    ensures m in s'.place && WithinBudget(c, s', m)
  {
    var p := s.held[0];
    var s1 := s.(held := s.held[1..], finished := s.finished + 1, drain := Ready);
    assert m != p.msg ==> Known(c, s1, m);
    RetryOrFailBudget(c, s1, p.msg, p.conn, p.retryCount, now, s', e, m);
  }

  // ---- Every message over every step -----------------------------------------

  lemma KnowsAll(c: Config, s: South, m: MsgId)
    requires InvPlace(s) && InvRetry(c, s) && m in s.place
    ensures Known(c, s, m)
  {
    assert At(s, m, s.place[m]);
  }

  lemma StepBudget(c: Config, r: Registry, s: South, step: Step, s': South, e: Effect, m: MsgId)
    requires InvPlace(s) && InvRetry(c, s) && Next(c, r, s, step) == Goes(s', e) && m in s.place
    ensures m in s'.place && WithinBudget(c, s', m)
  {
    KnowsAll(c, s, m);
    match step
    case OfSubmit(x, op) =>
      SubmitStepBudget(c, r, s, x, op, s', e, m);
    case OfWorker(w, op) =>
      WorkStepBudget(c, r, s, w, op, s', e, m);
    case OfDrainer(op) =>
      DrainStepBudget(c, s, op, s', e, m);
    case OfCounter(add) =>
      CounterBudget(c, s, add, s', e, m);
  }

  lemma CounterBudget(c: Config, s: South, add: bool, s': South, e: Effect, m: MsgId)
    requires CounterStep(s, add) == Goes(s', e) && Known(c, s, m)
    ensures m in s'.place && WithinBudget(c, s', m)
  {
  }

  lemma SubmitStepBudget(c: Config, r: Registry, s: South, x: SessionId, op: SubmitOp, s': South, e: Effect, m: MsgId)
    requires InvPlace(s) && InvRetry(c, s) && SubmitStep(c, r, s, x, op) == Goes(s', e) && Known(c, s, m)
    ensures m in s'.place && WithinBudget(c, s', m)
  {
    if x in s.submits && !s.submits[x].Looked? {
      assert Sits(s, s.submits[x].msg, Enqueuing(x));
    }
    match op
    case Accept =>
      AcceptedStays(c, r, s, x, s', e, m);
      AcceptBudget(c, r, s, x, s', e, m);
    case BackOff(now) => BackOffBudget(c, r, s, x, now, s', e, m);
    case Enqueue => EnqueueBudget(c, r, s, x, s', e, m);
    case Refuse => RefuseBudget(c, r, s, x, s', e, m);
    case _ => SubmitBudget(c, r, s, x, op, s', e, m);
  }

  lemma AcceptedStays(c: Config, r: Registry, s: South, x: SessionId, s': South, e: Effect, m: MsgId)
    requires SubmitStep(c, r, s, x, Accept) == Goes(s', e) && m in s.place
    ensures m in s'.place
  {
  }

  lemma WorkStepBudget(c: Config, r: Registry, s: South, w: WorkerId, op: WorkOp, s': South, e: Effect, m: MsgId)
    requires InvPlace(s) && InvRetry(c, s) && WorkStep(c, r, s, w, op) == Goes(s', e) && Known(c, s, m)
    ensures m in s'.place && WithinBudget(c, s', m)
  {
    if op == Take {
      assert Sits(s, s.channel[0].msg, InChannel(s.taken));
      TakeBudget(c, r, s, w, s', e, m);
    } else {
      if s.workers[w].Holding? || s.workers[w].Failing? {
        assert Sits(s, s.workers[w].task.msg, AtWorker(w));
      }
      if op.GiveBack? {
        GiveBackBudget(c, r, s, w, op.now, s', e, m);
      } else {
        WorkBudget(c, r, s, w, op, s', e, m);
      }
    }
  }

  lemma DrainStepBudget(c: Config, s: South, op: DrainOp, s': South, e: Effect, m: MsgId)
    requires InvPlace(s) && InvRetry(c, s) && DrainStep(c, s, op) == Goes(s', e) && Known(c, s, m)
    ensures m in s'.place && WithinBudget(c, s', m)
  {
    if s.held != [] {
      assert Sits(s, s.held[0].msg, AtDrainer(s.finished));
    }
    match op {
      case Fetch(key) =>
        assert Sits(s, s.retryQueue[key].msg, InRetryQueue(key));
        FetchBudget(c, s, key, s', e, m);
      case SucceedHead(smsc) => SucceedHeadBudget(c, s, smsc, s', e, m);
      case GiveBackHead(now) => GiveBackHeadBudget(c, s, now, s', e, m);
      case _ => DrainBudget(c, s, op, s', e, m);
    }
  }

  lemma StepKeepsBudget(c: Config, r: Registry, s: South, step: Step, s': South, e: Effect)
    requires InvPlace(s) && InvRetry(c, s) && Next(c, r, s, step) == Goes(s', e)
    ensures InvRetry(c, s')
  {
    forall m | m in s'.place ensures WithinBudget(c, s', m) {
      if m in s.place {
        StepBudget(c, r, s, step, s', e, m);
      } else {
        NewcomerBudget(c, r, s, step, s', e, m);
      }
    }
    forall m | m !in s'.place ensures Attempts(s', m) == 0 && m !in s'.overflow {
      OutsiderUntouched(c, r, s, step, s', e, m);
    }
    HeadStays(c, r, s, step, s', e);
  }

  lemma HeadStays(c: Config, r: Registry, s: South, step: Step, s': South, e: Effect)
    requires Next(c, r, s, step) == Goes(s', e) && (s.drain == HeadFailed ==> s.held != [])
    ensures s'.drain == HeadFailed ==> s'.held != []
  {
    match step
    case OfSubmit(x, op) => SubmitPlacesStay(c, r, s, x, op, s', e);
    case OfWorker(w, op) => WorkPlacesStay(c, r, s, w, op, s', e);
    case OfDrainer(op) => DrainPlacesStay(c, s, op, s', e);
    case OfCounter(add) => CounterFrame(s, add, s', e);
  }

  /** A message without a place has no attempts behind it. */
  lemma OutsiderUntouched(c: Config, r: Registry, s: South, step: Step, s': South, e: Effect, m: MsgId)
    requires InvPlace(s) && InvRetry(c, s) && Next(c, r, s, step) == Goes(s', e) && m !in s'.place
    ensures Attempts(s', m) == 0 && m !in s'.overflow
  {
    if m != Subject(s, step) {
      OthersUntouched(c, r, s, step, s', e, m);
    } else {
      SubjectKnown(c, r, s, step, s', e);
      PlacesStay(c, r, s, step, s', e);
    }
  }

  lemma NewcomerBudget(c: Config, r: Registry, s: South, step: Step, s': South, e: Effect, m: MsgId)
    requires InvPlace(s) && InvRetry(c, s) && Next(c, r, s, step) == Goes(s', e) && m in s'.place && m !in s.place
    ensures WithinBudget(c, s', m)
  {
    if m != Subject(s, step) {
      OthersUntouched(c, r, s, step, s', e, m);
    } else {
      SubjectKnown(c, r, s, step, s', e);
      assert step.OfSubmit? && step.submitOp == Accept;
      AcceptBudget(c, r, s, step.x, s', e, m);
    }
  }
}
