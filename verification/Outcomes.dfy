/** Every message moves a bounded number of times and ends in one outcome (gateway/router.go). */
module Outcomes {
  import opened Options
  import opened Sessions
  import opened Southbound
  import opened Conservation
  import opened Retrying

  // ---- One outcome -----------------------------------------------------------

  /** No message is forwarded twice, and no message gets two synthetic receipts. */
  ghost predicate InvOnce(s: South) {
    forall m :: s.log[Attempt(m, true)] <= 1 && s.log[Synthetic(m)] <= 1
  }

  /** The events of the message that a step is about; it was neither forwarded nor failed before. */
  ghost predicate GrowsOnce(s: South, s': South, m: MsgId) {
    && s'.log[Attempt(m, true)] <= s.log[Attempt(m, true)] + 1
    && s'.log[Synthetic(m)] <= s.log[Synthetic(m)] + 1
    && (s'.log[Attempt(m, true)] != s.log[Attempt(m, true)] || s'.log[Synthetic(m)] != s.log[Synthetic(m)] ==>
          m in s.place && s.place[m] != Forwarded && s.place[m] != Failed)
  }

  lemma SubmitGrowsOnce(c: Config, r: Registry, s: South, x: SessionId, op: SubmitOp, s': South, e: Effect)
    requires InvPlace(s) && SubmitStep(c, r, s, x, op) == Goes(s', e)
    ensures GrowsOnce(s, s', Subject(s, OfSubmit(x, op)))
  {
    if x in s.submits && !s.submits[x].Looked? {
      assert Sits(s, s.submits[x].msg, Enqueuing(x));
    }
  }

  lemma WorkGrowsOnce(c: Config, r: Registry, s: South, w: WorkerId, op: WorkOp, s': South, e: Effect)
    requires InvPlace(s) && WorkStep(c, r, s, w, op) == Goes(s', e)
    ensures GrowsOnce(s, s', Subject(s, OfWorker(w, op)))
  {
    if w in s.workers && (s.workers[w].Holding? || s.workers[w].Failing?) {
      assert Sits(s, s.workers[w].task.msg, AtWorker(w));
    }
  }

  lemma DrainGrowsOnce(c: Config, s: South, op: DrainOp, s': South, e: Effect)
    requires InvPlace(s) && DrainStep(c, s, op) == Goes(s', e)
    ensures GrowsOnce(s, s', Subject(s, OfDrainer(op)))
  {
    if s.held != [] {
      assert Sits(s, s.held[0].msg, AtDrainer(s.finished));
    }
  }

  lemma StepKeepsOnce(c: Config, r: Registry, s: South, step: Step, s': South, e: Effect)
    requires InvPlace(s) && InvOnce(s) && Next(c, r, s, step) == Goes(s', e)
    ensures InvOnce(s')
  {
    forall m ensures s'.log[Attempt(m, true)] <= 1 && s'.log[Synthetic(m)] <= 1 {
      if m != Subject(s, step) {
        OthersUntouched(c, r, s, step, s', e, m);
      } else {
        StepGrowsOnce(c, r, s, step, s', e);
        OutcomeLogged(s, m);
      }
    }
  }

  lemma StepGrowsOnce(c: Config, r: Registry, s: South, step: Step, s': South, e: Effect)
    requires InvPlace(s) && Next(c, r, s, step) == Goes(s', e)
    ensures GrowsOnce(s, s', Subject(s, step))
  {
    match step
    case OfSubmit(x, op) => SubmitGrowsOnce(c, r, s, x, op, s', e);
    case OfWorker(w, op) => WorkGrowsOnce(c, r, s, w, op, s', e);
    case OfDrainer(op) => DrainGrowsOnce(c, s, op, s', e);
    case OfCounter(add) => CounterFrame(s, add, s', e);
  }

  lemma OutcomeLogged(s: South, m: MsgId)
    requires InvPlace(s)
    ensures Attempt(m, true) in s.log <==> At(s, m, Forwarded)
    ensures Synthetic(m) in s.log <==> At(s, m, Failed)
  {
    assert Sits(s, m, Forwarded) <==> At(s, m, Forwarded);
    assert Sits(s, m, Failed) <==> At(s, m, Failed);
  }

  // ---- A measure that every move lowers --------------------------------------

  ghost function RankAt(c: Config, s: South, p: Place): int {
    var retries := MaxRetries(c);
    match p
    case Enqueuing(_) => 2 * retries + 4
    case InChannel(_) => 2 * retries + 3
    case AtWorker(_) => 2 * retries + 2
    case InRetryQueue(key) => if key in s.retryQueue then 2 * (retries - s.retryQueue[key].retryCount) + 3 else 0
    case AtDrainer(n) =>
      if s.finished <= n < s.finished + |s.held| then 2 * (retries - s.held[n - s.finished].retryCount) + 2 else 0
    case _ => 0
  }

  /** How far a message is from its outcome: twice the retries left, and the stage it is in. */
  ghost function Rank(c: Config, s: South, m: MsgId): int
    requires m in s.place
  {
    RankAt(c, s, s.place[m])
  }

  lemma RankBounds(c: Config, s: South, m: MsgId)
    requires Known(c, s, m)
    ensures 0 <= Rank(c, s, m) <= 2 * MaxRetries(c) + 4
    ensures Rank(c, s, m) == 0 <==> s.place[m] == Forwarded || s.place[m] == Failed
  {
  }

  /** A step leaves a message where it is, or moves it closer to its outcome. */
  ghost predicate Closer(c: Config, s: South, s': South, m: MsgId) {
    && m in s.place && m in s'.place
    && ((s'.place[m] == s.place[m] && Rank(c, s', m) == Rank(c, s, m)) || Rank(c, s', m) < Rank(c, s, m))
  }

  lemma RetryOrFailCloser(c: Config, s: South, m0: MsgId, conn: ConnId, retryCount: nat, now: Time,
                          s': South, e: Effect, m: MsgId)
    requires RetryOrFail(c, s, m0, conn, retryCount, now) == Goes(s', e) && retryCount <= MaxRetries(c)
    requires Known(c, s, m) && m != m0
    ensures Closer(c, s, s', m)
  {
  }

  /** The message that was taken out goes back with a smaller measure, the others keep theirs. */
  lemma GivenBackCloser(c: Config, s: South, s1: South, m0: MsgId, conn: ConnId, retryCount: nat, now: Time,
                        s': South, e: Effect, m: MsgId)
    requires RetryOrFail(c, s1, m0, conn, retryCount, now) == Goes(s', e) && retryCount <= MaxRetries(c)
    requires s1.place == s.place && m in s.place
    requires m != m0 ==> Known(c, s1, m) && Rank(c, s1, m) == Rank(c, s, m)
    requires m == m0 ==> Rank(c, s, m) > 2 * (MaxRetries(c) - retryCount) + 1
    ensures Closer(c, s, s', m)
  {
    if m != m0 {
      RetryOrFailCloser(c, s1, m0, conn, retryCount, now, s', e, m);
    }
  }

  lemma SubmitCloser(c: Config, r: Registry, s: South, x: SessionId, op: SubmitOp, s': South, e: Effect, m: MsgId)
    requires SubmitStep(c, r, s, x, op) == Goes(s', e) && !op.BackOff?
    requires x in s.submits && !s.submits[x].Looked? ==> At(s, s.submits[x].msg, Enqueuing(x))
    requires s.nextMsg + 1 !in s.place && Known(c, s, m)
    ensures Closer(c, s, s', m)
  {
  }

  lemma BackOffCloser(c: Config, r: Registry, s: South, x: SessionId, now: Time, s': South, e: Effect, m: MsgId)
    requires SubmitStep(c, r, s, x, BackOff(now)) == Goes(s', e)
    requires At(s, s.submits[x].msg, Enqueuing(x)) && Known(c, s, m)
    ensures Closer(c, s, s', m)
  {
    GivenBackCloser(c, s, s.(submits := s.submits - {x}), s.submits[x].msg, r.bound[x], 0, now, s', e, m);
  }

  lemma WorkCloser(c: Config, r: Registry, s: South, w: WorkerId, op: WorkOp, s': South, e: Effect, m: MsgId)
    requires WorkStep(c, r, s, w, op) == Goes(s', e) && !op.GiveBack?
    requires w in s.workers && s.workers[w].Holding? ==> At(s, s.workers[w].task.msg, AtWorker(w))
    requires w !in s.workers ==> At(s, s.channel[0].msg, InChannel(s.taken))
    requires Known(c, s, m)
    ensures Closer(c, s, s', m)
  {
  }

  lemma GiveBackCloser(c: Config, r: Registry, s: South, w: WorkerId, now: Time, s': South, e: Effect, m: MsgId)
    requires WorkStep(c, r, s, w, GiveBack(now)) == Goes(s', e)
    requires At(s, s.workers[w].task.msg, AtWorker(w)) && Known(c, s, m)
    ensures Closer(c, s, s', m)
  {
    var task := s.workers[w].task;
    GivenBackCloser(c, s, s.(workers := s.workers[w := Releasing(task)]), task.msg, IdOf(r, task.sess), 0, now, s', e, m);
  }

  lemma FetchCloser(c: Config, s: South, key: (Time, MsgId), s': South, e: Effect, m: MsgId)
    requires DrainStep(c, s, Fetch(key)) == Goes(s', e) && At(s, s.retryQueue[key].msg, InRetryQueue(key))
    requires Known(c, s, m)
    ensures Closer(c, s, s', m)
  {
  }

  lemma SucceedHeadCloser(c: Config, s: South, smsc: SmscId, s': South, e: Effect, m: MsgId)
    requires DrainStep(c, s, SucceedHead(smsc)) == Goes(s', e)
    requires At(s, s.held[0].msg, AtDrainer(s.finished)) && s.held[0].retryCount <= MaxRetries(c)
    requires Known(c, s, m)
    ensures Closer(c, s, s', m)
  {
  }

  lemma DrainCloser(c: Config, s: South, op: DrainOp, s': South, e: Effect, m: MsgId)
    requires DrainStep(c, s, op) == Goes(s', e) && !op.GiveBackHead? && !op.Fetch? && !op.SucceedHead?
    requires Known(c, s, m)
    ensures Closer(c, s, s', m)
  {
  }

  lemma HeadGone(c: Config, s: South, m: MsgId)
    requires s.held != [] && m != s.held[0].msg && Known(c, s, m)
    ensures var s1 := s.(held := s.held[1..], finished := s.finished + 1, drain := Ready);
            Known(c, s1, m) && Rank(c, s1, m) == Rank(c, s, m)
  {
  }

  lemma GiveBackHeadCloser(c: Config, s: South, now: Time, s': South, e: Effect, m: MsgId)
    requires DrainStep(c, s, GiveBackHead(now)) == Goes(s', e)
    requires At(s, s.held[0].msg, AtDrainer(s.finished)) && s.held[0].retryCount <= MaxRetries(c)
    requires Known(c, s, m)
    ensures Closer(c, s, s', m)
  {
    var p := s.held[0];
    var s1 := s.(held := s.held[1..], finished := s.finished + 1, drain := Ready);
    if m != p.msg {
      HeadGone(c, s, m);
    }
    GivenBackCloser(c, s, s1, p.msg, p.conn, p.retryCount, now, s', e, m);
  }

  lemma StepCloser(c: Config, r: Registry, s: South, step: Step, s': South, e: Effect, m: MsgId)
    requires InvPlace(s) && InvRetry(c, s) && Next(c, r, s, step) == Goes(s', e) && m in s.place
    ensures Closer(c, s, s', m)
  {
    KnowsAll(c, s, m);
    match step
    case OfSubmit(x, op) =>
      if x in s.submits && !s.submits[x].Looked? {
        assert Sits(s, s.submits[x].msg, Enqueuing(x));
      }
      if op.BackOff? {
        BackOffCloser(c, r, s, x, op.now, s', e, m);
      } else {
        SubmitCloser(c, r, s, x, op, s', e, m);
      }
    case OfWorker(w, op) =>
      if w !in s.workers {
        assert Sits(s, s.channel[0].msg, InChannel(s.taken));
      } else if s.workers[w].Holding? || s.workers[w].Failing? {
        assert Sits(s, s.workers[w].task.msg, AtWorker(w));
      }
      if op.GiveBack? {
        GiveBackCloser(c, r, s, w, op.now, s', e, m);
      } else {
        WorkCloser(c, r, s, w, op, s', e, m);
      }
    case OfDrainer(op) =>
      DrainStepCloser(c, s, op, s', e, m);
    case OfCounter(add) =>
      CounterCloser(c, s, add, s', e, m);
  }

  lemma CounterCloser(c: Config, s: South, add: bool, s': South, e: Effect, m: MsgId)
    requires CounterStep(s, add) == Goes(s', e) && Known(c, s, m)
    ensures Closer(c, s, s', m)
  {
  }

  lemma DrainStepCloser(c: Config, s: South, op: DrainOp, s': South, e: Effect, m: MsgId)
    requires InvPlace(s) && InvRetry(c, s) && DrainStep(c, s, op) == Goes(s', e) && Known(c, s, m)
    ensures Closer(c, s, s', m)
  {
    if s.held != [] {
      assert Sits(s, s.held[0].msg, AtDrainer(s.finished));
      assert WithinBudget(c, s, s.held[0].msg);
    }
    if op.Fetch? {
      assert Sits(s, s.retryQueue[op.key].msg, InRetryQueue(op.key));
    }
    match op
    case Fetch(key) => FetchCloser(c, s, key, s', e, m);
    case SucceedHead(smsc) => SucceedHeadCloser(c, s, smsc, s', e, m);
    case GiveBackHead(now) => GiveBackHeadCloser(c, s, now, s', e, m);
    case _ => DrainCloser(c, s, op, s', e, m);
  }
}
