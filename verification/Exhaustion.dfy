/** A message fails only after exactly the configured number of retries (gateway/router.go). */
module Exhaustion {
  import opened Options
  import opened Sessions
  import opened Southbound
  import opened Conservation
  import opened Retrying
  import opened Gateway

  /** The step moves `m` into the durable queue. */
  predicate Requeued(before: map<MsgId, Place>, after: map<MsgId, Place>, m: MsgId) {
    m in after && after[m].InRetryQueue? && !(m in before && before[m] == after[m])
  }

  /** The step gives up a turn of `m` because no route takes it. */
  predicate Passed(s: South, step: Step, m: MsgId) {
    || (step.OfWorker? && step.workOp == Unrouted && step.w in s.workers && s.workers[step.w].task.msg == m)
    || (step.OfDrainer? && step.drainOp == UnroutedHead && s.held != [] && s.held[0].msg == m)
  }

  /** Turns used up: attempts, turns without a route, and the turn lost to a full channel. */
  ghost function Spent(s: South, m: MsgId, passed: nat): nat {
    Attempts(s, m) + passed + Behind(s, m)
  }

  /**
   * After `queued` moves into the durable queue and `passed` turns without a route: what these
   * numbers must be, by the place of the message.
   */
  ghost predicate Accounted(c: Config, s: South, m: MsgId, queued: nat, passed: nat)
    requires m in s.place
  {
    match s.place[m]
    case Enqueuing(_) => queued == 0 && passed == 0
    case InChannel(_) => queued == 0 && passed == 0
    case AtWorker(w) =>
      w in s.workers && queued == 0 && Spent(s, m, passed) == if s.workers[w].Failing? then 1 else 0
    case InRetryQueue(key) => key in s.retryQueue && queued == s.retryQueue[key].retryCount == Spent(s, m, passed)
    case AtDrainer(n) =>
      && s.finished <= n < s.finished + |s.held| && queued == s.held[n - s.finished].retryCount
      && Spent(s, m, passed) == queued + if n == s.finished && s.drain == HeadFailed then 1 else 0
    case Forwarded => Spent(s, m, passed) == queued + 1
    case Failed => queued == MaxRetries(c) && Spent(s, m, passed) == queued + 1
  }

  /** The step keeps the account of `m`. */
  ghost predicate Balanced(c: Config, s: South, step: Step, s': South, m: MsgId, queued: nat, passed: nat) {
    m in s'.place && Accounted(c, s', m, queued + (if Requeued(s.place, s'.place, m) then 1 else 0),
                               passed + (if Passed(s, step, m) then 1 else 0))
  }

  // ---- enqueueSubmitRetryOrFail ----------------------------------------------

  lemma RetryOther(c: Config, s: South, m0: MsgId, conn: ConnId, retryCount: nat, now: Time, s': South, e: Effect,
                   m: MsgId, queued: nat, passed: nat)
    requires RetryOrFail(c, s, m0, conn, retryCount, now) == Goes(s', e) && m != m0
    requires Known(c, s, m) && Accounted(c, s, m, queued, passed)
    ensures m in s'.place && !Requeued(s.place, s'.place, m) && Accounted(c, s', m, queued, passed)
  {
  }

  /** The message itself: queued once more, or failed because that was the last time. */
  lemma RetryOwn(c: Config, s: South, m: MsgId, conn: ConnId, retryCount: nat, now: Time, s': South, e: Effect,
                 passed: nat)
    requires RetryOrFail(c, s, m, conn, retryCount, now) == Goes(s', e)
    requires m in s.place && !s.place[m].InRetryQueue?
    requires retryCount <= MaxRetries(c) && Spent(s, m, passed) == retryCount + 1
    ensures m in s'.place && Accounted(c, s', m, retryCount + (if Requeued(s.place, s'.place, m) then 1 else 0), passed)
  {
  }

  // ---- HandleSubmit ----------------------------------------------------------

  lemma EnqueueBalanced(c: Config, r: Registry, s: South, x: SessionId, s': South, e: Effect, m: MsgId, queued: nat, passed: nat)
    requires SubmitStep(c, r, s, x, Enqueue) == Goes(s', e)
    requires At(s, s.submits[x].msg, Enqueuing(x)) && Known(c, s, m) && Accounted(c, s, m, queued, passed)
    ensures Balanced(c, s, OfSubmit(x, Enqueue), s', m, queued, passed)
  {
  }

  lemma RefuseBalanced(c: Config, r: Registry, s: South, x: SessionId, s': South, e: Effect, m: MsgId, queued: nat, passed: nat)
    requires SubmitStep(c, r, s, x, Refuse) == Goes(s', e)
    requires At(s, s.submits[x].msg, Enqueuing(x)) && Known(c, s, m) && Accounted(c, s, m, queued, passed)
    ensures Balanced(c, s, OfSubmit(x, Refuse), s', m, queued, passed)
  {
  }

  lemma AcceptBalanced(c: Config, r: Registry, s: South, x: SessionId, s': South, e: Effect, m: MsgId, queued: nat, passed: nat)
    requires SubmitStep(c, r, s, x, Accept) == Goes(s', e) && s.nextMsg + 1 !in s.place
    requires Known(c, s, m) && Accounted(c, s, m, queued, passed)
    ensures Balanced(c, s, OfSubmit(x, Accept), s', m, queued, passed)
  {
  }

  lemma SubmitQuiet(c: Config, r: Registry, s: South, x: SessionId, op: SubmitOp, s': South, e: Effect)
    requires SubmitStep(c, r, s, x, op) == Goes(s', e)
    requires op == Lookup || op == Reject || op == Correlate || op == Count || op == Uncount
    ensures s' == s.(submits := s'.submits, inFlight := s'.inFlight, flight := s'.flight)
  {
  }

  lemma SubmitBalanced(c: Config, s: South, x: SessionId, op: SubmitOp, s': South, m: MsgId, queued: nat, passed: nat)
    requires s' == s.(submits := s'.submits, inFlight := s'.inFlight, flight := s'.flight)
    requires m in s.place && Accounted(c, s, m, queued, passed)
    ensures Balanced(c, s, OfSubmit(x, op), s', m, queued, passed)
  {
  }

  lemma BackOffOwn(c: Config, r: Registry, s: South, x: SessionId, now: Time, s': South, e: Effect, m: MsgId, queued: nat, passed: nat)
    requires SubmitStep(c, r, s, x, BackOff(now)) == Goes(s', e) && s.submits[x].msg == m
    requires At(s, m, Enqueuing(x)) && Known(c, s, m) && Accounted(c, s, m, queued, passed)
    ensures Balanced(c, s, OfSubmit(x, BackOff(now)), s', m, queued, passed)
  {
    RetryOwn(c, s.(submits := s.submits - {x}), m, r.bound[x], 0, now, s', e, passed);
  }

  lemma SubmitGoneKnown(c: Config, s: South, x: SessionId, m: MsgId, queued: nat, passed: nat)
    requires x in s.submits && !s.submits[x].Looked? && m != s.submits[x].msg
    requires Known(c, s, m) && Accounted(c, s, m, queued, passed)
    ensures var s1 := s.(submits := s.submits - {x}); Known(c, s1, m) && Accounted(c, s1, m, queued, passed)
  {
  }

  lemma BackOffOther(c: Config, r: Registry, s: South, x: SessionId, now: Time, s': South, e: Effect, m: MsgId, queued: nat, passed: nat)
    requires SubmitStep(c, r, s, x, BackOff(now)) == Goes(s', e) && s.submits[x].msg != m
    requires Known(c, s, m) && Accounted(c, s, m, queued, passed)
    ensures Balanced(c, s, OfSubmit(x, BackOff(now)), s', m, queued, passed)
  {
    SubmitGoneKnown(c, s, x, m, queued, passed);
    RetryOther(c, s.(submits := s.submits - {x}), s.submits[x].msg, r.bound[x], 0, now, s', e, m, queued, passed);
  }

  lemma SubmitStepBalanced(c: Config, r: Registry, s: South, x: SessionId, op: SubmitOp, s': South, e: Effect, m: MsgId, queued: nat, passed: nat)
    requires InvPlace(s) && SubmitStep(c, r, s, x, op) == Goes(s', e)
    requires Known(c, s, m) && Accounted(c, s, m, queued, passed)
    ensures Balanced(c, s, OfSubmit(x, op), s', m, queued, passed)
  {
    if x in s.submits && !s.submits[x].Looked? {
      assert Sits(s, s.submits[x].msg, Enqueuing(x));
    }
    match op
    case Accept => AcceptBalanced(c, r, s, x, s', e, m, queued, passed);
    case BackOff(now) =>
      if s.submits[x].msg == m {
        BackOffOwn(c, r, s, x, now, s', e, m, queued, passed);
      } else {
        BackOffOther(c, r, s, x, now, s', e, m, queued, passed);
      }
    case Enqueue => EnqueueBalanced(c, r, s, x, s', e, m, queued, passed);
    case Refuse => RefuseBalanced(c, r, s, x, s', e, m, queued, passed);
    case _ =>
      SubmitQuiet(c, r, s, x, op, s', e);
      SubmitBalanced(c, s, x, op, s', m, queued, passed);
  }

  // ---- Workers ---------------------------------------------------------------

  lemma TakeBalanced(c: Config, r: Registry, s: South, w: WorkerId, s': South, e: Effect, m: MsgId, queued: nat, passed: nat)
    requires WorkStep(c, r, s, w, Take) == Goes(s', e) && At(s, s.channel[0].msg, InChannel(s.taken))
    requires Known(c, s, m) && Accounted(c, s, m, queued, passed)
    ensures Balanced(c, s, OfWorker(w, Take), s', m, queued, passed)
  {
  }

  lemma FailBalanced(c: Config, r: Registry, s: South, w: WorkerId, s': South, e: Effect, m: MsgId, queued: nat, passed: nat)
    requires WorkStep(c, r, s, w, Fail) == Goes(s', e) && At(s, s.workers[w].task.msg, AtWorker(w))
    requires Known(c, s, m) && Accounted(c, s, m, queued, passed)
    ensures Balanced(c, s, OfWorker(w, Fail), s', m, queued, passed)
  {
  }

  lemma SucceedBalanced(c: Config, r: Registry, s: South, w: WorkerId, smsc: SmscId, s': South, e: Effect, m: MsgId, queued: nat, passed: nat)
    requires WorkStep(c, r, s, w, Succeed(smsc)) == Goes(s', e) && At(s, s.workers[w].task.msg, AtWorker(w))
    requires Known(c, s, m) && Accounted(c, s, m, queued, passed)
    ensures Balanced(c, s, OfWorker(w, Succeed(smsc)), s', m, queued, passed)
  {
  }

  lemma UnroutedBalanced(c: Config, r: Registry, s: South, w: WorkerId, s': South, e: Effect, m: MsgId, queued: nat, passed: nat)
    requires WorkStep(c, r, s, w, Unrouted) == Goes(s', e) && At(s, s.workers[w].task.msg, AtWorker(w))
    requires Known(c, s, m) && Accounted(c, s, m, queued, passed)
    ensures Balanced(c, s, OfWorker(w, Unrouted), s', m, queued, passed)
  {
  }

  lemma GiveBackOwn(c: Config, r: Registry, s: South, w: WorkerId, now: Time, s': South, e: Effect, m: MsgId, queued: nat, passed: nat)
    requires WorkStep(c, r, s, w, GiveBack(now)) == Goes(s', e) && At(s, m, AtWorker(w)) && s.workers[w].task.msg == m
    requires Known(c, s, m) && Accounted(c, s, m, queued, passed)
    ensures Balanced(c, s, OfWorker(w, GiveBack(now)), s', m, queued, passed)
  {
    var task := s.workers[w].task;
    RetryOwn(c, s.(workers := s.workers[w := Releasing(task)]), m, IdOf(r, task.sess), 0, now, s', e, passed);
  }

  lemma ReleasedAccounted(c: Config, s: South, w: WorkerId, m: MsgId, queued: nat, passed: nat)
    requires w in s.workers && s.workers[w].Failing? && m != s.workers[w].task.msg
    requires Known(c, s, m) && Accounted(c, s, m, queued, passed)
    ensures var s1 := s.(workers := s.workers[w := Releasing(s.workers[w].task)]);
            Known(c, s1, m) && Accounted(c, s1, m, queued, passed)
  {
  }

  lemma GiveBackOther(c: Config, r: Registry, s: South, w: WorkerId, now: Time, s': South, e: Effect, m: MsgId, queued: nat, passed: nat)
    requires WorkStep(c, r, s, w, GiveBack(now)) == Goes(s', e) && s.workers[w].task.msg != m
    requires Known(c, s, m) && Accounted(c, s, m, queued, passed)
    ensures Balanced(c, s, OfWorker(w, GiveBack(now)), s', m, queued, passed)
  {
    var task := s.workers[w].task;
    ReleasedAccounted(c, s, w, m, queued, passed);
    RetryOther(c, s.(workers := s.workers[w := Releasing(task)]), task.msg, IdOf(r, task.sess), 0, now, s', e, m, queued, passed);
  }

  /** A worker that is done with its message changes no account. */
  lemma DoneBalanced(c: Config, r: Registry, s: South, w: WorkerId, op: WorkOp, s': South, e: Effect, m: MsgId, queued: nat, passed: nat)
    requires WorkStep(c, r, s, w, op) == Goes(s', e) && (op == Link || op == Persist || op == Release)
    requires Known(c, s, m) && Accounted(c, s, m, queued, passed)
    ensures Balanced(c, s, OfWorker(w, op), s', m, queued, passed)
  {
    WorkQuiet(c, r, s, w, op, s', e);
    if s.place[m].AtWorker? && s.place[m].w != w {
      assert s.place[m].w in s'.workers - {w};
      assert s'.workers[s.place[m].w] == (s.workers - {w})[s.place[m].w];
    }
  }

  lemma WorkStepBalanced(c: Config, r: Registry, s: South, w: WorkerId, op: WorkOp, s': South, e: Effect, m: MsgId, queued: nat, passed: nat)
    requires InvPlace(s) && WorkStep(c, r, s, w, op) == Goes(s', e)
    requires Known(c, s, m) && Accounted(c, s, m, queued, passed)
    ensures Balanced(c, s, OfWorker(w, op), s', m, queued, passed)
  {
    if w !in s.workers {
      assert Sits(s, s.channel[0].msg, InChannel(s.taken));
    } else if s.workers[w].Holding? || s.workers[w].Failing? {
      assert Sits(s, s.workers[w].task.msg, AtWorker(w));
    }
    match op
    case Take => TakeBalanced(c, r, s, w, s', e, m, queued, passed);
    case Fail => FailBalanced(c, r, s, w, s', e, m, queued, passed);
    case Succeed(smsc) => SucceedBalanced(c, r, s, w, smsc, s', e, m, queued, passed);
    case Unrouted => UnroutedBalanced(c, r, s, w, s', e, m, queued, passed);
    case GiveBack(now) =>
      if s.workers[w].task.msg == m {
        GiveBackOwn(c, r, s, w, now, s', e, m, queued, passed);
      } else {
        GiveBackOther(c, r, s, w, now, s', e, m, queued, passed);
      }
    case _ => DoneBalanced(c, r, s, w, op, s', e, m, queued, passed);
  }

  // ---- The drainer -----------------------------------------------------------

  lemma FetchBalanced(c: Config, s: South, key: (Time, MsgId), s': South, e: Effect, m: MsgId, queued: nat, passed: nat)
    requires DrainStep(c, s, Fetch(key)) == Goes(s', e) && At(s, s.retryQueue[key].msg, InRetryQueue(key))
    requires s.drain == HeadFailed ==> s.held != []
    requires Known(c, s, m) && Accounted(c, s, m, queued, passed)
    ensures Balanced(c, s, OfDrainer(Fetch(key)), s', m, queued, passed)
  {
  }

  lemma TurnBalanced(c: Config, s: South, op: DrainOp, s': South, e: Effect, m: MsgId, queued: nat, passed: nat)
    requires DrainStep(c, s, op) == Goes(s', e) && (op == UnroutedHead || op == FailHead)
    requires At(s, s.held[0].msg, AtDrainer(s.finished))
    requires Known(c, s, m) && Accounted(c, s, m, queued, passed)
    ensures Balanced(c, s, OfDrainer(op), s', m, queued, passed)
  {
  }

  lemma SucceedHeadBalanced(c: Config, s: South, smsc: SmscId, s': South, e: Effect, m: MsgId, queued: nat, passed: nat)
    requires DrainStep(c, s, SucceedHead(smsc)) == Goes(s', e) && At(s, s.held[0].msg, AtDrainer(s.finished))
    requires Known(c, s, m) && Accounted(c, s, m, queued, passed)
    ensures Balanced(c, s, OfDrainer(SucceedHead(smsc)), s', m, queued, passed)
  {
  }

  lemma HeadDoneBalanced(c: Config, s: South, op: DrainOp, s': South, e: Effect, m: MsgId, queued: nat, passed: nat)
    requires DrainStep(c, s, op) == Goes(s', e) && (op == LinkHead || op == PersistHead)
    requires Known(c, s, m) && Accounted(c, s, m, queued, passed)
    ensures Balanced(c, s, OfDrainer(op), s', m, queued, passed)
  {
  }

  lemma HeadGoneAccounted(c: Config, s: South, m: MsgId, queued: nat, passed: nat)
    requires s.held != [] && m != s.held[0].msg && Known(c, s, m) && Accounted(c, s, m, queued, passed)
    requires s.drain == HeadFailed
    ensures var s1 := s.(held := s.held[1..], finished := s.finished + 1, drain := Ready);
            Known(c, s1, m) && Accounted(c, s1, m, queued, passed)
  {
  }

  lemma GiveBackHeadOwn(c: Config, s: South, now: Time, s': South, e: Effect, m: MsgId, queued: nat, passed: nat)
    requires DrainStep(c, s, GiveBackHead(now)) == Goes(s', e)
    requires At(s, m, AtDrainer(s.finished)) && s.held[0].msg == m && s.held[0].retryCount <= MaxRetries(c)
    requires Accounted(c, s, m, queued, passed)
    ensures Balanced(c, s, OfDrainer(GiveBackHead(now)), s', m, queued, passed)
  {
    var p := s.held[0];
    RetryOwn(c, s.(held := s.held[1..], finished := s.finished + 1, drain := Ready), m, p.conn, p.retryCount, now, s', e, passed);
  }

  lemma GiveBackHeadOther(c: Config, s: South, now: Time, s': South, e: Effect, m: MsgId, queued: nat, passed: nat)
    requires DrainStep(c, s, GiveBackHead(now)) == Goes(s', e) && s.held[0].msg != m
    requires Known(c, s, m) && Accounted(c, s, m, queued, passed)
    ensures Balanced(c, s, OfDrainer(GiveBackHead(now)), s', m, queued, passed)
  {
    var p := s.held[0];
    HeadGoneAccounted(c, s, m, queued, passed);
    RetryOther(c, s.(held := s.held[1..], finished := s.finished + 1, drain := Ready), p.msg, p.conn, p.retryCount,
               now, s', e, m, queued, passed);
  }

  lemma DrainStepBalanced(c: Config, s: South, op: DrainOp, s': South, e: Effect, m: MsgId, queued: nat, passed: nat)
    requires InvPlace(s) && InvRetry(c, s) && DrainStep(c, s, op) == Goes(s', e)
    requires Known(c, s, m) && Accounted(c, s, m, queued, passed)
    ensures Balanced(c, s, OfDrainer(op), s', m, queued, passed)
  {
    if s.held != [] {
      assert Sits(s, s.held[0].msg, AtDrainer(s.finished));
      assert WithinBudget(c, s, s.held[0].msg);
    }
    match op
    case Fetch(key) =>
      assert Sits(s, s.retryQueue[key].msg, InRetryQueue(key));
      FetchBalanced(c, s, key, s', e, m, queued, passed);
    case SucceedHead(smsc) => SucceedHeadBalanced(c, s, smsc, s', e, m, queued, passed);
    case GiveBackHead(now) =>
      if s.held[0].msg == m {
        GiveBackHeadOwn(c, s, now, s', e, m, queued, passed);
      } else {
        GiveBackHeadOther(c, s, now, s', e, m, queued, passed);
      }
    case UnroutedHead => TurnBalanced(c, s, op, s', e, m, queued, passed);
    case FailHead => TurnBalanced(c, s, op, s', e, m, queued, passed);
    case _ => HeadDoneBalanced(c, s, op, s', e, m, queued, passed);
  }

  lemma CounterBalanced(c: Config, s: South, add: bool, s': South, e: Effect, m: MsgId, queued: nat, passed: nat)
    requires CounterStep(s, add) == Goes(s', e) && Known(c, s, m) && Accounted(c, s, m, queued, passed)
    ensures Balanced(c, s, OfCounter(add), s', m, queued, passed)
  {
    CounterFrame(s, add, s', e);
  }

  /** Every southbound step keeps the account of every message. */
  lemma StepBalanced(c: Config, r: Registry, s: South, step: Step, s': South, e: Effect, m: MsgId, queued: nat, passed: nat)
    requires InvPlace(s) && InvRetry(c, s) && Next(c, r, s, step) == Goes(s', e)
    requires m in s.place && Accounted(c, s, m, queued, passed)
    ensures Balanced(c, s, step, s', m, queued, passed)
  {
    KnowsAll(c, s, m);
    match step
    case OfSubmit(x, op) => SubmitStepBalanced(c, r, s, x, op, s', e, m, queued, passed);
    case OfWorker(w, op) => WorkStepBalanced(c, r, s, w, op, s', e, m, queued, passed);
    case OfDrainer(op) => DrainStepBalanced(c, s, op, s', e, m, queued, passed);
    case OfCounter(add) => CounterBalanced(c, s, add, s', e, m, queued, passed);
  }

  // ---- Runs ------------------------------------------------------------------

  /** How often the steps of a run moved `m` into the durable queue. */
  function TimesQueued(c: Config, steps: seq<GatewayStep>, m: MsgId): nat {
    if steps == [] then 0
    else
      var n := |steps| - 1;
      var g, g' := Run(c, steps[..n]), Run(c, steps);
      TimesQueued(c, steps[..n], m) +
      (if g.Some? && g'.Some? && Requeued(g.value.south.place, g'.value.south.place, m) then 1 else 0)
  }

  /** How often no route took `m` when its turn came. */
  function TimesPassed(c: Config, steps: seq<GatewayStep>, m: MsgId): nat {
    if steps == [] then 0
    else
      var n := |steps| - 1;
      var g := Run(c, steps[..n]);
      TimesPassed(c, steps[..n], m) +
      (if g.Some? && steps[n].GoSouth? && Passed(g.value.south, steps[n].step, m) then 1 else 0)
  }

  /** A message that has no place yet starts its account empty. */
  lemma NewAccounted(c: Config, r: Registry, s: South, step: Step, s': South, e: Effect, m: MsgId)
    requires InvPlace(s) && Next(c, r, s, step) == Goes(s', e) && m !in s.place
    ensures !Requeued(s.place, s'.place, m) && !Passed(s, step, m)
    ensures m in s'.place ==> Accounted(c, s', m, 0, 0)
  {
    if m != Subject(s, step) {
      OthersUntouched(c, r, s, step, s', e, m);
    } else {
      SubjectKnown(c, r, s, step, s', e);
    }
    if step.OfSubmit? && step.submitOp == Accept {
      AcceptPlaces(c, r, s, step.x, s', e);
    }
    NotPassed(s, step, m, c, r, s', e);
  }

  lemma AcceptPlaces(c: Config, r: Registry, s: South, x: SessionId, s': South, e: Effect)
    requires SubmitStep(c, r, s, x, Accept) == Goes(s', e)
    ensures s'.place == s.place[s.nextMsg + 1 := Enqueuing(x)]
  {
  }

  lemma NotPassed(s: South, step: Step, m: MsgId, c: Config, r: Registry, s': South, e: Effect)
    requires InvPlace(s) && Next(c, r, s, step) == Goes(s', e) && m !in s.place
    ensures !Passed(s, step, m)
  {
    if step.OfWorker? && step.workOp == Unrouted && step.w in s.workers {
      SitsPlaced(s, s.workers[step.w].task.msg, AtWorker(step.w));
    }
    if s.held != [] {
      SitsPlaced(s, s.held[0].msg, AtDrainer(s.finished));
    }
  }

  /** The account of `m`, for messages that are not accepted yet too. */
  ghost predicate Account(c: Config, s: South, m: MsgId, queued: nat, passed: nat) {
    if m in s.place then Accounted(c, s, m, queued, passed) else queued == 0 && passed == 0
  }

  lemma SouthAccount(c: Config, r: Registry, s: South, step: Step, s': South, e: Effect, m: MsgId, queued: nat, passed: nat)
    requires InvPlace(s) && InvRetry(c, s) && Next(c, r, s, step) == Goes(s', e) && Account(c, s, m, queued, passed)
    ensures Account(c, s', m, queued + (if Requeued(s.place, s'.place, m) then 1 else 0),
                    passed + (if Passed(s, step, m) then 1 else 0))
  {
    if m in s.place {
      StepBalanced(c, r, s, step, s', e, m, queued, passed);
    } else {
      NewAccounted(c, r, s, step, s', e, m);
    }
  }

  lemma StepAccount(c: Config, g: State, step: GatewayStep, g': State, m: MsgId, queued: nat, passed: nat)
    requires Inv(c, g) && Advance(c, g, step) == Some(g') && Account(c, g.south, m, queued, passed)
    ensures Account(c, g'.south, m, queued + (if Requeued(g.south.place, g'.south.place, m) then 1 else 0),
                    passed + (if step.GoSouth? && Passed(g.south, step.step, m) then 1 else 0))
  {
    if step.GoSouth? {
      var o := Next(c, g.reg, g.south, step.step);
      SouthAccount(c, g.reg, g.south, step.step, o.south, o.effect, m, queued, passed);
    } else {
      SouthUntouched(c, g, step, g');
    }
  }

  lemma SouthUntouched(c: Config, g: State, step: GatewayStep, g': State)
    requires Advance(c, g, step) == Some(g') && !step.GoSouth?
    ensures g'.south == g.south
  {
  }

  /** After every run the account of every message is right. */
  lemma {:induction false} RunAccounted(c: Config, steps: seq<GatewayStep>, g: State, m: MsgId)
    requires Run(c, steps) == Some(g)
    ensures Account(c, g.south, m, TimesQueued(c, steps, m), TimesPassed(c, steps, m))
  {
    if steps != [] {
      var n := |steps| - 1;
      var b := Run(c, steps[..n]).value;
      RunAccounted(c, steps[..n], b, m);
      RunKeepsInv(c, steps[..n]);
      StepAccount(c, b, steps[n], g, m, TimesQueued(c, steps[..n], m), TimesPassed(c, steps[..n], m));
    }
  }

  /**
   * Retries are exhausted: a message that has failed was put into the durable queue exactly as often
   * as configured, and every one of its turns was an attempt, had no route, or was lost to a full channel.
   */
  lemma FailedIsExhausted(c: Config, steps: seq<GatewayStep>, g: State, m: MsgId)
    requires Run(c, steps) == Some(g) && Sits(g.south, m, Failed)
    ensures var retries := if c.maxSubmitRetries > 0 then c.maxSubmitRetries else 0;
      && TimesQueued(c, steps, m) == retries
      && Attempts(g.south, m) + TimesPassed(c, steps, m) + (if m in g.south.overflow then 1 else 0) == retries + 1
  {
    RunKeepsInv(c, steps);
    assert At(g.south, m, Failed);
    RunAccounted(c, steps, g, m);
  }

  predicate IsUnrouted(step: GatewayStep) {
    step.GoSouth? && ((step.step.OfWorker? && step.step.workOp == Unrouted) ||
                      (step.step.OfDrainer? && step.step.drainOp == UnroutedHead))
  }

  lemma {:induction false} NeverPassed(c: Config, steps: seq<GatewayStep>, m: MsgId)
    requires forall i :: 0 <= i < |steps| ==> !IsUnrouted(steps[i])
    ensures TimesPassed(c, steps, m) == 0
  {
    if steps != [] {
      NeverPassed(c, steps[..|steps| - 1], m);
    }
  }

  /** When every turn finds a route, that is one attempt more than the retries, one less after a full channel. */
  lemma FailedAttemptsExact(c: Config, steps: seq<GatewayStep>, g: State, m: MsgId)
    requires Run(c, steps) == Some(g) && Sits(g.south, m, Failed)
    requires forall i :: 0 <= i < |steps| ==> !IsUnrouted(steps[i])
    ensures var retries := if c.maxSubmitRetries > 0 then c.maxSubmitRetries else 0;
      Attempts(g.south, m) == if m in g.south.overflow then retries else retries + 1
  {
    FailedIsExhausted(c, steps, g, m);
    NeverPassed(c, steps, m);
  }

  /** A forwarded message took one turn more than it was queued. */
  lemma ForwardedTurns(c: Config, steps: seq<GatewayStep>, g: State, m: MsgId)
    requires Run(c, steps) == Some(g) && Sits(g.south, m, Forwarded)
    ensures Attempts(g.south, m) + TimesPassed(c, steps, m) + (if m in g.south.overflow then 1 else 0) ==
            TimesQueued(c, steps, m) + 1
  {
    RunKeepsInv(c, steps);
    assert At(g.south, m, Forwarded);
    RunAccounted(c, steps, g, m);
  }
}
