/** Conservation: every accepted message is in exactly one place (gateway/router.go). */
module Conservation {
  import opened Options
  import opened Sessions
  import opened Southbound

  /** Message `m` is found at `p`, by looking at the queues, the goroutines and the log. */
  ghost predicate Sits(s: South, m: MsgId, p: Place) {
    match p
    case Enqueuing(x) => x in s.submits && !s.submits[x].Looked? && s.submits[x].msg == m
    case InChannel(n) => s.taken <= n < s.taken + |s.channel| && s.channel[n - s.taken].msg == m
    case AtWorker(w) => w in s.workers && (s.workers[w].Holding? || s.workers[w].Failing?) && s.workers[w].task.msg == m
    case InRetryQueue(key) => key in s.retryQueue && s.retryQueue[key].msg == m
    case AtDrainer(n) => s.finished <= n < s.finished + |s.held| && s.held[n - s.finished].msg == m
    case Forwarded => Attempt(m, true) in s.log
    case Failed => Synthetic(m) in s.log
  }

  ghost predicate At(s: South, m: MsgId, p: Place) {
    m in s.place && s.place[m] == p
  }

  /** Queue keys end in the ID of the message stored under them. */
  ghost predicate KeysMatch(s: South) {
    forall key :: key in s.retryQueue ==> s.retryQueue[key].msg == key.1
  }

  /** Exactly the accepted messages have a place, and they sit there and nowhere else. */
  ghost predicate InvPlace(s: South) {
    && KeysMatch(s)
    && (forall m :: m in s.place <==> 1 <= m <= s.nextMsg)
    && (forall m, p :: Sits(s, m, p) <==> At(s, m, p))
  }

  /** What a step has to show: it moves at most message `m0`, and that one to `p1`. */
  lemma Moved(s: South, s': South, m0: MsgId, p1: Place)
    requires InvPlace(s) && KeysMatch(s') && s'.place == s.place[m0 := p1]
    requires s'.nextMsg == (if m0 == s.nextMsg + 1 then m0 else s.nextMsg) && 1 <= m0 <= s'.nextMsg
    requires forall m, p :: m != m0 ==> Sits(s', m, p) == Sits(s, m, p)
    requires forall p :: Sits(s', m0, p) == (p == p1)
    ensures InvPlace(s')
  {
    forall m, p ensures Sits(s', m, p) <==> At(s', m, p) {
      assert Sits(s, m, p) <==> At(s, m, p);
    }
  }

  lemma Unmoved(s: South, s': South)
    requires InvPlace(s) && KeysMatch(s') && s'.place == s.place && s'.nextMsg == s.nextMsg
    requires forall m, p :: Sits(s', m, p) == Sits(s, m, p)
    ensures InvPlace(s')
  {
  }

  // ---- HandleSubmit ----------------------------------------------------------

  /** The message that `HandleSubmit` is enqueuing in session `x`. */
  ghost function EnqueuingAt(s: South, x: SessionId): Option<MsgId> {
    if x in s.submits && !s.submits[x].Looked? then Some(s.submits[x].msg) else None
  }

  lemma SameSits(s: South, s': South, x: SessionId, m: MsgId, p: Place)
    requires s'.channel == s.channel && s'.taken == s.taken && s'.workers == s.workers
    requires s'.retryQueue == s.retryQueue && s'.held == s.held && s'.finished == s.finished && s'.log == s.log
    requires s'.submits - {x} == s.submits - {x} && EnqueuingAt(s', x) == EnqueuingAt(s, x)
    ensures Sits(s', m, p) == Sits(s, m, p)
  {
    if p.Enqueuing? && p.x != x {
      assert p.x in s'.submits - {x} <==> p.x in s.submits - {x};
      assert p.x in s'.submits ==> (s'.submits - {x})[p.x] == (s.submits - {x})[p.x];
    }
  }

  lemma SubmitStays(c: Config, r: Registry, s: South, x: SessionId, op: SubmitOp, s': South, e: Effect)
    requires InvPlace(s) && SubmitStep(c, r, s, x, op) == Goes(s', e)
    requires !op.Accept? && !op.Enqueue? && !op.BackOff?
    ensures InvPlace(s')
  {
    SubmitStaysAt(c, r, s, x, op, s', e);
    forall m, p ensures Sits(s', m, p) == Sits(s, m, p) {
      SameSits(s, s', x, m, p);
    }
    Unmoved(s, s');
  }

  lemma SubmitStaysAt(c: Config, r: Registry, s: South, x: SessionId, op: SubmitOp, s': South, e: Effect)
    requires SubmitStep(c, r, s, x, op) == Goes(s', e)
    requires !op.Accept? && !op.Enqueue? && !op.BackOff?
    ensures s'.channel == s.channel && s'.taken == s.taken && s'.workers == s.workers
    ensures s'.retryQueue == s.retryQueue && s'.held == s.held && s'.finished == s.finished && s'.log == s.log
    ensures s'.submits - {x} == s.submits - {x} && EnqueuingAt(s', x) == EnqueuingAt(s, x)
    ensures s'.place == s.place && s'.nextMsg == s.nextMsg
  {
  }

  lemma AcceptMoves(c: Config, r: Registry, s: South, x: SessionId, s': South, e: Effect)
    requires InvPlace(s) && SubmitStep(c, r, s, x, Accept) == Goes(s', e)
    ensures InvPlace(s')
  {
    var m0 := s.nextMsg + 1;
    forall p ensures Sits(s', m0, p) == (p == Enqueuing(x)) {
      assert Sits(s, m0, p) <==> At(s, m0, p);
    }
    Moved(s, s', m0, Enqueuing(x));
  }

  lemma EnqueueMoves(c: Config, r: Registry, s: South, x: SessionId, s': South, e: Effect)
    requires InvPlace(s) && SubmitStep(c, r, s, x, Enqueue) == Goes(s', e)
    ensures InvPlace(s')
  {
    var m0 := s.submits[x].msg;
    assert Sits(s, m0, Enqueuing(x));
    var p1 := InChannel(s.taken + |s.channel|);
    forall p ensures Sits(s', m0, p) == (p == p1) {
      assert Sits(s, m0, p) <==> At(s, m0, p);
    }
    Moved(s, s', m0, p1);
  }

  // ---- enqueueSubmitRetryOrFail ----------------------------------------------

  /** `m0` has just been taken out of its place and is nowhere. */
  ghost predicate Loose(s: South, m0: MsgId) {
    && KeysMatch(s)
    && 1 <= m0 <= s.nextMsg
    && (forall m :: m in s.place <==> 1 <= m <= s.nextMsg)
    && (forall p :: !Sits(s, m0, p))
    && (forall m, p :: m != m0 ==> (Sits(s, m, p) <==> At(s, m, p)))
  }

  lemma RetryPlaces(c: Config, s: South, m0: MsgId, conn: ConnId, retryCount: nat, now: Time, s': South, e: Effect)
    requires Loose(s, m0) && RetryOrFail(c, s, m0, conn, retryCount, now) == Goes(s', e) && Retries(c, retryCount)
    ensures InvPlace(s') && (now, m0) !in s.retryQueue
  {
    assert !Sits(s, m0, InRetryQueue((now, m0)));
    forall m, p ensures Sits(s', m, p) <==> At(s', m, p) {
      if m == m0 {
        assert !Sits(s, m0, p);
      } else {
        assert Sits(s, m, p) <==> At(s, m, p);
      }
    }
  }

  lemma FailPlaces(c: Config, s: South, m0: MsgId, conn: ConnId, retryCount: nat, now: Time, s': South, e: Effect)
    requires Loose(s, m0) && RetryOrFail(c, s, m0, conn, retryCount, now) == Goes(s', e) && !Retries(c, retryCount)
    ensures InvPlace(s')
  {
    forall m, p ensures Sits(s', m, p) <==> At(s', m, p) {
      if m == m0 {
        assert !Sits(s, m0, p);
      } else {
        assert Sits(s, m, p) <==> At(s, m, p);
      }
    }
  }

  /** A message that is nowhere is put into exactly one place; no queue entry is overwritten. */
  lemma RetryOrFailPlaces(c: Config, s: South, m0: MsgId, conn: ConnId, retryCount: nat, now: Time, s': South, e: Effect)
    requires Loose(s, m0) && RetryOrFail(c, s, m0, conn, retryCount, now) == Goes(s', e)
    ensures InvPlace(s')
    ensures Retries(c, retryCount) ==> (now, m0) !in s.retryQueue
  {
    if Retries(c, retryCount) {
      RetryPlaces(c, s, m0, conn, retryCount, now, s', e);
    } else {
      FailPlaces(c, s, m0, conn, retryCount, now, s', e);
    }
  }

  lemma BackOffMoves(c: Config, r: Registry, s: South, x: SessionId, now: Time, s': South, e: Effect)
    requires InvPlace(s) && SubmitStep(c, r, s, x, BackOff(now)) == Goes(s', e)
    ensures InvPlace(s')
  {
    var m0 := s.submits[x].msg;
    var s1 := s.(submits := s.submits - {x});
    assert Sits(s, m0, Enqueuing(x));
    forall m, p ensures m != m0 ==> (Sits(s1, m, p) <==> At(s1, m, p)) {
      assert Sits(s, m, p) <==> At(s, m, p);
    }
    forall p ensures !Sits(s1, m0, p) {
      assert Sits(s, m0, p) <==> At(s, m0, p);
    }
    RetryOrFailPlaces(c, s1, m0, r.bound[x], 0, now, s', e);
  }

  // ---- Workers ---------------------------------------------------------------

  lemma TakeMoves(c: Config, r: Registry, s: South, w: WorkerId, s': South, e: Effect)
    requires InvPlace(s) && WorkStep(c, r, s, w, Take) == Goes(s', e)
    ensures InvPlace(s')
  {
    var m0 := s.channel[0].msg;
    assert Sits(s, m0, InChannel(s.taken));
    forall p ensures Sits(s', m0, p) == (p == AtWorker(w)) {
      assert Sits(s, m0, p) <==> At(s, m0, p);
    }
    Moved(s, s', m0, AtWorker(w));
  }

  lemma SucceedMoves(c: Config, r: Registry, s: South, w: WorkerId, smsc: SmscId, s': South, e: Effect)
    requires InvPlace(s) && WorkStep(c, r, s, w, Succeed(smsc)) == Goes(s', e)
    ensures InvPlace(s')
  {
    var m0 := s.workers[w].task.msg;
    assert Sits(s, m0, AtWorker(w));
    forall p ensures Sits(s', m0, p) == (p == Forwarded) {
      assert Sits(s, m0, p) <==> At(s, m0, p);
    }
    Moved(s, s', m0, Forwarded);
  }

  lemma GiveBackMoves(c: Config, r: Registry, s: South, w: WorkerId, now: Time, s': South, e: Effect)
    requires InvPlace(s) && WorkStep(c, r, s, w, GiveBack(now)) == Goes(s', e)
    ensures InvPlace(s')
  {
    var task := s.workers[w].task;
    var m0 := task.msg;
    var s1 := s.(workers := s.workers[w := Releasing(task)]);
    assert Sits(s, m0, AtWorker(w));
    forall m, p ensures m != m0 ==> (Sits(s1, m, p) <==> At(s1, m, p)) {
      assert Sits(s, m, p) <==> At(s, m, p);
    }
    forall p ensures !Sits(s1, m0, p) {
      assert Sits(s, m0, p) <==> At(s, m0, p);
    }
    RetryOrFailPlaces(c, s1, m0, IdOf(r, task.sess), 0, now, s', e);
  }

  lemma WorkStays(c: Config, r: Registry, s: South, w: WorkerId, op: WorkOp, s': South, e: Effect)
    requires InvPlace(s) && WorkStep(c, r, s, w, op) == Goes(s', e)
    requires !op.Take? && !op.Succeed? && !op.GiveBack?
    ensures InvPlace(s')
  {
    Unmoved(s, s');
  }

  // ---- The drainer -----------------------------------------------------------

  lemma FetchMoves(c: Config, s: South, key: (Time, MsgId), s': South, e: Effect)
    requires InvPlace(s) && DrainStep(c, s, Fetch(key)) == Goes(s', e)
    ensures InvPlace(s')
  {
    var m0 := s.retryQueue[key].msg;
    var p1 := AtDrainer(s.finished + |s.held|);
    assert Sits(s, m0, InRetryQueue(key));
    forall p ensures Sits(s', m0, p) == (p == p1) {
      assert Sits(s, m0, p) <==> At(s, m0, p);
    }
    Moved(s, s', m0, p1);
  }

  lemma SucceedHeadMoves(c: Config, s: South, smsc: SmscId, s': South, e: Effect)
    requires InvPlace(s) && DrainStep(c, s, SucceedHead(smsc)) == Goes(s', e)
    ensures InvPlace(s')
  {
    var m0 := s.held[0].msg;
    assert Sits(s, m0, AtDrainer(s.finished));
    forall p ensures Sits(s', m0, p) == (p == Forwarded) {
      assert Sits(s, m0, p) <==> At(s, m0, p);
    }
    Moved(s, s', m0, Forwarded);
  }

  lemma GiveBackHeadMoves(c: Config, s: South, now: Time, s': South, e: Effect)
    requires InvPlace(s) && DrainStep(c, s, GiveBackHead(now)) == Goes(s', e)
    ensures InvPlace(s')
  {
    var h := s.held[0];
    var m0 := h.msg;
    var s1 := s.(held := s.held[1..], finished := s.finished + 1, drain := Ready);
    assert Sits(s, m0, AtDrainer(s.finished));
    forall m, p ensures m != m0 ==> (Sits(s1, m, p) <==> At(s1, m, p)) {
      assert Sits(s, m, p) <==> At(s, m, p);
    }
    forall p ensures !Sits(s1, m0, p) {
      assert Sits(s, m0, p) <==> At(s, m0, p);
    }
    RetryOrFailPlaces(c, s1, m0, h.conn, h.retryCount, now, s', e);
  }

  lemma DrainStays(c: Config, s: South, op: DrainOp, s': South, e: Effect)
    requires InvPlace(s) && DrainStep(c, s, op) == Goes(s', e)
    requires !op.Fetch? && !op.SucceedHead? && !op.GiveBackHead?
    ensures InvPlace(s')
  {
    Unmoved(s, s');
  }

  // ---- Every step ------------------------------------------------------------

  /** A counter update touches nothing but the counter and what is owed to it. */
  lemma CounterFrame(s: South, add: bool, s': South, e: Effect)
    requires CounterStep(s, add) == Goes(s', e)
    ensures s' == s.(retryCounter := s'.retryCounter, adding := s'.adding, removing := s'.removing) && e == Nothing
    ensures s'.retryCounter + s'.adding - s'.removing == s.retryCounter + s.adding - s.removing
  {
  }

  lemma CounterStays(s: South, add: bool, s': South, e: Effect)
    requires InvPlace(s) && CounterStep(s, add) == Goes(s', e)
    ensures InvPlace(s')
  {
    forall m, p ensures Sits(s', m, p) == Sits(s, m, p) {
      SameSits(s, s', 0, m, p);
    }
    Unmoved(s, s');
  }

  lemma StepKeepsPlaces(c: Config, r: Registry, s: South, step: Step, s': South, e: Effect)
    requires InvPlace(s) && Next(c, r, s, step) == Goes(s', e)
    ensures InvPlace(s')
  {
    match step
    case OfSubmit(x, op) =>
      match op {
        case Accept => AcceptMoves(c, r, s, x, s', e);
        case Enqueue => EnqueueMoves(c, r, s, x, s', e);
        case BackOff(now) => BackOffMoves(c, r, s, x, now, s', e);
        case _ => SubmitStays(c, r, s, x, op, s', e);
      }
    case OfWorker(w, op) =>
      match op {
        case Take => TakeMoves(c, r, s, w, s', e);
        case Succeed(smsc) => SucceedMoves(c, r, s, w, smsc, s', e);
        case GiveBack(now) => GiveBackMoves(c, r, s, w, now, s', e);
        case _ => WorkStays(c, r, s, w, op, s', e);
      }
    case OfDrainer(op) =>
      match op {
        case Fetch(key) => FetchMoves(c, s, key, s', e);
        case SucceedHead(smsc) => SucceedHeadMoves(c, s, smsc, s', e);
        case GiveBackHead(now) => GiveBackHeadMoves(c, s, now, s', e);
        case _ => DrainStays(c, s, op, s', e);
      }
    case OfCounter(add) => CounterStays(s, add, s', e);
  }

  // ---- A step is about one message -------------------------------------------

  /** The message a step is about; 0 when it is about none. */
  ghost function Subject(s: South, step: Step): MsgId {
    match step
    case OfSubmit(x, op) =>
      if op == Accept then s.nextMsg + 1
      else if x in s.submits && !s.submits[x].Looked? then s.submits[x].msg else 0
    case OfWorker(w, op) =>
      if w in s.workers then s.workers[w].task.msg else if s.channel != [] then s.channel[0].msg else 0
    case OfDrainer(op) =>
      if op.Fetch? then (if op.key in s.retryQueue then s.retryQueue[op.key].msg else 0)
      else if s.held != [] then s.held[0].msg else 0
    case OfCounter(_) => 0
  }

  /** Nothing about `m` is recorded differently. */
  ghost predicate Same(s: South, s': South, m: MsgId) {
    && (m in s'.place <==> m in s.place)
    && (m in s.place ==> s'.place[m] == s.place[m])
    && (m in s'.overflow <==> m in s.overflow)
    && (forall ok :: s'.log[Attempt(m, ok)] == s.log[Attempt(m, ok)])
    && s'.log[Synthetic(m)] == s.log[Synthetic(m)]
  }

  lemma OthersUntouched(c: Config, r: Registry, s: South, step: Step, s': South, e: Effect, m: MsgId)
    requires Next(c, r, s, step) == Goes(s', e) && m != Subject(s, step)
    ensures Same(s, s', m)
  {
    match step
    case OfSubmit(x, op) => SubmitOthersUntouched(c, r, s, x, op, s', e, m);
    case OfWorker(w, op) => WorkOthersUntouched(c, r, s, w, op, s', e, m);
    case OfDrainer(op) => DrainOthersUntouched(c, r, s, op, s', e, m);
    case OfCounter(add) => CounterFrame(s, add, s', e);
  }

  lemma SubmitOthersUntouched(c: Config, r: Registry, s: South, x: SessionId, op: SubmitOp, s': South, e: Effect, m: MsgId)
    requires SubmitStep(c, r, s, x, op) == Goes(s', e) && m != Subject(s, OfSubmit(x, op))
    ensures Same(s, s', m)
  {
  }

  lemma WorkOthersUntouched(c: Config, r: Registry, s: South, w: WorkerId, op: WorkOp, s': South, e: Effect, m: MsgId)
    requires WorkStep(c, r, s, w, op) == Goes(s', e) && m != Subject(s, OfWorker(w, op))
    ensures Same(s, s', m)
  {
  }

  lemma RetryOthersUntouched(c: Config, s: South, msg: MsgId, conn: ConnId, retryCount: nat, now: Time, s': South, e: Effect, m: MsgId)
    requires RetryOrFail(c, s, msg, conn, retryCount, now) == Goes(s', e) && m != msg
    ensures Same(s, s', m)
  {
  }

  lemma DrainOthersUntouched(c: Config, r: Registry, s: South, op: DrainOp, s': South, e: Effect, m: MsgId)
    requires DrainStep(c, s, op) == Goes(s', e) && m != Subject(s, OfDrainer(op))
    ensures Same(s, s', m)
  {
    if op.GiveBackHead? {
      var p := s.held[0];
      var loose := s.(held := s.held[1..], finished := s.finished + 1, drain := Ready);
      RetryOthersUntouched(c, loose, p.msg, p.conn, p.retryCount, op.now, s', e, m);
    }
  }

  lemma SitsPlaced(s: South, m: MsgId, p: Place)
    requires InvPlace(s) && Sits(s, m, p)
    ensures m in s.place
  {
    assert At(s, m, p);
  }

  /** The step is about a message that has a place, or records nothing. */
  ghost predicate AboutKnown(s: South, step: Step, s': South) {
    || Subject(s, step) in s.place
    || (step.OfSubmit? && step.submitOp == Accept)
    || (s'.place == s.place && s'.log == s.log && s'.overflow == s.overflow)
  }

  lemma SubmitKnown(c: Config, r: Registry, s: South, x: SessionId, op: SubmitOp, s': South, e: Effect)
    requires SubmitStep(c, r, s, x, op) == Goes(s', e)
    requires x in s.submits && !s.submits[x].Looked? ==> s.submits[x].msg in s.place
    ensures AboutKnown(s, OfSubmit(x, op), s')
  {
  }

  lemma WorkKnown(c: Config, r: Registry, s: South, w: WorkerId, op: WorkOp, s': South, e: Effect)
    requires WorkStep(c, r, s, w, op) == Goes(s', e)
    requires w !in s.workers ==> s.channel != [] && s.channel[0].msg in s.place
    requires w in s.workers && (s.workers[w].Holding? || s.workers[w].Failing?) ==> s.workers[w].task.msg in s.place
    ensures AboutKnown(s, OfWorker(w, op), s')
  {
  }

  lemma DrainKnown(c: Config, s: South, op: DrainOp, s': South, e: Effect)
    requires DrainStep(c, s, op) == Goes(s', e)
    requires s.held != [] ==> s.held[0].msg in s.place
    requires op.Fetch? ==> op.key in s.retryQueue && s.retryQueue[op.key].msg in s.place
    ensures AboutKnown(s, OfDrainer(op), s')
  {
  }

  /** A step that records anything, other than acceptance, is about a message that has a place. */
  lemma SubjectKnown(c: Config, r: Registry, s: South, step: Step, s': South, e: Effect)
    requires InvPlace(s) && Next(c, r, s, step) == Goes(s', e)
    ensures AboutKnown(s, step, s')
  {
    match step
    case OfSubmit(x, op) =>
      if x in s.submits && !s.submits[x].Looked? {
        SitsPlaced(s, s.submits[x].msg, Enqueuing(x));
      }
      SubmitKnown(c, r, s, x, op, s', e);
    case OfWorker(w, op) =>
      if w !in s.workers {
        SitsPlaced(s, s.channel[0].msg, InChannel(s.taken));
      } else if s.workers[w].Holding? || s.workers[w].Failing? {
        SitsPlaced(s, s.workers[w].task.msg, AtWorker(w));
      }
      WorkKnown(c, r, s, w, op, s', e);
    case OfDrainer(op) =>
      if s.held != [] {
        SitsPlaced(s, s.held[0].msg, AtDrainer(s.finished));
      }
      if op.Fetch? {
        SitsPlaced(s, s.retryQueue[op.key].msg, InRetryQueue(op.key));
      }
      DrainKnown(c, s, op, s', e);
    case OfCounter(add) => CounterFrame(s, add, s', e);
  }

  /** Once accepted, a message always has a place. */
  lemma PlacesStay(c: Config, r: Registry, s: South, step: Step, s': South, e: Effect)
    requires Next(c, r, s, step) == Goes(s', e)
    ensures s.place.Keys <= s'.place.Keys
    ensures step.OfSubmit? && step.submitOp == Accept ==> Subject(s, step) in s'.place
  {
    match step
    case OfSubmit(x, op) => SubmitPlacesStay(c, r, s, x, op, s', e);
    case OfWorker(w, op) => WorkPlacesStay(c, r, s, w, op, s', e);
    case OfDrainer(op) => DrainPlacesStay(c, s, op, s', e);
    case OfCounter(add) => CounterFrame(s, add, s', e);
  }

  lemma SubmitPlacesStay(c: Config, r: Registry, s: South, x: SessionId, op: SubmitOp, s': South, e: Effect)
    requires SubmitStep(c, r, s, x, op) == Goes(s', e)
    ensures s.place.Keys <= s'.place.Keys && (op == Accept ==> s.nextMsg + 1 in s'.place)
    ensures s'.drain == s.drain && s'.held == s.held
  {
  }

  lemma WorkPlacesStay(c: Config, r: Registry, s: South, w: WorkerId, op: WorkOp, s': South, e: Effect)
    requires WorkStep(c, r, s, w, op) == Goes(s', e)
    ensures s.place.Keys <= s'.place.Keys
    ensures s'.drain == s.drain && s'.held == s.held
  {
  }

  lemma DrainPlacesStay(c: Config, s: South, op: DrainOp, s': South, e: Effect)
    requires DrainStep(c, s, op) == Goes(s', e)
    ensures s.place.Keys <= s'.place.Keys
    ensures (s.drain == HeadFailed ==> s.held != []) ==> (s'.drain == HeadFailed ==> s'.held != [])
  {
  }
}
