/** Every downstream ID is correlated with its message until the correlation is removed (gateway/router.go). */
module Correlations {
  import opened Octets
  import opened Options
  import opened Sessions
  import opened Southbound
  import opened Northbound
  import opened Gateway
  import opened Affinity
  import Reports

  ghost predicate WorkerHas(workers: map<WorkerId, Work>, smsc: SmscId, persisted: bool) {
    exists w :: w in workers && (workers[w].Answered? || (persisted && workers[w].Linked?)) && workers[w].smsc == smsc
  }

  ghost predicate DrainHas(d: Drain, smsc: SmscId, persisted: bool) {
    (d.HeadAnswered? || (persisted && d.HeadLinked?)) && d.smsc == smsc
  }

  /**
   * A worker or the drainer got the ID in a response and has yet to correlate it; with `persisted`,
   * has yet to write the record for it.
   */
  ghost predicate AtHand(s: South, smsc: SmscId, persisted: bool) {
    WorkerHas(s.workers, smsc, persisted) || DrainHas(s.drain, smsc, persisted)
  }

  ghost predicate Effected(e: Effect, smsc: SmscId, persisted: bool) {
    if persisted then e.SetRecord? && e.smsc == smsc else e.SetSmsc? && e.smsc == smsc
  }

  /** After a step an ID known to its owner is still at hand, or the step correlates it. */
  ghost predicate Follows(s: South, s': South, e: Effect, smsc: SmscId, persisted: bool) {
    && (AtHand(s, smsc, persisted) ==> AtHand(s', smsc, persisted) || Effected(e, smsc, persisted))
    && (smsc in s'.owner && smsc !in s.owner ==> AtHand(s', smsc, persisted))
  }

  lemma OtherWorker(workers: map<WorkerId, Work>, w: WorkerId, workers': map<WorkerId, Work>, smsc: SmscId, persisted: bool)
    requires forall v :: v in workers && v != w ==> v in workers' && workers'[v] == workers[v]
    requires w in workers ==>
               !((workers[w].Answered? || (persisted && workers[w].Linked?)) && workers[w].smsc == smsc)
    requires WorkerHas(workers, smsc, persisted)
    ensures WorkerHas(workers', smsc, persisted)
  {
    var v :| v in workers && (workers[v].Answered? || (persisted && workers[v].Linked?)) && workers[v].smsc == smsc;
    assert v in workers' && workers'[v] == workers[v];
  }

  lemma BackOffFollows(c: Config, r: Registry, s: South, x: SessionId, now: Time, s': South, e: Effect)
    requires SubmitStep(c, r, s, x, BackOff(now)) == Goes(s', e)
    ensures s' == s.(submits := s'.submits, retryQueue := s'.retryQueue, adding := s'.adding, place := s'.place, log := s'.log)
  {
    RetryChanges(c, s.(submits := s.submits - {x}), s.submits[x].msg, r.bound[x], 0, now, s', e);
  }

  lemma FirstFollow(c: Config, r: Registry, s: South, x: SessionId, op: SubmitOp, s': South, e: Effect)
    requires SubmitStep(c, r, s, x, op) == Goes(s', e) && (op.Lookup? || op.Reject? || op.Accept? || op.Correlate?)
    ensures s' == s.(nextMsg := s'.nextMsg, submits := s'.submits, origin := s'.origin, place := s'.place, unheard := s'.unheard)
  {
  }

  lemma LastFollow(c: Config, r: Registry, s: South, x: SessionId, op: SubmitOp, s': South, e: Effect)
    requires SubmitStep(c, r, s, x, op) == Goes(s', e) && (op.Count? || op.Enqueue? || op.Refuse? || op.Uncount?)
    ensures s' == s.(submits := s'.submits, inFlight := s'.inFlight, flight := s'.flight, channel := s'.channel,
                     place := s'.place, overflow := s'.overflow)
  {
  }

  lemma SubmitFollows(c: Config, r: Registry, s: South, x: SessionId, op: SubmitOp, s': South, e: Effect)
    requires SubmitStep(c, r, s, x, op) == Goes(s', e)
    ensures s'.workers == s.workers && s'.drain == s.drain && s'.owner == s.owner
  {
    if op.BackOff? {
      BackOffFollows(c, r, s, x, op.now, s', e);
    } else if op.Count? || op.Enqueue? || op.Refuse? || op.Uncount? {
      LastFollow(c, r, s, x, op, s', e);
    } else {
      FirstFollow(c, r, s, x, op, s', e);
    }
  }

  lemma CounterFollows(s: South, add: bool, s': South, e: Effect)
    requires CounterStep(s, add) == Goes(s', e)
    ensures s'.workers == s.workers && s'.drain == s.drain && s'.owner == s.owner
    ensures s'.origin == s.origin && s'.submits == s.submits && e == Nothing
  {
  }

  lemma SameFollows(s: South, s': South, e: Effect, smsc: SmscId, persisted: bool)
    requires s'.workers == s.workers && s'.drain == s.drain && s'.owner == s.owner
    ensures Follows(s, s', e, smsc, persisted)
  {
  }

  lemma WorkFrame(c: Config, r: Registry, s: South, w: WorkerId, op: WorkOp, s': South, e: Effect)
    requires WorkStep(c, r, s, w, op) == Goes(s', e)
    ensures s'.drain == s.drain && forall v :: v in s.workers && v != w ==> v in s'.workers && s'.workers[v] == s.workers[v]
  {
  }

  lemma WorkFollows(c: Config, r: Registry, s: South, w: WorkerId, op: WorkOp, s': South, e: Effect, smsc: SmscId, persisted: bool)
    requires WorkStep(c, r, s, w, op) == Goes(s', e)
    ensures Follows(s, s', e, smsc, persisted)
  {
    WorkFrame(c, r, s, w, op, s', e);
    WorkOwn(c, r, s, w, op, s', e, smsc, persisted);
    if w in s'.workers && WorkHas(s'.workers[w], smsc, persisted) {
      assert WorkerHas(s'.workers, smsc, persisted);
    } else if WorkerHas(s.workers, smsc, persisted) && !(w in s.workers && WorkHas(s.workers[w], smsc, persisted)) {
      OtherWorker(s.workers, w, s'.workers, smsc, persisted);
    }
  }

  ghost predicate WorkHas(at: Work, smsc: SmscId, persisted: bool) {
    (at.Answered? || (persisted && at.Linked?)) && at.smsc == smsc
  }

  /** The worker itself keeps an ID in hand until it has correlated it. */
  lemma WorkOwn(c: Config, r: Registry, s: South, w: WorkerId, op: WorkOp, s': South, e: Effect, smsc: SmscId, persisted: bool)
    requires WorkStep(c, r, s, w, op) == Goes(s', e)
    ensures w in s.workers && WorkHas(s.workers[w], smsc, persisted) ==>
              Effected(e, smsc, persisted) || (w in s'.workers && WorkHas(s'.workers[w], smsc, persisted))
    ensures smsc in s'.owner && smsc !in s.owner ==> w in s'.workers && WorkHas(s'.workers[w], smsc, persisted)
  {
  }

  lemma DrainFollows(c: Config, s: South, op: DrainOp, s': South, e: Effect, smsc: SmscId, persisted: bool)
    requires DrainStep(c, s, op) == Goes(s', e)
    ensures Follows(s, s', e, smsc, persisted)
  {
    assert s'.workers == s.workers;
  }

  lemma SouthFollows(c: Config, r: Registry, s: South, st: Step, s': South, e: Effect, smsc: SmscId, persisted: bool)
    requires Next(c, r, s, st) == Goes(s', e)
    ensures Follows(s, s', e, smsc, persisted)
  {
    match st
    case OfSubmit(x, op) =>
      SubmitFollows(c, r, s, x, op, s', e);
      SameFollows(s, s', e, smsc, persisted);
    case OfWorker(w, op) => WorkFollows(c, r, s, w, op, s', e, smsc, persisted);
    case OfDrainer(op) => DrainFollows(c, s, op, s', e, smsc, persisted);
    case OfCounter(add) =>
      CounterFollows(s, add, s', e);
      SameFollows(s, s', e, smsc, persisted);
  }

  ghost predicate Stored(n: North, smsc: SmscId, persisted: bool) {
    if persisted then smsc in n.records else smsc in n.smscCorr
  }

  /** The step that removes the correlation, or the record. */
  function Removal(smsc: SmscId, persisted: bool): GatewayStep {
    GoNorth(if persisted then ForgetRecord(smsc) else ForgetSmsc(smsc))
  }

  lemma AbsorbStores(n: North, e: Effect, call: nat, n': North, smsc: SmscId, persisted: bool)
    requires Absorb(n, e, call) == Some(n')
    ensures Stored(n, smsc, persisted) || Effected(e, smsc, persisted) ==> Stored(n', smsc, persisted)
  {
  }

  lemma NorthStores(r: Registry, n: North, op: NorthOp, n': North, smsc: SmscId, persisted: bool)
    requires NorthStep(r, n, op) == Some(n') && GoNorth(op) != Removal(smsc, persisted)
    ensures Stored(n, smsc, persisted) ==> Stored(n', smsc, persisted)
  {
  }

  ghost predicate IdKept(g: State, smsc: SmscId, persisted: bool) {
    smsc in g.south.owner ==> Stored(g.north, smsc, persisted) || AtHand(g.south, smsc, persisted)
  }

  lemma StepKeepsCorrelation(c: Config, g: State, step: GatewayStep, g': State, smsc: SmscId, persisted: bool)
    requires Advance(c, g, step) == Some(g') && step != Removal(smsc, persisted) && IdKept(g, smsc, persisted)
    ensures IdKept(g', smsc, persisted)
  {
    match step
    case BindSession(_, _) =>
    case TearDown(_) =>
    case GoSouth(st, call) =>
      var o := Next(c, g.reg, g.south, st);
      SouthFollows(c, g.reg, g.south, st, o.south, o.effect, smsc, persisted);
      AbsorbStores(g.north, o.effect, call, g'.north, smsc, persisted);
    case GoNorth(op) => NorthStores(g.reg, g.north, op, g'.north, smsc, persisted);
  }

  /**
   * After any run, every ID that a downstream SMSC gave to a message is correlated with a message,
   * unless it is still in the hands of the worker or drainer that got it, or the run removed it. The
   * same holds of the durable records that replace a lost correlation.
   */
  lemma {:induction false} CorrelationKept(c: Config, steps: seq<GatewayStep>, smsc: SmscId, persisted: bool)
    requires Removal(smsc, persisted) !in steps
    ensures Run(c, steps).Some? ==> IdKept(Run(c, steps).value, smsc, persisted)
  {
    if steps != [] && Run(c, steps).Some? {
      var n := |steps| - 1;
      CorrelationKept(c, steps[..n], smsc, persisted);
      StepKeepsCorrelation(c, Run(c, steps[..n]).value, steps[n], Run(c, steps).value, smsc, persisted);
    }
  }

  /**
   * Whatever ran before, a receipt for the ID that a message got from downstream reaches the engine
   * that submitted the message, if the correlation was not removed and the engine is registered.
   */
  lemma ForwardedIsAnswered(c: Config, steps: seq<GatewayStep>, g: State, smsc: SmscId, esm: Byte, call: nat, m: MsgId, conn: ConnId)
    requires Run(c, steps) == Some(g) && Reports.Answers(g, smsc, m, conn)
    requires Removal(smsc, false) !in steps && !AtHand(g.south, smsc, false)
    requires conn in g.reg.conns && IsDlr(esm) && call !in g.north.calls
    ensures Run(c, steps + [GoNorth(Receipt(smsc, esm, call)), GoNorth(Try(call))]).Some?
    ensures (conn, m) in Run(c, steps + [GoNorth(Receipt(smsc, esm, call)), GoNorth(Try(call))]).value.north.sent
  {
    CorrelationKept(c, steps, smsc, false);
    Reports.ReceiptRelayed(c, steps, g, smsc, esm, call, m, conn);
  }

  // ---- Gateway IDs ------------------------------------------------------------

  ghost predicate Accepting(submits: map<SessionId, Submit>, m: MsgId) {
    exists x :: x in submits && submits[x].Accepted? && submits[x].msg == m
  }

  /** The gateway ID is correlated with the submitter, or `HandleSubmit` has yet to do so. */
  ghost predicate GwKept(s: South, n: North, m: MsgId) {
    m in s.origin ==> Accepting(s.submits, m) || (m in n.gwCorr && n.gwCorr[m] == Corr(m, s.origin[m]))
  }

  lemma AcceptKeepsGw(c: Config, r: Registry, s: South, n: North, x: SessionId, s': South, e: Effect, m: MsgId)
    requires InvOrigin(r, s) && SubmitStep(c, r, s, x, Accept) == Goes(s', e) && GwKept(s, n, m)
    ensures GwKept(s', n, m)
  {
    assert x in s'.submits && s'.submits[x].Accepted?;
    if m != s.nextMsg + 1 && Accepting(s.submits, m) {
      OtherAccepting(s.submits, x, s'.submits, m);
    }
  }

  lemma OtherAccepting(submits: map<SessionId, Submit>, x: SessionId, submits': map<SessionId, Submit>, m: MsgId)
    requires Accepting(submits, m) && (x in submits ==> !(submits[x].Accepted? && submits[x].msg == m))
    requires forall y :: y in submits && y != x ==> y in submits' && submits'[y] == submits[y]
    ensures Accepting(submits', m)
  {
    var y :| y in submits && submits[y].Accepted? && submits[y].msg == m;
    assert y in submits' && submits'[y] == submits[y];
  }

  lemma SubmitShapes(c: Config, r: Registry, s: South, x: SessionId, op: SubmitOp, s': South, e: Effect)
    requires SubmitStep(c, r, s, x, op) == Goes(s', e) && op != Accept
    ensures s'.origin == s.origin && forall y :: y in s.submits && y != x ==> y in s'.submits && s'.submits[y] == s.submits[y]
    ensures x in s.submits && s.submits[x].Accepted? ==> op == Correlate && e == SetGw(s.submits[x].msg, r.bound[x])
    ensures e.SetGw? ==> x in s.submits && s.submits[x].Accepted? && e == SetGw(s.submits[x].msg, r.bound[x])
  {
  }

  lemma SubmitKeepsGw(c: Config, r: Registry, s: South, n: North, x: SessionId, op: SubmitOp, s': South, e: Effect, call: nat, n': North, m: MsgId)
    requires InvOrigin(r, s) && SubmitStep(c, r, s, x, op) == Goes(s', e) && Absorb(n, e, call) == Some(n') && op != Accept
    requires GwKept(s, n, m)
    ensures GwKept(s', n', m)
  {
    SubmitShapes(c, r, s, x, op, s', e);
    if e.SetGw? {
      assert SubmitOk(r, TrailOf(s), x, s.submits[x]);
    }
    if Accepting(s.submits, m) && !(x in s.submits && s.submits[x].Accepted? && s.submits[x].msg == m) {
      OtherAccepting(s.submits, x, s'.submits, m);
    }
  }

  /** Only `HandleSubmit` accepts messages and correlates gateway IDs. */
  lemma OthersKeepGw(c: Config, r: Registry, s: South, st: Step, s': South, e: Effect)
    requires Next(c, r, s, st) == Goes(s', e) && !st.OfSubmit?
    ensures s'.origin == s.origin && s'.submits == s.submits && !e.SetGw?
  {
    match st
    case OfSubmit(_, _) =>
    case OfWorker(w, op) => WorkerKeepsGw(c, r, s, w, op, s', e);
    case OfDrainer(op) => DrainerKeepsGw(c, s, op, s', e);
    case OfCounter(add) => CounterFollows(s, add, s', e);
  }

  lemma WorkerKeepsGw(c: Config, r: Registry, s: South, w: WorkerId, op: WorkOp, s': South, e: Effect)
    requires WorkStep(c, r, s, w, op) == Goes(s', e)
    ensures !e.SetGw? && s' == s.(channel := s'.channel, taken := s'.taken, workers := s'.workers, inFlight := s'.inFlight,
                                  flight := s'.flight, place := s'.place, owner := s'.owner, log := s'.log,
                                  retryQueue := s'.retryQueue, adding := s'.adding)
  {
  }

  lemma DrainerKeepsGw(c: Config, s: South, op: DrainOp, s': South, e: Effect)
    requires DrainStep(c, s, op) == Goes(s', e)
    ensures !e.SetGw? && s' == s.(retryQueue := s'.retryQueue, adding := s'.adding, removing := s'.removing, held := s'.held,
                                  finished := s'.finished, drain := s'.drain, place := s'.place, owner := s'.owner, log := s'.log)
  {
  }

  lemma AbsorbKeepsGw(n: North, e: Effect, call: nat, n': North)
    requires Absorb(n, e, call) == Some(n') && !e.SetGw?
    ensures n'.gwCorr == n.gwCorr
  {
  }

  lemma NorthKeepsGw(r: Registry, n: North, op: NorthOp, n': North, m: MsgId)
    requires NorthStep(r, n, op) == Some(n') && op != ForgetGw(m)
    ensures m in n.gwCorr ==> m in n'.gwCorr && n'.gwCorr[m] == n.gwCorr[m]
  {
  }

  lemma SouthKeepsGw(c: Config, r: Registry, s: South, n: North, st: Step, s': South, e: Effect, call: nat, n': North, m: MsgId)
    requires InvOrigin(r, s) && Next(c, r, s, st) == Goes(s', e) && Absorb(n, e, call) == Some(n') && GwKept(s, n, m)
    ensures GwKept(s', n', m)
  {
    if !st.OfSubmit? {
      OthersKeepGw(c, r, s, st, s', e);
      AbsorbKeepsGw(n, e, call, n');
    } else if st.submitOp == Accept {
      AcceptKeepsGw(c, r, s, n, st.x, s', e, m);
    } else {
      SubmitKeepsGw(c, r, s, n, st.x, st.submitOp, s', e, call, n', m);
    }
  }

  lemma StepKeepsGw(c: Config, g: State, step: GatewayStep, g': State, m: MsgId)
    requires Inv(c, g) && Advance(c, g, step) == Some(g') && step != GoNorth(ForgetGw(m)) && GwKept(g.south, g.north, m)
    ensures GwKept(g'.south, g'.north, m)
  {
    match step
    case BindSession(_, _) =>
    case TearDown(_) =>
    case GoSouth(st, call) =>
      var o := Next(c, g.reg, g.south, st);
      SouthKeepsGw(c, g.reg, g.south, g.north, st, o.south, o.effect, call, g'.north, m);
    case GoNorth(op) => NorthKeepsGw(g.reg, g.north, op, g'.north, m);
  }

  /**
   * After any run that did not remove it, the gateway ID of an accepted message is correlated with the
   * engine that submitted it, even if no session was found at the submit; except while `HandleSubmit`
   * has just accepted the message.
   */
  lemma {:induction false} GatewayIdKept(c: Config, steps: seq<GatewayStep>, m: MsgId)
    requires GoNorth(ForgetGw(m)) !in steps
    ensures Run(c, steps).Some? ==> GwKept(Run(c, steps).value.south, Run(c, steps).value.north, m)
  {
    if steps != [] && Run(c, steps).Some? {
      var n := |steps| - 1;
      GatewayIdKept(c, steps[..n], m);
      RunKeepsInv(c, steps[..n]);
      StepKeepsGw(c, Run(c, steps[..n]).value, steps[n], Run(c, steps).value, m);
    }
  }
}
