/**
 * The whole gateway as one state machine, and what holds in every state of every run
 * (gateway/router.go, gateway/server.go, gateway/store.go).
 */
module Gateway {
  import opened Octets
  import opened Options
  import opened Sessions
  import opened Southbound
  import opened Northbound
  import opened Conservation
  import opened Retrying
  import opened Outcomes
  import InFlight
  import opened Affinity

  datatype State = State(reg: Registry, south: South, north: North)

  datatype GatewayStep =
    | BindSession(x: SessionId, id: ConnId)
    | TearDown(x: SessionId)
    | GoSouth(step: Step, call: nat)
    | GoNorth(op: NorthOp)

  const START := State(NO_SESSIONS, QUIET, IDLE)

  /** The state after a step, if the step is possible. */
  function Advance(c: Config, g: State, step: GatewayStep): Option<State> {
    match step
    case BindSession(x, id) =>
      var r := Bind(g.reg, x, id);
      if r.None? then None else Some(g.(reg := r.value))
    case TearDown(x) =>
      var r := Teardown(g.reg, x);
      if r.None? || x in g.south.submits then None else Some(g.(reg := r.value))
    case GoSouth(st, call) =>
      var o := Next(c, g.reg, g.south, st);
      if o.Blocked? then None
      else
        var n := Absorb(g.north, o.effect, call);
        if n.None? then None else Some(g.(south := o.south, north := n.value))
    case GoNorth(op) =>
      var n := NorthStep(g.reg, g.north, op);
      if n.None? then None else Some(g.(north := n.value))
  }

  /** The state after a run, if every step of it was possible. */
  function Run(c: Config, steps: seq<GatewayStep>): Option<State> {
    if steps == [] then Some(START)
    else
      var before := Run(c, steps[..|steps| - 1]);
      if before.None? then None else Advance(c, before.value, steps[|steps| - 1])
  }

  // ---- The invariant of every run --------------------------------------------

  /** The durable queue's counter is off by the updates that are still to come. */
  ghost predicate InvCounter(s: South) {
    s.retryCounter + s.adding == |s.retryQueue| + s.removing
  }

  ghost predicate Inv(c: Config, g: State) {
    && Current(g.reg)
    && InvPlace(g.south)
    && InvRetry(c, g.south)
    && InvOnce(g.south)
    && InFlight.InvFlight(g.south)
    && InvCounter(g.south)
    && InvOrigin(g.reg, g.south)
    && InvNorth(TrailOf(g.south), g.north)
  }

  /** A message that is elsewhere has no entry in the durable queue. */
  lemma KeyFresh(s: South, m: MsgId, now: Time, p: Place)
    requires InvPlace(s) && Sits(s, m, p) && !p.InRetryQueue?
    ensures (now, m) !in s.retryQueue
  {
    assert At(s, m, p);
    assert Sits(s, m, InRetryQueue((now, m))) <==> At(s, m, InRetryQueue((now, m)));
  }

  lemma RetryOrFailCounter(c: Config, s: South, m0: MsgId, conn: ConnId, retryCount: nat, now: Time, s': South, e: Effect)
    requires InvCounter(s) && (now, m0) !in s.retryQueue
    requires RetryOrFail(c, s, m0, conn, retryCount, now) == Goes(s', e)
    ensures InvCounter(s')
  {
  }

  lemma SubmitCounter(c: Config, r: Registry, s: South, x: SessionId, op: SubmitOp, s': South, e: Effect)
    requires InvPlace(s) && InvCounter(s) && SubmitStep(c, r, s, x, op) == Goes(s', e)
    ensures InvCounter(s')
  {
    if op.BackOff? {
      KeyFresh(s, s.submits[x].msg, op.now, Enqueuing(x));
      BackOffCounter(c, r, s, x, op.now, s', e);
    }
  }

  lemma BackOffCounter(c: Config, r: Registry, s: South, x: SessionId, now: Time, s': South, e: Effect)
    requires InvCounter(s) && SubmitStep(c, r, s, x, BackOff(now)) == Goes(s', e)
    requires (now, s.submits[x].msg) !in s.retryQueue
    ensures InvCounter(s')
  {
    RetryOrFailCounter(c, s.(submits := s.submits - {x}), s.submits[x].msg, r.bound[x], 0, now, s', e);
  }

  lemma WorkCounter(c: Config, r: Registry, s: South, w: WorkerId, op: WorkOp, s': South, e: Effect)
    requires InvPlace(s) && InvCounter(s) && WorkStep(c, r, s, w, op) == Goes(s', e)
    ensures InvCounter(s')
  {
    if op.GiveBack? {
      var task := s.workers[w].task;
      KeyFresh(s, task.msg, op.now, AtWorker(w));
      RetryOrFailCounter(c, s.(workers := s.workers[w := Releasing(task)]), task.msg, IdOf(r, task.sess), 0, op.now, s', e);
    }
  }

  lemma GiveBackHeadCounter(c: Config, s: South, now: Time, s': South, e: Effect)
    requires InvCounter(s) && DrainStep(c, s, GiveBackHead(now)) == Goes(s', e)
    requires (now, s.held[0].msg) !in s.retryQueue
    ensures InvCounter(s')
  {
    var p := s.held[0];
    var s1 := s.(held := s.held[1..], finished := s.finished + 1, drain := Ready);
    RetryOrFailCounter(c, s1, p.msg, p.conn, p.retryCount, now, s', e);
  }

  lemma FetchCounter(c: Config, s: South, key: (Time, MsgId), s': South, e: Effect)
    requires InvCounter(s) && DrainStep(c, s, Fetch(key)) == Goes(s', e)
    ensures InvCounter(s')
  {
    assert s'.retryQueue.Keys == s.retryQueue.Keys - {key};
  }

  lemma DrainCounter(c: Config, s: South, op: DrainOp, s': South, e: Effect)
    requires InvPlace(s) && InvCounter(s) && DrainStep(c, s, op) == Goes(s', e)
    ensures InvCounter(s')
  {
    if op.GiveBackHead? {
      KeyFresh(s, s.held[0].msg, op.now, AtDrainer(s.finished));
      GiveBackHeadCounter(c, s, op.now, s', e);
    } else if op.Fetch? {
      FetchCounter(c, s, op.key, s', e);
    }
  }

  lemma StepKeepsCounter(c: Config, r: Registry, s: South, step: Step, s': South, e: Effect)
    requires InvPlace(s) && InvCounter(s) && Next(c, r, s, step) == Goes(s', e)
    ensures InvCounter(s')
  {
    match step
    case OfSubmit(x, op) => SubmitCounter(c, r, s, x, op, s', e);
    case OfWorker(w, op) => WorkCounter(c, r, s, w, op, s', e);
    case OfDrainer(op) => DrainCounter(c, s, op, s', e);
    case OfCounter(add) => CounterFrame(s, add, s', e);
  }

  lemma SouthPart(c: Config, r: Registry, s: South, st: Step, s': South, e: Effect)
    requires InvPlace(s) && InvRetry(c, s) && InvOnce(s) && InFlight.InvFlight(s) && InvCounter(s)
    requires Next(c, r, s, st) == Goes(s', e)
    ensures InvPlace(s') && InvRetry(c, s') && InvOnce(s') && InFlight.InvFlight(s') && InvCounter(s')
  {
    StepKeepsPlaces(c, r, s, st, s', e);
    StepKeepsBudget(c, r, s, st, s', e);
    StepKeepsOnce(c, r, s, st, s', e);
    InFlight.StepKeepsFlight(c, r, s, st, s', e);
    StepKeepsCounter(c, r, s, st, s', e);
  }

  lemma SouthKeepsInv(c: Config, r: Registry, s: South, n: North, st: Step, s': South, e: Effect, call: nat, n': North)
    requires Inv(c, State(r, s, n)) && Next(c, r, s, st) == Goes(s', e) && Absorb(n, e, call) == Some(n')
    ensures Inv(c, State(r, s', n'))
  {
    SouthPart(c, r, s, st, s', e);
    SouthKeepsOrigin(c, r, s, st, s', e);
    NorthPart(TrailOf(s), TrailOf(s'), n, e, call, n');
  }

  lemma NorthPart(t: Trail, t': Trail, n: North, e: Effect, call: nat, n': North)
    requires InvNorth(t, n) && Extends(t, t') && EffectOk(t', e) && Absorb(n, e, call) == Some(n')
    ensures InvNorth(t', n')
  {
    ExtendKeepsNorth(t, t', n);
    AbsorbKeepsNorth(t', n, e, call, n');
  }

  /** Every step of every goroutine keeps the invariant. */
  lemma StepKeepsInv(c: Config, g: State, step: GatewayStep, g': State)
    requires Inv(c, g) && Advance(c, g, step) == Some(g')
    ensures Inv(c, g')
  {
    match step
    case BindSession(x, id) =>
      BindKeepsCurrent(g.reg, x, id, g'.reg);
      BindKeepsOrigin(g.reg, g.south, x, id, g'.reg);
    case TearDown(x) =>
      TeardownKeepsCurrent(g.reg, x, g'.reg);
      TeardownKeepsOrigin(g.reg, g.south, x, g'.reg);
    case GoSouth(st, call) =>
      var o := Next(c, g.reg, g.south, st);
      SouthKeepsInv(c, g.reg, g.south, g.north, st, o.south, o.effect, call, g'.north);
    case GoNorth(op) =>
      NorthKeepsNorth(g.reg, TrailOf(g.south), g.north, op, g'.north);
  }

  lemma StartSouth(c: Config)
    ensures InvPlace(QUIET) && InvRetry(c, QUIET) && InvOnce(QUIET)
  {
    assert forall m, p :: !Sits(QUIET, m, p);
  }

  lemma StartFlight()
    ensures InFlight.InvFlight(QUIET)
  {
    assert forall m, k, x :: !InFlight.Carries(QUIET, m, k, x);
    assert forall x :: InFlight.Flying(QUIET, x) == {};
  }

  lemma StartInv(c: Config)
    ensures Inv(c, START)
  {
    StartSouth(c);
    StartFlight();
  }

  /** The invariant holds in every reachable state. */
  lemma {:induction false} RunKeepsInv(c: Config, steps: seq<GatewayStep>)
    ensures Run(c, steps).Some? ==> Inv(c, Run(c, steps).value)
  {
    if steps == [] {
      StartInv(c);
    } else {
      var n := |steps| - 1;
      RunKeepsInv(c, steps[..n]);
      if Run(c, steps).Some? {
        StepKeepsInv(c, Run(c, steps[..n]).value, steps[n], Run(c, steps).value);
      }
    }
  }

  // ---- What the invariant means ----------------------------------------------

  /** Conservation: after any run, every accepted message sits in exactly one place. */
  lemma Conserved(c: Config, steps: seq<GatewayStep>, g: State, m: MsgId)
    requires Run(c, steps) == Some(g) && 1 <= m <= g.south.nextMsg
    ensures exists p :: Sits(g.south, m, p) && forall q :: Sits(g.south, m, q) ==> q == p
  {
    RunKeepsInv(c, steps);
    var p := g.south.place[m];
    assert At(g.south, m, p);
    assert Sits(g.south, m, p);
    forall q | Sits(g.south, m, q) ensures q == p {
      assert At(g.south, m, q);
    }
  }

  /** Nothing but accepted messages is anywhere. */
  lemma NothingElse(c: Config, steps: seq<GatewayStep>, g: State, m: MsgId, p: Place)
    requires Run(c, steps) == Some(g) && Sits(g.south, m, p)
    ensures 1 <= m <= g.south.nextMsg
  {
    RunKeepsInv(c, steps);
    assert At(g.south, m, p);
  }

  ghost predicate IsCarried(s: South, m: MsgId, x: SessionId) {
    exists k :: InFlight.Carries(s, m, k, x)
  }

  /** The messages that `HandleSubmit`, the channel or a worker carries for session `x`. */
  ghost function CarriedFor(s: South, x: SessionId): set<MsgId> {
    set m | m in s.place && IsCarried(s, m, x)
  }

  lemma CarriedHasPlace(s: South, m: MsgId, k: Carrier, x: SessionId)
    requires InvPlace(s) && InFlight.InvFlight(s) && InFlight.Carries(s, m, k, x)
    ensures m in s.place
  {
    match k
    case BySubmit(y) => assert Sits(s, m, Enqueuing(y));
    case ByChannel(n) => assert Sits(s, m, InChannel(n));
    case ByWorker(w) => assert InFlight.PastChannel(s, s.workers[w].task.msg);
  }

  lemma CarriedIsFlying(s: South, x: SessionId)
    requires InvPlace(s) && InFlight.InvFlight(s)
    ensures CarriedFor(s, x) == InFlight.Flying(s, x)
  {
    forall m ensures m in CarriedFor(s, x) <==> m in InFlight.Flying(s, x) {
      if m in CarriedFor(s, x) {
        var k :| InFlight.Carries(s, m, k, x);
        assert InFlight.Flies(s, m, k, x);
      }
      if m in InFlight.Flying(s, x) {
        var k := s.flight[m].0;
        assert InFlight.Flies(s, m, k, x);
        assert InFlight.Carries(s, m, k, x);
        CarriedHasPlace(s, m, k, x);
      }
    }
  }

  /**
   * In-flight counters are exact: after any run the counter of each session is the number of
   * messages being enqueued after it was raised, queued, or held by a worker for that session.
   */
  lemma InFlightExact(c: Config, steps: seq<GatewayStep>, g: State, x: SessionId)
    requires Run(c, steps) == Some(g)
    ensures Southbound.InFlight(g.south, x) == |CarriedFor(g.south, x)|
  {
    RunKeepsInv(c, steps);
    CarriedIsFlying(g.south, x);
  }

  /** Each message counts once: one carrier, one session. */
  lemma CarriedOnce(c: Config, steps: seq<GatewayStep>, g: State, m: MsgId, k: Carrier, x: SessionId, k': Carrier, x': SessionId)
    requires Run(c, steps) == Some(g)
    requires InFlight.Carries(g.south, m, k, x) && InFlight.Carries(g.south, m, k', x')
    ensures k == k' && x == x'
  {
    RunKeepsInv(c, steps);
    assert InFlight.Flies(g.south, m, k, x) && InFlight.Flies(g.south, m, k', x');
  }

  /** Bounded retry: one attempt more than the retries allowed, one less if the channel was full at submit. */
  lemma AttemptsBounded(c: Config, steps: seq<GatewayStep>, g: State, m: MsgId)
    requires Run(c, steps) == Some(g)
    ensures Attempts(g.south, m) <= MaxRetries(c) + 1
    ensures m in g.south.overflow ==> Attempts(g.south, m) <= MaxRetries(c)
  {
    RunKeepsInv(c, steps);
    if m in g.south.place {
      assert WithinBudget(c, g.south, m);
    }
  }

  /** The channel holds no more than its size, and no worker runs that was not started. */
  ghost predicate InBounds(c: Config, s: South) {
    |s.channel| <= c.queueSize && forall w :: w in s.workers ==> w < c.workers
  }

  lemma SubmitInBounds(c: Config, r: Registry, s: South, x: SessionId, op: SubmitOp, s': South, e: Effect)
    requires InBounds(c, s) && SubmitStep(c, r, s, x, op) == Goes(s', e)
    ensures InBounds(c, s')
  {
    if op != Count && op != Enqueue && op != Uncount {
      InFlight.SubmitFrame(c, r, s, x, op, s', e);
    }
  }

  lemma WorkInBounds(c: Config, r: Registry, s: South, w: WorkerId, op: WorkOp, s': South, e: Effect)
    requires InBounds(c, s) && WorkStep(c, r, s, w, op) == Goes(s', e)
    ensures InBounds(c, s')
  {
  }

  lemma StepInBounds(c: Config, r: Registry, s: South, st: Step, s': South, e: Effect)
    requires InBounds(c, s) && Next(c, r, s, st) == Goes(s', e)
    ensures InBounds(c, s')
  {
    match st
    case OfSubmit(x, op) => SubmitInBounds(c, r, s, x, op, s', e);
    case OfWorker(w, op) => WorkInBounds(c, r, s, w, op, s', e);
    case OfDrainer(op) => InFlight.DrainFrame(c, s, op, s', e);
    case OfCounter(add) => CounterFrame(s, add, s', e);
  }

  /** After any run, no more messages are queued than the channel has room for, or held than there are workers. */
  lemma {:induction false} RunInBounds(c: Config, steps: seq<GatewayStep>)
    ensures Run(c, steps).Some? ==> InBounds(c, Run(c, steps).value.south)
  {
    if steps != [] && Run(c, steps).Some? {
      var n := |steps| - 1;
      RunInBounds(c, steps[..n]);
      var g := Run(c, steps[..n]).value;
      if steps[n].GoSouth? {
        var o := Next(c, g.reg, g.south, steps[n].step);
        StepInBounds(c, g.reg, g.south, steps[n].step, o.south, o.effect);
      }
    }
  }

  /** One outcome: a message is forwarded at most once or fails at most once, never both. */
  lemma OneOutcome(c: Config, steps: seq<GatewayStep>, g: State, m: MsgId)
    requires Run(c, steps) == Some(g)
    ensures g.south.log[Attempt(m, true)] + g.south.log[Synthetic(m)] <= 1
  {
    RunKeepsInv(c, steps);
    OutcomeLogged(g.south, m);
  }

  /**
   * The counter of the durable queue is off by exactly the updates still to come, so it is right
   * if and only if as many additions as removals are: no entry is ever overwritten.
   */
  lemma RetryCounterOff(c: Config, steps: seq<GatewayStep>, g: State)
    requires Run(c, steps) == Some(g)
    ensures g.south.retryCounter == |g.south.retryQueue| + g.south.removing - g.south.adding
    ensures g.south.retryCounter == |g.south.retryQueue| <==> g.south.adding == g.south.removing
  {
    RunKeepsInv(c, steps);
  }

  /** Affinity: every receipt ever written to an engine went to the one that submitted the message. */
  lemma ReceiptsGoHome(c: Config, steps: seq<GatewayStep>, g: State, conn: ConnId, m: MsgId)
    requires Run(c, steps) == Some(g) && (conn, m) in g.north.sent
    ensures m in g.south.origin && g.south.origin[m] == conn
  {
    RunKeepsInv(c, steps);
  }

  /** `pd` is being delivered, buffered or held by the drain of the northbound queue. */
  ghost predicate Underway(n: North, pd: PendingDeliver) {
    (exists k :: k in n.calls && n.calls[k].pd == pd) || (exists key :: key in n.queue && n.queue[key] == pd) || pd in n.held
  }

  /**
   * Every receipt underway is addressed to the submitting engine, unless no session was registered
   * when the message was submitted: then it may have no address, and is never sent.
   */
  lemma ReceiptsAddressed(c: Config, steps: seq<GatewayStep>, g: State, pd: PendingDeliver, m: MsgId)
    requires Run(c, steps) == Some(g) && Underway(g.north, pd) && pd.report == Some(m)
    ensures m in g.south.origin && IsDlr(pd.esm)
    ensures m !in g.south.unheard ==> pd.target == g.south.origin[m]
    ensures pd.target != g.south.origin[m] ==> pd.target == "" && "" !in g.reg.conns
  {
    RunKeepsInv(c, steps);
    assert PdOk(TrailOf(g.south), pd);
  }

  /** What `unheard` records: the messages whose submit found no session, while they are still carried. */
  lemma UnheardAtLookup(c: Config, steps: seq<GatewayStep>, g: State, i: nat, w: WorkerId)
    requires Run(c, steps) == Some(g)
    ensures i < |g.south.channel| ==> (g.south.channel[i].sess.None? <==> g.south.channel[i].msg in g.south.unheard)
    ensures w in g.south.workers ==>
              (g.south.workers[w].task.sess.None? <==> g.south.workers[w].task.msg in g.south.unheard)
  {
    RunKeepsInv(c, steps);
    assert i < |g.south.channel| ==> TaskOk(g.reg, TrailOf(g.south), g.south.channel[i]);
    assert w in g.south.workers ==> WorkOk(g.reg, TrailOf(g.south), g.south.workers[w]);
  }

  /** A receipt for a downstream ID is delivered as one for the message that got that ID. */
  lemma ReceiptsNameTheirMessage(c: Config, steps: seq<GatewayStep>, g: State, smsc: SmscId)
    requires Run(c, steps) == Some(g)
    ensures smsc in g.north.smscCorr ==> smsc in g.south.owner && g.north.smscCorr[smsc].msg == g.south.owner[smsc]
    ensures smsc in g.north.records ==> smsc in g.south.owner && g.north.records[smsc].msg == g.south.owner[smsc]
  {
    RunKeepsInv(c, steps);
    if smsc in g.north.smscCorr {
      assert CorrOk(TrailOf(g.south), smsc, g.north.smscCorr[smsc]);
    }
    if smsc in g.north.records {
      assert CorrOk(TrailOf(g.south), smsc, g.north.records[smsc]);
    }
  }

  /** An ID is registered exactly while the last session that bound under it is up. */
  lemma RegistryCurrent(c: Config, steps: seq<GatewayStep>, g: State, id: ConnId)
    requires Run(c, steps) == Some(g)
    ensures GetConnection(g.reg, id) ==
            if id in g.reg.latest && g.reg.latest[id] !in g.reg.torn then Some(g.reg.latest[id]) else None
  {
    RunKeepsInv(c, steps);
  }

  // ---- Moves -----------------------------------------------------------------

  ghost predicate Moves(c: Config, g: State, step: GatewayStep, m: MsgId) {
    var g' := Advance(c, g, step);
    g'.Some? && m in g.south.place && m in g'.value.south.place && g'.value.south.place[m] != g.south.place[m]
  }

  /** How often a message changed place during a run. */
  ghost function MoveCount(c: Config, steps: seq<GatewayStep>, m: MsgId): nat {
    if steps == [] then 0
    else
      var n := |steps| - 1;
      var before := Run(c, steps[..n]);
      MoveCount(c, steps[..n], m) + (if before.Some? && Moves(c, before.value, steps[n], m) then 1 else 0)
  }

  lemma StepRank(c: Config, g: State, step: GatewayStep, g': State, m: MsgId)
    requires Inv(c, g) && Advance(c, g, step) == Some(g') && m in g.south.place
    ensures Closer(c, g.south, g'.south, m)
  {
    if step.GoSouth? {
      var o := Next(c, g.reg, g.south, step.step);
      StepCloser(c, g.reg, g.south, step.step, o.south, o.effect, m);
    }
  }

  /** The moves made and the distance left never exceed what a message starts with. */
  lemma {:induction false} MovesAndRank(c: Config, steps: seq<GatewayStep>, m: MsgId)
    ensures Run(c, steps).Some? ==>
      var s := Run(c, steps).value.south;
      MoveCount(c, steps, m) + (if m in s.place then Rank(c, s, m) else 0) <=
        if m in s.place then 2 * MaxRetries(c) + 4 else 0
  {
    if steps != [] && Run(c, steps).Some? {
      var n := |steps| - 1;
      MovesAndRank(c, steps[..n], m);
      RunKeepsInv(c, steps[..n]);
      RunKeepsInv(c, steps);
      var g, g' := Run(c, steps[..n]).value, Run(c, steps).value;
      if m in g.south.place {
        StepRank(c, g, steps[n], g', m);
      } else if m in g'.south.place {
        KnowsAll(c, g'.south, m);
        RankBounds(c, g'.south, m);
      }
    }
  }

  /** Whatever the run, a message changes place at most twice per retry and four times more. */
  lemma MovesBounded(c: Config, steps: seq<GatewayStep>, g: State, m: MsgId)
    requires Run(c, steps) == Some(g)
    ensures MoveCount(c, steps, m) <= 2 * MaxRetries(c) + 4
  {
    MovesAndRank(c, steps, m);
    RunKeepsInv(c, steps);
    if m in g.south.place {
      KnowsAll(c, g.south, m);
      RankBounds(c, g.south, m);
    }
  }

  /** An outcome is final: no later step moves a message that was forwarded or has failed. */
  lemma OutcomeFinal(c: Config, steps: seq<GatewayStep>, g: State, step: GatewayStep, g': State, m: MsgId, p: Place)
    requires Run(c, steps) == Some(g) && Advance(c, g, step) == Some(g')
    requires (p == Forwarded || p == Failed) && Sits(g.south, m, p)
    ensures Sits(g'.south, m, p)
  {
    RunKeepsInv(c, steps);
    assert At(g.south, m, p);
    StepRank(c, g, step, g', m);
    StepKeepsInv(c, g, step, g');
    KnowsAll(c, g'.south, m);
    RankBounds(c, g'.south, m);
    assert At(g'.south, m, p);
  }
}
