/** No accepted message is ever stuck: from every reachable state a run goes on to its outcome (gateway/router.go). */
module Progress {
  import opened Options
  import opened Sessions
  import opened Southbound
  import opened Northbound
  import opened Conservation
  import opened Retrying
  import opened Outcomes
  import InFlight
  import opened Affinity
  import opened Gateway

  // ---- Fresh names -----------------------------------------------------------

  lemma {:induction false} FreshNumber(keys: set<nat>) returns (k: nat)
    ensures forall i :: i in keys ==> i < k
  {
    k := 0;
    if keys != {} {
      var x :| x in keys;
      var rest := keys - {x};
      k := FreshNumber(rest);
      assert keys == rest + {x};
      k := if x < k then k else x + 1;
    }
  }

  lemma {:induction false} FreshName(keys: set<string>) returns (n: nat)
    ensures forall s :: s in keys ==> |s| < n
  {
    n := 0;
    if keys != {} {
      var x :| x in keys;
      var rest := keys - {x};
      n := FreshName(rest);
      assert keys == rest + {x};
      n := if |x| < n then n else |x| + 1;
    }
  }

  lemma FreshSmsc(owner: map<SmscId, MsgId>) returns (smsc: SmscId)
    ensures smsc !in owner
  {
    var n := FreshName(owner.Keys);
    smsc := seq(n, _ => 'x');
    assert smsc !in owner.Keys;
  }

  // ---- One step more ---------------------------------------------------------

  lemma OneMoreStep(c: Config, steps: seq<GatewayStep>, g: State, step: GatewayStep, g': State)
    requires Run(c, steps) == Some(g) && Advance(c, g, step) == Some(g')
    ensures Run(c, steps + [step]) == Some(g')
  {
    assert (steps + [step])[..|steps|] == steps;
  }

  /** A southbound step that is not blocked can be taken, and brings no message further from its outcome. */
  lemma Do(c: Config, steps: seq<GatewayStep>, g: State, st: Step, m: MsgId)
    returns (steps': seq<GatewayStep>, g': State)
    requires Run(c, steps) == Some(g) && Next(c, g.reg, g.south, st).Goes? && m in g.south.place
    ensures steps <= steps' && Run(c, steps') == Some(g')
    ensures g'.reg == g.reg && g'.south == Next(c, g.reg, g.south, st).south && Closer(c, g.south, g'.south, m)
  {
    var o := Next(c, g.reg, g.south, st);
    var call := FreshNumber(g.north.calls.Keys);
    assert call !in g.north.calls.Keys;
    var step := GoSouth(st, call);
    g' := g.(south := o.south, north := Absorb(g.north, o.effect, call).value);
    steps' := steps + [step];
    OneMoreStep(c, steps, g, step, g');
    RunKeepsInv(c, steps);
    StepRank(c, g, step, g', m);
  }

  /** The message has moved on, or it is where it was. */
  ghost predicate Moved(c: Config, g: State, g': State, m: MsgId) {
    m in g.south.place && m in g'.south.place && Rank(c, g'.south, m) < Rank(c, g.south, m)
  }

  ghost predicate Stays(c: Config, g: State, g': State, m: MsgId) {
    && m in g.south.place && m in g'.south.place && g'.south.place[m] == g.south.place[m]
    && Rank(c, g'.south, m) == Rank(c, g.south, m) && g'.reg == g.reg
  }

  // ---- Sessions that submit are up -------------------------------------------

  ghost predicate Live(g: State) {
    forall x :: x in g.south.submits ==> x in g.reg.bound && x !in g.reg.torn
  }

  lemma SubmitsFrame(c: Config, r: Registry, s: South, st: Step, s': South, e: Effect, y: SessionId)
    requires Next(c, r, s, st) == Goes(s', e) && y in s'.submits
    ensures y in s.submits || (st.OfSubmit? && y == st.x && y in r.bound && y !in r.torn)
  {
    match st
    case OfSubmit(x, op) => SubmitSubmits(c, r, s, x, op, s', e, y);
    case OfWorker(w, op) => WorkSubmits(c, r, s, w, op, s', e);
    case OfDrainer(op) => DrainSubmits(c, s, op, s', e);
    case OfCounter(add) => CounterFrame(s, add, s', e);
  }

  lemma SubmitSubmits(c: Config, r: Registry, s: South, x: SessionId, op: SubmitOp, s': South, e: Effect, y: SessionId)
    requires SubmitStep(c, r, s, x, op) == Goes(s', e) && y in s'.submits
    ensures x in r.bound && x !in r.torn && (y in s.submits || y == x)
  {
  }

  lemma WorkSubmits(c: Config, r: Registry, s: South, w: WorkerId, op: WorkOp, s': South, e: Effect)
    requires WorkStep(c, r, s, w, op) == Goes(s', e)
    ensures s'.submits == s.submits
  {
    if op != Take && op != Release {
      InFlight.WorkFrame(c, r, s, w, op, s', e);
    }
  }

  lemma DrainSubmits(c: Config, s: South, op: DrainOp, s': South, e: Effect)
    requires DrainStep(c, s, op) == Goes(s', e)
    ensures s'.submits == s.submits
  {
    InFlight.DrainFrame(c, s, op, s', e);
  }

  lemma StepKeepsLive(c: Config, g: State, step: GatewayStep, g': State)
    requires Live(g) && Advance(c, g, step) == Some(g')
    ensures Live(g')
  {
    if step.GoSouth? {
      var o := Next(c, g.reg, g.south, step.step);
      forall y | y in g'.south.submits ensures y in g'.reg.bound && y !in g'.reg.torn {
        SubmitsFrame(c, g.reg, g.south, step.step, o.south, o.effect, y);
      }
    }
  }

  lemma {:induction false} RunKeepsLive(c: Config, steps: seq<GatewayStep>)
    ensures Run(c, steps).Some? ==> Live(Run(c, steps).value)
  {
    if steps != [] && Run(c, steps).Some? {
      var n := |steps| - 1;
      RunKeepsLive(c, steps[..n]);
      StepKeepsLive(c, Run(c, steps[..n]).value, steps[n], Run(c, steps).value);
    }
  }

  /** `enqueueSubmitRetryOrFail` always goes through, and gives the message a new place. */
  lemma RetryGoes(c: Config, s: South, msg: MsgId, conn: ConnId, retryCount: nat)
    ensures var o := RetryOrFail(c, s, msg, conn, retryCount, 0);
            && o.Goes? && o.south.submits == s.submits && o.south.workers == s.workers && o.south.channel == s.channel
            && o.south.taken == s.taken && o.south.finished == s.finished && o.south.removing == s.removing
            && o.south.place == s.place[msg := if Retries(c, retryCount) then InRetryQueue((0, msg)) else Failed]
  {
  }

  // ---- HandleSubmit goes on --------------------------------------------------

  function StageOf(at: Submit): nat {
    match at
    case Accepted(_, _) => 5
    case Correlated(_, _) => 4
    case Counted(_, _) => 3
    case Refused(_, _) => 2
    case Uncounted(_, _) => 1
    case Looked(_) => 0
  }

  /** What `HandleSubmit` does next. */
  function NextSubmit(c: Config, s: South, x: SessionId): SubmitOp
    requires x in s.submits
  {
    match s.submits[x]
    case Looked(_) => Reject
    case Accepted(_, _) => Correlate
    case Correlated(_, _) => Count
    case Counted(_, _) => if |s.channel| < c.queueSize then Enqueue else Refuse
    case Refused(_, _) => Uncount
    case Uncounted(_, _) => BackOff(0)
  }

  /** `HandleSubmit` is a stage further, or its message is no longer its own. */
  ghost predicate GoesOn(s: South, o: Outcome, x: SessionId)
    requires x in s.submits && !s.submits[x].Looked?
  {
    && o.Goes?
    && (x in o.south.submits ==> !o.south.submits[x].Looked? && StageOf(o.south.submits[x]) < StageOf(s.submits[x]))
    && (x !in o.south.submits ==> s.submits[x].msg in o.south.place && !o.south.place[s.submits[x].msg].Enqueuing?)
  }

  lemma CorrelateGoesOn(c: Config, r: Registry, s: South, x: SessionId)
    requires x in s.submits && x in r.bound && x !in r.torn && s.submits[x].Accepted?
    ensures GoesOn(s, SubmitStep(c, r, s, x, Correlate), x)
  {
  }

  lemma CountGoesOn(c: Config, r: Registry, s: South, x: SessionId)
    requires x in s.submits && x in r.bound && x !in r.torn && s.submits[x].Correlated?
    ensures GoesOn(s, SubmitStep(c, r, s, x, Count), x)
  {
  }

  lemma EnqueueGoesOn(c: Config, r: Registry, s: South, x: SessionId)
    requires x in s.submits && x in r.bound && x !in r.torn && s.submits[x].Counted? && |s.channel| < c.queueSize
    ensures GoesOn(s, SubmitStep(c, r, s, x, Enqueue), x)
  {
  }

  lemma RefuseGoesOn(c: Config, r: Registry, s: South, x: SessionId)
    requires x in s.submits && x in r.bound && x !in r.torn && s.submits[x].Counted? && |s.channel| >= c.queueSize
    ensures GoesOn(s, SubmitStep(c, r, s, x, Refuse), x)
  {
  }

  lemma UncountGoesOn(c: Config, r: Registry, s: South, x: SessionId)
    requires x in s.submits && x in r.bound && x !in r.torn && s.submits[x].Refused?
    ensures GoesOn(s, SubmitStep(c, r, s, x, Uncount), x)
  {
  }

  lemma BackOffGoesOn(c: Config, r: Registry, s: South, x: SessionId)
    requires x in s.submits && x in r.bound && x !in r.torn && s.submits[x].Uncounted?
    ensures GoesOn(s, SubmitStep(c, r, s, x, BackOff(0)), x)
  {
    RetryGoes(c, s.(submits := s.submits - {x}), s.submits[x].msg, r.bound[x], 0);
  }

  lemma SubmitGoesOn(c: Config, r: Registry, s: South, x: SessionId)
    requires x in s.submits && !s.submits[x].Looked? && x in r.bound && x !in r.torn
    ensures GoesOn(s, SubmitStep(c, r, s, x, NextSubmit(c, s, x)), x)
  {
    match s.submits[x]
    case Accepted(_, _) => CorrelateGoesOn(c, r, s, x);
    case Correlated(_, _) => CountGoesOn(c, r, s, x);
    case Counted(_, _) =>
      if |s.channel| < c.queueSize {
        EnqueueGoesOn(c, r, s, x);
      } else {
        RefuseGoesOn(c, r, s, x);
      }
    case Refused(_, _) => UncountGoesOn(c, r, s, x);
    case Uncounted(_, _) => BackOffGoesOn(c, r, s, x);
  }

  lemma {:induction false} FromSubmit(c: Config, steps: seq<GatewayStep>, g: State, m: MsgId, x: SessionId)
    returns (steps': seq<GatewayStep>, g': State)
    requires Run(c, steps) == Some(g) && At(g.south, m, Enqueuing(x))
    ensures steps <= steps' && Run(c, steps') == Some(g') && Moved(c, g, g', m)
    decreases if x in g.south.submits then StageOf(g.south.submits[x]) else 0
  {
    RunKeepsInv(c, steps);
    RunKeepsLive(c, steps);
    assert Sits(g.south, m, Enqueuing(x));
    SubmitGoesOn(c, g.reg, g.south, x);
    steps', g' := Do(c, steps, g, OfSubmit(x, NextSubmit(c, g.south, x)), m);
    if !Moved(c, g, g', m) {
      StillSubmitting(c, steps', g', m, x);
      var before := g';
      var s1 := steps';
      steps', g' := FromSubmit(c, s1, before, m, x);
    }
  }

  lemma StillSubmitting(c: Config, steps: seq<GatewayStep>, g: State, m: MsgId, x: SessionId)
    requires Run(c, steps) == Some(g) && At(g.south, m, Enqueuing(x))
    ensures x in g.south.submits && !g.south.submits[x].Looked? && g.south.submits[x].msg == m
  {
    RunKeepsInv(c, steps);
    assert Sits(g.south, m, Enqueuing(x));
  }

  // ---- Workers go on ---------------------------------------------------------

  function WorkStage(at: Work): nat {
    match at
    case Holding(_) => 4
    case Failing(_) => 3
    case Answered(_, _) => 3
    case Linked(_, _) => 2
    case Releasing(_) => 1
  }

  /** What a worker can do next, if no route takes its message. */
  function NextWork(at: Work): WorkOp {
    match at
    case Holding(_) => Unrouted
    case Failing(_) => GiveBack(0)
    case Answered(_, _) => Link
    case Linked(_, _) => Persist
    case Releasing(_) => Release
  }

  ghost predicate WorksOn(s: South, o: Outcome, w: WorkerId)
    requires w in s.workers
  {
    && o.Goes? && o.south.channel == s.channel && o.south.taken == s.taken
    && (w in o.south.workers ==> WorkStage(o.south.workers[w]) < WorkStage(s.workers[w]))
  }

  lemma UnroutedWorksOn(c: Config, r: Registry, s: South, w: WorkerId)
    requires w in s.workers && s.workers[w].Holding?
    ensures WorksOn(s, WorkStep(c, r, s, w, Unrouted), w)
  {
  }

  lemma GiveBackWorksOn(c: Config, r: Registry, s: South, w: WorkerId)
    requires w in s.workers && s.workers[w].Failing?
    ensures WorksOn(s, WorkStep(c, r, s, w, GiveBack(0)), w)
  {
    var task := s.workers[w].task;
    RetryGoes(c, s.(workers := s.workers[w := Releasing(task)]), task.msg, IdOf(r, task.sess), 0);
  }

  lemma LinkWorksOn(c: Config, r: Registry, s: South, w: WorkerId)
    requires w in s.workers && s.workers[w].Answered?
    ensures WorksOn(s, WorkStep(c, r, s, w, Link), w)
  {
  }

  lemma PersistWorksOn(c: Config, r: Registry, s: South, w: WorkerId)
    requires w in s.workers && s.workers[w].Linked?
    ensures WorksOn(s, WorkStep(c, r, s, w, Persist), w)
  {
  }

  lemma ReleaseWorksOn(c: Config, r: Registry, s: South, w: WorkerId)
    requires w in s.workers && s.workers[w].Releasing?
    ensures WorksOn(s, WorkStep(c, r, s, w, Release), w)
  {
  }

  lemma WorkGoesOn(c: Config, r: Registry, s: South, w: WorkerId)
    requires w in s.workers
    ensures WorksOn(s, WorkStep(c, r, s, w, NextWork(s.workers[w])), w)
  {
    match s.workers[w]
    case Holding(_) => UnroutedWorksOn(c, r, s, w);
    case Failing(_) => GiveBackWorksOn(c, r, s, w);
    case Answered(_, _) => LinkWorksOn(c, r, s, w);
    case Linked(_, _) => PersistWorksOn(c, r, s, w);
    case Releasing(_) => ReleaseWorksOn(c, r, s, w);
  }

  /** A worker finishes with its message and is free, unless the message `m` moved on meanwhile. */
  lemma {:induction false} FreeWorker(c: Config, steps: seq<GatewayStep>, g: State, m: MsgId, w: WorkerId)
    returns (steps': seq<GatewayStep>, g': State)
    requires Run(c, steps) == Some(g) && m in g.south.place
    ensures steps <= steps' && Run(c, steps') == Some(g')
    ensures || Moved(c, g, g', m)
            || (Stays(c, g, g', m) && w !in g'.south.workers
                && g'.south.channel == g.south.channel && g'.south.taken == g.south.taken)
    decreases if w in g.south.workers then WorkStage(g.south.workers[w]) else 0
  {
    if w !in g.south.workers {
      steps', g' := steps, g;
    } else {
      WorkGoesOn(c, g.reg, g.south, w);
      var s1, g1 := Do(c, steps, g, OfWorker(w, NextWork(g.south.workers[w])), m);
      if Moved(c, g, g1, m) {
        steps', g' := s1, g1;
      } else {
        steps', g' := FreeWorker(c, s1, g1, m, w);
      }
    }
  }

  lemma TakeGoes(c: Config, r: Registry, s: South, w: WorkerId)
    requires w !in s.workers && w < c.workers && s.channel != []
    ensures var o := WorkStep(c, r, s, w, Take);
            o.Goes? && o.south.taken == s.taken + 1 && o.south.channel == s.channel[1..] && At(o.south, s.channel[0].msg, AtWorker(w))
  {
  }

  /** The channel empties up to the message, which is then taken. */
  lemma {:induction false} FromChannel(c: Config, steps: seq<GatewayStep>, g: State, m: MsgId, n: nat)
    returns (steps': seq<GatewayStep>, g': State)
    requires Run(c, steps) == Some(g) && At(g.south, m, InChannel(n)) && c.workers > 0
    ensures steps <= steps' && Run(c, steps') == Some(g') && Moved(c, g, g', m)
    decreases n - g.south.taken
  {
    InQueue(c, steps, g, m, n);
    var s1, g1 := FreeWorker(c, steps, g, m, 0);
    if Moved(c, g, g1, m) {
      steps', g' := s1, g1;
    } else {
      TakeGoes(c, g1.reg, g1.south, 0);
      var s2, g2 := Do(c, s1, g1, OfWorker(0, Take), m);
      if Moved(c, g1, g2, m) {
        steps', g' := s2, g2;
      } else {
        InQueue(c, s2, g2, m, n);
        steps', g' := FromChannel(c, s2, g2, m, n);
      }
    }
  }

  lemma InQueue(c: Config, steps: seq<GatewayStep>, g: State, m: MsgId, n: nat)
    requires Run(c, steps) == Some(g) && At(g.south, m, InChannel(n))
    ensures g.south.taken <= n < g.south.taken + |g.south.channel|
  {
    RunKeepsInv(c, steps);
    assert Sits(g.south, m, InChannel(n));
  }

  /** A worker that holds the message sends it, or gives it back. */
  lemma FromWorker(c: Config, steps: seq<GatewayStep>, g: State, m: MsgId, w: WorkerId)
    returns (steps': seq<GatewayStep>, g': State)
    requires Run(c, steps) == Some(g) && At(g.south, m, AtWorker(w))
    ensures steps <= steps' && Run(c, steps') == Some(g') && Moved(c, g, g', m)
  {
    RunKeepsInv(c, steps);
    assert Sits(g.south, m, AtWorker(w));
    if g.south.workers[w].Holding? {
      var smsc := FreshSmsc(g.south.owner);
      SucceedLetsGo(c, g.reg, g.south, w, smsc);
      steps', g' := Do(c, steps, g, OfWorker(w, Succeed(smsc)), m);
    } else {
      GiveBackLetsGo(c, g.reg, g.south, w);
      steps', g' := Do(c, steps, g, OfWorker(w, GiveBack(0)), m);
    }
  }

  lemma SucceedLetsGo(c: Config, r: Registry, s: South, w: WorkerId, smsc: SmscId)
    requires w in s.workers && s.workers[w].Holding? && smsc !in s.owner
    ensures var o := WorkStep(c, r, s, w, Succeed(smsc)); o.Goes? && At(o.south, s.workers[w].task.msg, Forwarded)
  {
  }

  lemma GiveBackLetsGo(c: Config, r: Registry, s: South, w: WorkerId)
    requires w in s.workers && s.workers[w].Failing?
    ensures var o, m := WorkStep(c, r, s, w, GiveBack(0)), s.workers[w].task.msg;
            o.Goes? && m in o.south.place && !o.south.place[m].AtWorker?
  {
    var task := s.workers[w].task;
    RetryGoes(c, s.(workers := s.workers[w := Releasing(task)]), task.msg, IdOf(r, task.sess), 0);
  }

  // ---- The drainer goes on ---------------------------------------------------

  lemma FromQueue(c: Config, steps: seq<GatewayStep>, g: State, m: MsgId, key: (Time, MsgId))
    returns (steps': seq<GatewayStep>, g': State)
    requires Run(c, steps) == Some(g) && At(g.south, m, InRetryQueue(key))
    ensures steps <= steps' && Run(c, steps') == Some(g') && Moved(c, g, g', m)
  {
    RunKeepsInv(c, steps);
    assert Sits(g.south, m, InRetryQueue(key));
    steps', g' := Do(c, steps, g, OfDrainer(Fetch(key)), m);
  }

  function DrainStage(d: Drain): nat {
    match d
    case HeadAnswered(_, _) => 2
    case HeadLinked(_, _) => 1
    case _ => 0
  }

  /** What the drainer can do next. */
  function NextDrain(d: Drain, smsc: SmscId): DrainOp {
    match d
    case Ready => SucceedHead(smsc)
    case HeadFailed => GiveBackHead(0)
    case HeadAnswered(_, _) => LinkHead
    case HeadLinked(_, _) => PersistHead
  }

  ghost predicate DrainsOn(s: South, o: Outcome) {
    && o.Goes? && o.south.removing == s.removing
    && (if DrainStage(s.drain) > 0
        then o.south.finished == s.finished && DrainStage(o.south.drain) < DrainStage(s.drain)
        else o.south.finished == s.finished + 1)
  }

  lemma SucceedHeadDrainsOn(c: Config, s: South, smsc: SmscId)
    requires s.held != [] && smsc !in s.owner && s.drain.Ready?
    ensures DrainsOn(s, DrainStep(c, s, SucceedHead(smsc)))
  {
  }

  lemma GiveBackHeadDrainsOn(c: Config, s: South, smsc: SmscId)
    requires s.held != [] && smsc !in s.owner && s.drain.HeadFailed?
    ensures DrainsOn(s, DrainStep(c, s, GiveBackHead(0)))
  {
    var p := s.held[0];
    RetryGoes(c, s.(held := s.held[1..], finished := s.finished + 1, drain := Ready), p.msg, p.conn, p.retryCount);
  }

  lemma LinkHeadDrainsOn(c: Config, s: South, smsc: SmscId)
    requires s.held != [] && smsc !in s.owner && s.drain.HeadAnswered?
    ensures DrainsOn(s, DrainStep(c, s, LinkHead))
  {
  }

  lemma PersistHeadDrainsOn(c: Config, s: South, smsc: SmscId)
    requires s.held != [] && smsc !in s.owner && s.drain.HeadLinked?
    ensures DrainsOn(s, DrainStep(c, s, PersistHead))
  {
  }

  lemma DrainGoesOn(c: Config, s: South, smsc: SmscId)
    requires s.held != [] && smsc !in s.owner
    ensures DrainsOn(s, DrainStep(c, s, NextDrain(s.drain, smsc)))
  {
    match s.drain
    case Ready => SucceedHeadDrainsOn(c, s, smsc);
    case HeadFailed => GiveBackHeadDrainsOn(c, s, smsc);
    case HeadAnswered(_, _) => LinkHeadDrainsOn(c, s, smsc);
    case HeadLinked(_, _) => PersistHeadDrainsOn(c, s, smsc);
  }

  /** The drainer works through what it holds up to the message. */
  lemma {:induction false} FromDrainer(c: Config, steps: seq<GatewayStep>, g: State, m: MsgId, n: nat)
    returns (steps': seq<GatewayStep>, g': State)
    requires Run(c, steps) == Some(g) && At(g.south, m, AtDrainer(n))
    ensures steps <= steps' && Run(c, steps') == Some(g') && Moved(c, g, g', m)
    decreases n - g.south.finished, DrainStage(g.south.drain), g.south.removing
  {
    IsHeld(c, steps, g, m, n);
    var s1, g1;
    if g.south.removing > 0 {
      s1, g1 := Do(c, steps, g, OfCounter(false), m);
    } else {
      var smsc := FreshSmsc(g.south.owner);
      DrainGoesOn(c, g.south, smsc);
      s1, g1 := Do(c, steps, g, OfDrainer(NextDrain(g.south.drain, smsc)), m);
    }
    if Moved(c, g, g1, m) {
      steps', g' := s1, g1;
    } else {
      IsHeld(c, s1, g1, m, n);
      steps', g' := FromDrainer(c, s1, g1, m, n);
    }
  }

  lemma IsHeld(c: Config, steps: seq<GatewayStep>, g: State, m: MsgId, n: nat)
    requires Run(c, steps) == Some(g) && At(g.south, m, AtDrainer(n))
    ensures g.south.held != [] && g.south.finished <= n < g.south.finished + |g.south.held|
  {
    RunKeepsInv(c, steps);
    assert Sits(g.south, m, AtDrainer(n));
  }

  // ---- Every message can finish ----------------------------------------------

  ghost predicate Finished(g: State, m: MsgId) {
    Sits(g.south, m, Forwarded) || Sits(g.south, m, Failed)
  }

  /** A message that has no outcome yet can move on. */
  lemma MovesOn(c: Config, steps: seq<GatewayStep>, g: State, m: MsgId)
    returns (steps': seq<GatewayStep>, g': State)
    requires Run(c, steps) == Some(g) && m in g.south.place && c.workers > 0
    requires g.south.place[m] != Forwarded && g.south.place[m] != Failed
    ensures steps <= steps' && Run(c, steps') == Some(g') && Moved(c, g, g', m)
  {
    match g.south.place[m]
    case Enqueuing(x) => steps', g' := FromSubmit(c, steps, g, m, x);
    case InChannel(n) => steps', g' := FromChannel(c, steps, g, m, n);
    case AtWorker(w) => steps', g' := FromWorker(c, steps, g, m, w);
    case InRetryQueue(key) => steps', g' := FromQueue(c, steps, g, m, key);
    case AtDrainer(n) => steps', g' := FromDrainer(c, steps, g, m, n);
  }

  lemma RankIs(c: Config, steps: seq<GatewayStep>, g: State, m: MsgId)
    requires Run(c, steps) == Some(g) && 1 <= m <= g.south.nextMsg
    ensures m in g.south.place && Rank(c, g.south, m) >= 0
    ensures Rank(c, g.south, m) == 0 ==> Finished(g, m)
    ensures Rank(c, g.south, m) > 0 ==> g.south.place[m] != Forwarded && g.south.place[m] != Failed
  {
    RunKeepsInv(c, steps);
    KnowsAll(c, g.south, m);
    RankBounds(c, g.south, m);
  }

  /** After any run, there is a continuation in which the message is forwarded or has failed. */
  lemma {:induction false} CanFinish(c: Config, steps: seq<GatewayStep>, g: State, m: MsgId)
    returns (steps': seq<GatewayStep>, g': State)
    requires Run(c, steps) == Some(g) && 1 <= m <= g.south.nextMsg && c.workers > 0
    ensures steps <= steps' && Run(c, steps') == Some(g') && Finished(g', m)
    decreases if m in g.south.place then Rank(c, g.south, m) else 0
  {
    RankIs(c, steps, g, m);
    if Rank(c, g.south, m) == 0 {
      steps', g' := steps, g;
    } else {
      var s1, g1 := MovesOn(c, steps, g, m);
      PlacedIsAccepted(c, s1, g1, m);
      RankIs(c, s1, g1, m);
      steps', g' := CanFinish(c, s1, g1, m);
    }
  }

  lemma PlacedIsAccepted(c: Config, steps: seq<GatewayStep>, g: State, m: MsgId)
    requires Run(c, steps) == Some(g) && m in g.south.place
    ensures 1 <= m <= g.south.nextMsg
  {
    RunKeepsInv(c, steps);
  }
}
