/** Runs that reach each of the two outcomes: what is proved of every run is not proved of none. */
module SampleRuns {
  import opened Octets
  import opened Options
  import opened Sessions
  import opened Southbound
  import opened Northbound
  import opened Conservation
  import opened Gateway
  import Progress

  lemma TakeStep(c: Config, steps: seq<GatewayStep>, g: State, step: GatewayStep) returns (steps': seq<GatewayStep>, g': State)
    requires Run(c, steps) == Some(g) && Advance(c, g, step).Some?
    ensures Run(c, steps') == Some(g') && Some(g') == Advance(c, g, step)
  {
    steps', g' := steps + [step], Advance(c, g, step).value;
    Progress.OneMoreStep(c, steps, g, step, g');
  }

  /** Nothing was ever retried. */
  ghost predicate CounterIdle(s: South) {
    s.retryQueue == map[] && s.retryCounter == 0 && s.adding == 0 && s.removing == 0
  }

  /** Session 0 is bound as `id` and nothing else has happened but what is said of the south side. */
  ghost predicate Quietly(c: Config, id: ConnId, steps: seq<GatewayStep>, g: State) {
    && Run(c, steps) == Some(g)
    && g.reg.conns == map[id := 0] && g.reg.bound == map[0 := id] && g.reg.torn == {}
    && g.south.workers == map[] && g.south.owner == map[] && CounterIdle(g.south)
    && g.north.calls == map[] && g.north.sent == {}
  }

  lemma Binds(c: Config, id: ConnId) returns (steps: seq<GatewayStep>, g: State)
    requires id != ""
    ensures Quietly(c, id, steps, g) && g.south == QUIET
  {
    steps, g := TakeStep(c, [], START, BindSession(0, id));
  }

  lemma Accepts(c: Config, id: ConnId) returns (steps: seq<GatewayStep>, g: State)
    requires id != ""
    ensures Quietly(c, id, steps, g) && g.south.channel == [] && g.south.submits == map[0 := Accepted(Some(0), 1)]
  {
    steps, g := Binds(c, id);
    steps, g := TakeStep(c, steps, g, GoSouth(OfSubmit(0, Lookup), 0));
    steps, g := TakeStep(c, steps, g, GoSouth(OfSubmit(0, Accept), 0));
  }

  lemma Counts(c: Config, id: ConnId) returns (steps: seq<GatewayStep>, g: State)
    requires id != ""
    ensures Quietly(c, id, steps, g) && g.south.channel == [] && g.south.submits == map[0 := Counted(Some(0), 1)]
  {
    steps, g := Accepts(c, id);
    steps, g := TakeStep(c, steps, g, GoSouth(OfSubmit(0, Correlate), 0));
    steps, g := TakeStep(c, steps, g, GoSouth(OfSubmit(0, Count), 0));
  }

  /** Session 0 submits a message, which is accepted and queued. */
  lemma Queues(c: Config, id: ConnId) returns (steps: seq<GatewayStep>, g: State)
    requires id != "" && c.queueSize > 0 && c.workers > 0
    ensures Quietly(c, id, steps, g) && g.south.channel == [Task(Some(0), 1)]
  {
    steps, g := Counts(c, id);
    steps, g := TakeStep(c, steps, g, GoSouth(OfSubmit(0, Enqueue), 0));
  }

  lemma Forwards(c: Config, id: ConnId, smsc: SmscId) returns (steps: seq<GatewayStep>, g: State)
    requires id != "" && c.queueSize > 0 && c.workers > 0
    ensures Run(c, steps) == Some(g) && Sits(g.south, 1, Forwarded)
  {
    steps, g := Queues(c, id);
    steps, g := TakeStep(c, steps, g, GoSouth(OfWorker(0, Take), 0));
    steps, g := TakeStep(c, steps, g, GoSouth(OfWorker(0, Succeed(smsc)), 0));
  }

  lemma Unroutes(c: Config, id: ConnId) returns (steps: seq<GatewayStep>, g: State)
    requires id != "" && c.queueSize > 0 && c.workers > 0
    ensures Run(c, steps) == Some(g) && g.reg.conns == map[id := 0] && g.reg.bound == map[0 := id]
    ensures g.north.calls == map[] && g.north.sent == {} && g.south.workers == map[0 := Failing(Task(Some(0), 1))]
    ensures CounterIdle(g.south)
  {
    steps, g := Queues(c, id);
    steps, g := TakeStep(c, steps, g, GoSouth(OfWorker(0, Take), 0));
    steps, g := TakeStep(c, steps, g, GoSouth(OfWorker(0, Unrouted), 0));
  }

  /** Without retries a message that no route takes fails, and its engine is told. */
  lemma Fails(c: Config, id: ConnId) returns (steps: seq<GatewayStep>, g: State)
    requires id != "" && c.queueSize > 0 && c.workers > 0 && c.maxSubmitRetries == 0
    ensures Run(c, steps) == Some(g) && Sits(g.south, 1, Failed) && (id, 1) in g.north.sent
  {
    steps, g := Unroutes(c, id);
    steps, g := TakeStep(c, steps, g, GoSouth(OfWorker(0, GiveBack(0)), 0));
    steps, g := TakeStep(c, steps, g, GoNorth(Try(0)));
  }

  /**
   * With retries, a worker that has written to the durable queue but not yet counted it, and a drain
   * in between: the counter of the empty queue is -1.
   */
  lemma CounterBelowZero(c: Config, id: ConnId) returns (steps: seq<GatewayStep>, g: State)
    requires id != "" && c.queueSize > 0 && c.workers > 0 && c.maxSubmitRetries > 0
    ensures Run(c, steps) == Some(g) && g.south.retryQueue == map[] && g.south.retryCounter == -1
  {
    steps, g := Unroutes(c, id);
    steps, g := TakeStep(c, steps, g, GoSouth(OfWorker(0, GiveBack(0)), 0));
    steps, g := TakeStep(c, steps, g, GoSouth(OfDrainer(Fetch((0, 1))), 0));
    steps, g := TakeStep(c, steps, g, GoSouth(OfCounter(false), 0));
  }
}
