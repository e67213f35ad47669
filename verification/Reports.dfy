/** No receipt disappears, and engines learn of every failure (gateway/router.go, gateway/store.go). */
module Reports {
  import opened Octets
  import opened Options
  import opened Sessions
  import opened Southbound
  import opened Northbound
  import opened Conservation
  import opened Affinity
  import opened Gateway
  import Progress

  /** A receipt for `m` was written to an engine. */
  ghost predicate Told(n: North, m: MsgId) {
    exists conn :: (conn, m) in n.sent
  }

  ghost predicate Calling(calls: map<nat, Call>, m: MsgId) {
    exists k :: k in calls && calls[k].pd.report == Some(m)
  }

  ghost predicate Buffered(queue: map<(Time, string), PendingDeliver>, m: MsgId) {
    exists key :: key in queue && queue[key].report == Some(m)
  }

  ghost predicate Drained(held: seq<PendingDeliver>, m: MsgId) {
    exists i :: 0 <= i < |held| && held[i].report == Some(m)
  }

  /** A receipt for `m` is being delivered, buffered, or held by the drain. */
  ghost predicate Waits(n: North, m: MsgId) {
    Calling(n.calls, m) || Buffered(n.queue, m) || Drained(n.held, m)
  }

  /** A receipt for `m` exists and has not disappeared, unless it was overwritten or expired in the queue. */
  ghost predicate Reported(n: North, m: MsgId) {
    Told(n, m) || Waits(n, m) || m in n.lost
  }

  ghost predicate CallTold(n: North, k: Call) {
    k.written && k.pd.report.Some? ==> Told(n, k.pd.report.value)
  }

  ghost predicate HeadTold(n: North) {
    n.headWritten ==> n.held != [] && (n.held[0].report.Some? ==> Told(n, n.held[0].report.value))
  }

  /** What is marked as written was written. */
  ghost predicate InvWritten(n: North) {
    (forall k :: k in n.calls ==> CallTold(n, n.calls[k])) && HeadTold(n)
  }

  // ---- Northbound steps -------------------------------------------------------

  lemma Sends(n: North, conn: ConnId, pd: PendingDeliver, m: MsgId)
    ensures pd.report.Some? ==> Told(Send(n, conn, pd), pd.report.value)
    ensures Told(n, m) ==> Told(Send(n, conn, pd), m)
  {
    if pd.report.Some? {
      assert (conn, pd.report.value) in Send(n, conn, pd).sent;
    }
    if Told(n, m) {
      var c :| (c, m) in n.sent;
      assert (c, m) in Send(n, conn, pd).sent;
    }
  }

  /** What is written stays written, and a call that is marked now has been written now. */
  lemma SendKeepsWritten(n: North, conn: ConnId, pd: PendingDeliver)
    requires forall k :: k in n.calls && n.calls[k].pd != pd ==> CallTold(n, n.calls[k])
    requires n.headWritten ==> n.held != [] && (n.held[0] == pd || HeadTold(n))
    ensures InvWritten(Send(n, conn, pd))
  {
    var n' := Send(n, conn, pd);
    forall k | k in n'.calls ensures CallTold(n', n'.calls[k]) {
      var q := n.calls[k].pd;
      if q.report.Some? {
        Sends(n, conn, pd, q.report.value);
      }
    }
    if n.headWritten && n.held[0].report.Some? {
      Sends(n, conn, pd, n.held[0].report.value);
    }
  }

  lemma SendKeepsReported(n: North, conn: ConnId, pd: PendingDeliver, m: MsgId)
    requires Reported(n, m)
    ensures Reported(Send(n, conn, pd), m)
  {
    Sends(n, conn, pd, m);
  }

  lemma MarkCall(calls: map<nat, Call>, call: nat, k: Call, m: MsgId)
    requires call in calls && k.pd == calls[call].pd && Calling(calls, m)
    ensures Calling(calls[call := k], m)
  {
    var j :| j in calls && calls[j].pd.report == Some(m);
    assert j in calls[call := k];
  }

  lemma StartCall(calls: map<nat, Call>, call: nat, k: Call, m: MsgId)
    requires call !in calls
    ensures Calling(calls, m) ==> Calling(calls[call := k], m)
    ensures k.pd.report == Some(m) ==> Calling(calls[call := k], m)
  {
    assert call in calls[call := k];
    if Calling(calls, m) {
      var j :| j in calls && calls[j].pd.report == Some(m);
      assert j in calls[call := k];
    }
  }

  lemma DropCall(calls: map<nat, Call>, call: nat, m: MsgId)
    requires call in calls && Calling(calls, m) && calls[call].pd.report != Some(m)
    ensures Calling(calls - {call}, m)
  {
    var j :| j in calls && calls[j].pd.report == Some(m);
    assert j in calls - {call};
  }

  lemma DropHead(held: seq<PendingDeliver>, m: MsgId)
    requires held != [] && Drained(held, m) && held[0].report != Some(m)
    ensures Drained(held[1..], m)
  {
    var i :| 0 <= i < |held| && held[i].report == Some(m);
    assert held[1..][i - 1] == held[i];
  }

  lemma PutIsReported(n: North, key: (Time, string), pd: PendingDeliver, m: MsgId)
    requires Reported(n, m) || pd.report == Some(m)
    ensures Reported(Put(n, key, pd), m)
  {
    var n' := Put(n, key, pd);
    if pd.report == Some(m) {
      assert key in n'.queue && n'.queue[key].report == Some(m);
    } else if Buffered(n.queue, m) && m !in n'.lost {
      var j :| j in n.queue && n.queue[j].report == Some(m);
      assert j != key;
      assert j in n'.queue;
    }
  }

  lemma StartsKeep(r: Registry, n: North, op: NorthOp, n': North, m: MsgId)
    requires InvWritten(n) && NorthStep(r, n, op) == Some(n')
    requires op.Receipt? || op.MobileOriginated?
    ensures InvWritten(n') && (Reported(n, m) ==> Reported(n', m))
  {
    StartCall(n.calls, op.call, n'.calls[op.call], m);
  }

  lemma TryKeeps(r: Registry, n: North, call: nat, n': North, m: MsgId)
    requires InvWritten(n) && NorthStep(r, n, Try(call)) == Some(n')
    ensures InvWritten(n') && (Reported(n, m) ==> Reported(n', m))
  {
    var k := n.calls[call];
    var k' := k.(tried := true, written := k.pd.target in r.conns);
    var n1 := n.(calls := n.calls[call := k']);
    if Calling(n.calls, m) {
      MarkCall(n.calls, call, k', m);
    }
    if k'.written {
      SendKeepsWritten(n1, k.pd.target, k.pd);
      if Reported(n, m) {
        SendKeepsReported(n1, k.pd.target, k.pd, m);
      }
    }
  }

  lemma FallBackKeeps(r: Registry, n: North, call: nat, other: ConnId, n': North, m: MsgId)
    requires InvWritten(n) && NorthStep(r, n, FallBack(call, other)) == Some(n')
    ensures InvWritten(n') && (Reported(n, m) ==> Reported(n', m))
  {
    var k := n.calls[call];
    var n1 := n.(calls := n.calls[call := k.(written := true)]);
    if Calling(n.calls, m) {
      MarkCall(n.calls, call, k.(written := true), m);
    }
    SendKeepsWritten(n1, other, k.pd);
    if Reported(n, m) {
      SendKeepsReported(n1, other, k.pd, m);
    }
  }

  lemma EndCallKeeps(r: Registry, n: North, call: nat, n': North, m: MsgId)
    requires InvWritten(n) && NorthStep(r, n, EndCall(call)) == Some(n')
    ensures InvWritten(n') && (Reported(n, m) ==> Reported(n', m))
  {
    assert CallTold(n, n.calls[call]);
    if Calling(n.calls, m) && n.calls[call].pd.report != Some(m) {
      DropCall(n.calls, call, m);
    }
  }

  lemma BufferKeeps(r: Registry, n: North, call: nat, key: (Time, string), n': North, m: MsgId)
    requires InvWritten(n) && NorthStep(r, n, Buffer(call, key)) == Some(n')
    ensures InvWritten(n') && (Reported(n, m) ==> Reported(n', m))
  {
    var pd := n.calls[call].pd;
    var n1 := n.(calls := n.calls - {call});
    if Calling(n.calls, m) && pd.report != Some(m) {
      DropCall(n.calls, call, m);
    }
    if Reported(n, m) {
      PutIsReported(n1, key, pd, m);
    }
  }

  lemma ExpireKeeps(r: Registry, n: North, key: (Time, string), n': North, m: MsgId)
    requires InvWritten(n) && NorthStep(r, n, Expire(key)) == Some(n')
    ensures InvWritten(n') && (Reported(n, m) ==> Reported(n', m))
  {
    if Buffered(n.queue, m) && m !in n'.lost {
      var j :| j in n.queue && n.queue[j].report == Some(m);
      assert j in n'.queue;
    }
  }

  lemma FetchKeeps(r: Registry, n: North, key: (Time, string), n': North, m: MsgId)
    requires InvWritten(n) && NorthStep(r, n, FetchNorth(key)) == Some(n')
    ensures InvWritten(n') && (Reported(n, m) ==> Reported(n', m))
  {
    if Buffered(n.queue, m) {
      var j :| j in n.queue && n.queue[j].report == Some(m);
      if j == key {
        assert n'.held[|n.held|].report == Some(m);
      } else {
        assert j in n'.queue;
      }
    }
    if Drained(n.held, m) {
      var i :| 0 <= i < |n.held| && n.held[i].report == Some(m);
      assert n'.held[i].report == Some(m);
    }
  }

  lemma TryHeadKeeps(r: Registry, n: North, op: NorthOp, n': North, m: MsgId)
    requires InvWritten(n) && NorthStep(r, n, op) == Some(n') && (op.TryHead? || op.FallBackHead?)
    ensures InvWritten(n') && (Reported(n, m) ==> Reported(n', m))
  {
    var n1, conn := n.(headWritten := true), if op.TryHead? then n.held[0].target else op.other;
    SendKeepsWritten(n1, conn, n.held[0]);
    if Reported(n, m) {
      SendKeepsReported(n1, conn, n.held[0], m);
    }
  }

  lemma EndHeadKeeps(r: Registry, n: North, n': North, m: MsgId)
    requires InvWritten(n) && NorthStep(r, n, EndHead) == Some(n')
    ensures InvWritten(n') && (Reported(n, m) ==> Reported(n', m))
  {
    if Drained(n.held, m) && n.held[0].report != Some(m) {
      DropHead(n.held, m);
    }
  }

  lemma BufferHeadKeeps(r: Registry, n: North, key: (Time, string), n': North, m: MsgId)
    requires InvWritten(n) && NorthStep(r, n, BufferHead(key)) == Some(n')
    ensures InvWritten(n') && (Reported(n, m) ==> Reported(n', m))
  {
    var n1 := n.(held := n.held[1..], headWritten := false);
    if Drained(n.held, m) && n.held[0].report != Some(m) {
      DropHead(n.held, m);
    }
    if Reported(n, m) {
      PutIsReported(n1, key, n.held[0], m);
    }
  }

  /** No northbound step makes a receipt disappear. */
  lemma NorthKeepsReported(r: Registry, n: North, op: NorthOp, n': North, m: MsgId)
    requires InvWritten(n) && NorthStep(r, n, op) == Some(n')
    ensures InvWritten(n') && (Reported(n, m) ==> Reported(n', m))
  {
    match op
    case Receipt(_, _, _) => StartsKeep(r, n, op, n', m);
    case MobileOriginated(_, _, _) => StartsKeep(r, n, op, n', m);
    case Try(call) => TryKeeps(r, n, call, n', m);
    case FallBack(call, other) => FallBackKeeps(r, n, call, other, n', m);
    case EndCall(call) => EndCallKeeps(r, n, call, n', m);
    case Buffer(call, key) => BufferKeeps(r, n, call, key, n', m);
    case Expire(key) => ExpireKeeps(r, n, key, n', m);
    case FetchNorth(key) => FetchKeeps(r, n, key, n', m);
    case TryHead => TryHeadKeeps(r, n, op, n', m);
    case FallBackHead(_) => TryHeadKeeps(r, n, op, n', m);
    case EndHead => EndHeadKeeps(r, n, n', m);
    case BufferHead(key) => BufferHeadKeeps(r, n, key, n', m);
    case _ =>
  }

  // ---- Southbound steps -------------------------------------------------------

  lemma AbsorbKeepsReported(n: North, e: Effect, call: nat, n': North, m: MsgId)
    requires InvWritten(n) && Absorb(n, e, call) == Some(n')
    ensures InvWritten(n') && (Reported(n, m) ==> Reported(n', m))
    ensures e.Notify? && e.msg == m ==> Reported(n', m)
  {
    if e.Notify? {
      StartCall(n.calls, call, n'.calls[call], m);
    }
  }

  ghost predicate FailsNow(s: South, s': South, m: MsgId) {
    Synthetic(m) in s'.log && Synthetic(m) !in s.log
  }

  lemma SubmitNotifies(c: Config, r: Registry, s: South, x: SessionId, op: SubmitOp, s': South, e: Effect, m: MsgId)
    requires SubmitStep(c, r, s, x, op) == Goes(s', e)
    ensures FailsNow(s, s', m) ==> e.Notify? && e.msg == m
  {
  }

  lemma WorkNotifies(c: Config, r: Registry, s: South, w: WorkerId, op: WorkOp, s': South, e: Effect, m: MsgId)
    requires WorkStep(c, r, s, w, op) == Goes(s', e)
    ensures FailsNow(s, s', m) ==> e.Notify? && e.msg == m
  {
  }

  lemma DrainNotifies(c: Config, s: South, op: DrainOp, s': South, e: Effect, m: MsgId)
    requires DrainStep(c, s, op) == Goes(s', e)
    ensures FailsNow(s, s', m) ==> e.Notify? && e.msg == m
  {
  }

  /** A message fails only in a step that starts the delivery of its failure receipt. */
  lemma FailureNotifies(c: Config, r: Registry, s: South, st: Step, s': South, e: Effect, m: MsgId)
    requires Next(c, r, s, st) == Goes(s', e)
    ensures FailsNow(s, s', m) ==> e.Notify? && e.msg == m
  {
    match st
    case OfSubmit(x, op) => SubmitNotifies(c, r, s, x, op, s', e, m);
    case OfWorker(w, op) => WorkNotifies(c, r, s, w, op, s', e, m);
    case OfDrainer(op) => DrainNotifies(c, s, op, s', e, m);
    case OfCounter(add) => CounterKeepsLog(s, add, s', e);
  }

  lemma CounterKeepsLog(s: South, add: bool, s': South, e: Effect)
    requires CounterStep(s, add) == Goes(s', e)
    ensures s'.log == s.log
  {
  }

  // ---- Runs -------------------------------------------------------------------

  /** No step of any goroutine makes a receipt disappear. */
  lemma StepKeepsReported(c: Config, g: State, step: GatewayStep, g': State, m: MsgId)
    requires InvWritten(g.north) && Advance(c, g, step) == Some(g')
    ensures InvWritten(g'.north) && (Reported(g.north, m) ==> Reported(g'.north, m))
    ensures FailsNow(g.south, g'.south, m) ==> Reported(g'.north, m)
  {
    match step
    case BindSession(_, _) =>
    case TearDown(_) =>
    case GoSouth(st, call) =>
      var o := Next(c, g.reg, g.south, st);
      AbsorbKeepsReported(g.north, o.effect, call, g'.north, m);
      FailureNotifies(c, g.reg, g.south, st, o.south, o.effect, m);
    case GoNorth(op) => NorthKeepsReported(g.reg, g.north, op, g'.north, m);
  }

  lemma {:induction false} RunReports(c: Config, steps: seq<GatewayStep>, m: MsgId)
    ensures Run(c, steps).Some? ==>
      var g := Run(c, steps).value;
      InvWritten(g.north) && (Sits(g.south, m, Failed) ==> Reported(g.north, m))
  {
    if steps != [] && Run(c, steps).Some? {
      var n := |steps| - 1;
      RunReports(c, steps[..n], m);
      StepKeepsReported(c, Run(c, steps[..n]).value, steps[n], Run(c, steps).value, m);
    }
  }

  /** A receipt written to an engine was written to the one that submitted the message. */
  ghost predicate ToldSubmitter(g: State, m: MsgId) {
    m in g.south.origin && (g.south.origin[m], m) in g.north.sent
  }

  /**
   * Engines learn of every failure: after any run, the receipt of a failed message was written to the
   * engine that submitted it, or is still on its way, or was overwritten or expired in the queue.
   */
  lemma FailedIsReported(c: Config, steps: seq<GatewayStep>, g: State, m: MsgId)
    requires Run(c, steps) == Some(g) && Sits(g.south, m, Failed)
    ensures ToldSubmitter(g, m) || Waits(g.north, m) || m in g.north.lost
  {
    RunReports(c, steps, m);
    if Told(g.north, m) {
      var conn :| (conn, m) in g.north.sent;
      ReceiptsGoHome(c, steps, g, conn, m);
    }
  }

  /** Once there is a receipt for a message, no continuation of the run makes it disappear. */
  lemma {:induction false} ReceiptKept(c: Config, steps: seq<GatewayStep>, more: seq<GatewayStep>, m: MsgId)
    requires Run(c, steps).Some? && Reported(Run(c, steps).value.north, m)
    ensures Run(c, steps + more).Some? ==> Reported(Run(c, steps + more).value.north, m)
  {
    if more == [] {
      assert steps + more == steps;
    } else if Run(c, steps + more).Some? {
      var n := |more| - 1;
      assert (steps + more)[..|steps + more| - 1] == steps + more[..n];
      ReceiptKept(c, steps, more[..n], m);
      RunReports(c, steps + more[..n], m);
      StepKeepsReported(c, Run(c, steps + more[..n]).value, more[n], Run(c, steps + more).value, m);
    }
  }

  /** The steps that lose a buffered receipt. */
  ghost predicate Loses(g: State, step: GatewayStep) {
    step.GoNorth? && (step.op.Expire? || ((step.op.Buffer? || step.op.BufferHead?) && step.op.key in g.north.queue))
  }

  /** Receipts are lost in no other way: what is lost after a step was lost before, or the step loses it. */
  lemma LostOnlyInQueue(c: Config, g: State, step: GatewayStep, g': State)
    requires Advance(c, g, step) == Some(g') && !Loses(g, step)
    ensures g'.north.lost == g.north.lost
  {
    match step
    case BindSession(_, _) =>
    case TearDown(_) =>
    case GoSouth(st, call) =>
      var o := Next(c, g.reg, g.south, st);
      LostByAbsorb(g.north, o.effect, call, g'.north);
    case GoNorth(op) =>
      if op.Buffer? || op.BufferHead? {
        LostByPut(g.reg, g.north, op, g'.north);
      } else {
        LostByNorth(g.reg, g.north, op, g'.north);
      }
  }

  lemma LostByAbsorb(n: North, e: Effect, call: nat, n': North)
    requires Absorb(n, e, call) == Some(n')
    ensures n'.lost == n.lost
  {
  }

  lemma LostByPut(r: Registry, n: North, op: NorthOp, n': North)
    requires NorthStep(r, n, op) == Some(n') && (op.Buffer? || op.BufferHead?) && op.key !in n.queue
    ensures n'.lost == n.lost
  {
  }

  lemma LostByNorth(r: Registry, n: North, op: NorthOp, n': North)
    requires NorthStep(r, n, op) == Some(n') && !op.Expire? && !op.Buffer? && !op.BufferHead?
    ensures n' == n.(gwCorr := n'.gwCorr, smscCorr := n'.smscCorr, records := n'.records, calls := n'.calls,
                     queue := n'.queue, held := n'.held, headWritten := n'.headWritten, sent := n'.sent)
  {
  }

  // ---- Receipts are relayed -----------------------------------------------------

  lemma TwoMoreSteps(c: Config, steps: seq<GatewayStep>, g: State, a: GatewayStep, g1: State, b: GatewayStep, g2: State)
    requires Run(c, steps) == Some(g) && Advance(c, g, a) == Some(g1) && Advance(c, g1, b) == Some(g2)
    ensures Run(c, steps + [a, b]) == Some(g2)
  {
    Progress.OneMoreStep(c, steps, g, a, g1);
    Progress.OneMoreStep(c, steps + [a], g1, b, g2);
    assert steps + [a] + [b] == steps + [a, b];
  }

  /** A call for a receipt, tried while the engine of the submitter is registered, tells that engine. */
  lemma TryTells(r: Registry, n: North, call: nat, conn: ConnId, m: MsgId)
    requires call in n.calls && !n.calls[call].tried && conn in r.conns
    requires n.calls[call].pd.target == conn && n.calls[call].pd.report == Some(m)
    ensures NorthStep(r, n, Try(call)).Some? && (conn, m) in NorthStep(r, n, Try(call)).value.sent
  {
  }

  lemma ReceiptStarts(r: Registry, n: North, smsc: SmscId, esm: Byte, call: nat, corr: Corr)
    requires IsDlr(esm) && call !in n.calls
    requires || (smsc in n.smscCorr && n.smscCorr[smsc] == corr)
             || (smsc !in n.smscCorr && smsc in n.records && n.records[smsc] == corr)
    ensures NorthStep(r, n, Receipt(smsc, esm, call)) ==
            Some(n.(calls := n.calls[call := Call(PendingDeliver(corr.conn, esm, Some(corr.msg)), true, false, false)]))
  {
  }

  /** The message that got this downstream ID, if its submit found the session of its engine. */
  ghost predicate Answers(g: State, smsc: SmscId, m: MsgId, conn: ConnId) {
    smsc in g.south.owner && g.south.owner[smsc] == m && m !in g.south.unheard && m in g.south.origin && g.south.origin[m] == conn
  }

  lemma CorrelationIs(c: Config, steps: seq<GatewayStep>, g: State, smsc: SmscId, corr: Corr, m: MsgId, conn: ConnId)
    requires Run(c, steps) == Some(g) && Answers(g, smsc, m, conn)
    requires || (smsc in g.north.smscCorr && g.north.smscCorr[smsc] == corr)
             || (smsc in g.north.records && g.north.records[smsc] == corr)
    ensures corr == Corr(m, conn)
  {
    RunKeepsInv(c, steps);
    assert CorrOk(TrailOf(g.south), smsc, corr);
  }

  /**
   * A receipt for a known downstream ID is relayed: after any run, if the engine that submitted the
   * message is registered, the receipt is started, and its first delivery writes it to that engine.
   */
  lemma ReceiptRelayed(c: Config, steps: seq<GatewayStep>, g: State, smsc: SmscId, esm: Byte, call: nat, m: MsgId, conn: ConnId)
    requires Run(c, steps) == Some(g) && Answers(g, smsc, m, conn) && (smsc in g.north.smscCorr || smsc in g.north.records)
    requires conn in g.reg.conns && IsDlr(esm) && call !in g.north.calls
    ensures Run(c, steps + [GoNorth(Receipt(smsc, esm, call)), GoNorth(Try(call))]).Some?
    ensures (conn, m) in Run(c, steps + [GoNorth(Receipt(smsc, esm, call)), GoNorth(Try(call))]).value.north.sent
  {
    var n := g.north;
    var corr := if smsc in n.smscCorr then n.smscCorr[smsc] else n.records[smsc];
    CorrelationIs(c, steps, g, smsc, corr, m, conn);
    ReceiptStarts(g.reg, n, smsc, esm, call, corr);
    var n1 := NorthStep(g.reg, n, Receipt(smsc, esm, call)).value;
    TryTells(g.reg, n1, call, conn, m);
    var n2 := NorthStep(g.reg, n1, Try(call)).value;
    TwoMoreSteps(c, steps, g, GoNorth(Receipt(smsc, esm, call)), g.(north := n1), GoNorth(Try(call)), g.(north := n2));
  }

  lemma FetchOne(r: Registry, n: North, key: (Time, string), n': North)
    requires key in n.queue && n.held == [] && n' == n.(queue := n.queue - {key}, held := [n.queue[key]])
    ensures NorthStep(r, n, FetchNorth(key)) == Some(n')
  {
    assert n.held + [n.queue[key]] == [n.queue[key]];
  }

  lemma HeadTells(r: Registry, n: North, pd: PendingDeliver, m: MsgId)
    requires n.held == [pd] && pd.target in r.conns && pd.report == Some(m)
    ensures NorthStep(r, n, TryHead).Some? && (pd.target, m) in NorthStep(r, n, TryHead).value.sent
  {
  }

  lemma BufferedAddress(c: Config, steps: seq<GatewayStep>, g: State, key: (Time, string), m: MsgId)
    requires Run(c, steps) == Some(g) && key in g.north.queue && g.north.queue[key].report == Some(m)
    requires m !in g.south.unheard
    ensures m in g.south.origin && g.north.queue[key].target == g.south.origin[m]
  {
    RunKeepsInv(c, steps);
    assert PdOk(TrailOf(g.south), g.north.queue[key]);
  }

  /** A receipt that waits in the queue is relayed by the drain once its engine is registered again. */
  lemma BufferedIsRelayed(c: Config, steps: seq<GatewayStep>, g: State, key: (Time, string), m: MsgId)
    requires Run(c, steps) == Some(g) && key in g.north.queue && g.north.queue[key].report == Some(m) && g.north.held == []
    requires m !in g.south.unheard && m in g.south.origin && g.south.origin[m] in g.reg.conns
    ensures Run(c, steps + [GoNorth(FetchNorth(key)), GoNorth(TryHead)]).Some?
    ensures (g.south.origin[m], m) in Run(c, steps + [GoNorth(FetchNorth(key)), GoNorth(TryHead)]).value.north.sent
  {
    BufferedAddress(c, steps, g, key, m);
    var n, pd := g.north, g.north.queue[key];
    var n1 := n.(queue := n.queue - {key}, held := [pd]);
    FetchOne(g.reg, n, key, n1);
    HeadTells(g.reg, n1, pd, m);
    var n2 := NorthStep(g.reg, n1, TryHead).value;
    TwoMoreSteps(c, steps, g, GoNorth(FetchNorth(key)), g.(north := n1), GoNorth(TryHead), g.(north := n2));
  }

  /** A failure receipt is relayed by the first delivery if its engine is registered. */
  lemma CallIsRelayed(c: Config, steps: seq<GatewayStep>, g: State, call: nat, m: MsgId)
    requires Run(c, steps) == Some(g) && call in g.north.calls && !g.north.calls[call].tried
    requires g.north.calls[call].pd.report == Some(m)
    requires m !in g.south.unheard && m in g.south.origin && g.south.origin[m] in g.reg.conns
    ensures Run(c, steps + [GoNorth(Try(call))]).Some?
    ensures (g.south.origin[m], m) in Run(c, steps + [GoNorth(Try(call))]).value.north.sent
  {
    RunKeepsInv(c, steps);
    assert PdOk(TrailOf(g.south), g.north.calls[call].pd);
    TryTells(g.reg, g.north, call, g.south.origin[m], m);
    Progress.OneMoreStep(c, steps, g, GoNorth(Try(call)), g.(north := NorthStep(g.reg, g.north, Try(call)).value));
  }
}
