/**
 * The southbound path of a message, from submit_sm to a downstream SMSC or to failure
 * (gateway/router.go, gateway/store.go).
 *
 * Each step is one atomic access to shared state, and steps of different goroutines interleave
 * freely. The last group of fields is history: no step looks at it to decide what to do,
 * except that downstream IDs are not given twice.
 */
module Southbound {
  import opened Options
  import opened Sessions

  type MsgId = nat         // n of the gateway message ID "GW-n"
  type SmscId = string     // message ID given by a downstream SMSC
  type WorkerId = nat
  type Time = nat

  /** `workers` is what `StartForwardWorkers` launches. */
  datatype Config = Config(queueSize: nat, maxSubmitRetries: int, workers: nat)

  /** `forwardTask`: the connection captured at submit, if any, and the message. */
  datatype Task = Task(sess: Option<SessionId>, msg: MsgId)

  /** `PendingSubmit`. */
  datatype PendingSubmit = PendingSubmit(msg: MsgId, conn: ConnId, retryCount: nat)

  /** Where `HandleSubmit` stands in the read loop of a session. */
  datatype Submit =
    | Looked(sess: Option<SessionId>)
    | Accepted(sess: Option<SessionId>, msg: MsgId)
    | Correlated(sess: Option<SessionId>, msg: MsgId)
    | Counted(sess: Option<SessionId>, msg: MsgId)
    | Refused(sess: Option<SessionId>, msg: MsgId)
    | Uncounted(sess: Option<SessionId>, msg: MsgId)

  /** Where `forwardSubmitRaw` stands in a worker. */
  datatype Work =
    | Holding(task: Task)
    | Failing(task: Task)
    | Answered(task: Task, smsc: SmscId)
    | Linked(task: Task, smsc: SmscId)
    | Releasing(task: Task)

  /** Where `drainSubmitRetries` stands with the first message it still holds. */
  datatype Drain =
    | Ready
    | HeadFailed
    | HeadAnswered(entry: PendingSubmit, smsc: SmscId)
    | HeadLinked(entry: PendingSubmit, smsc: SmscId)

  /** Where a message is. Positions in a queue are counted from the start of the run. */
  datatype Place =
    | Enqueuing(x: SessionId)
    | InChannel(n: nat)
    | AtWorker(w: WorkerId)
    | InRetryQueue(key: (Time, MsgId))
    | AtDrainer(n: nat)
    | Forwarded
    | Failed

  /** What makes a message count as in flight for the session it was captured with. */
  datatype Carrier = BySubmit(x: SessionId) | ByChannel(n: nat) | ByWorker(w: WorkerId)

  datatype Event = Attempt(msg: MsgId, ok: bool) | Synthetic(msg: MsgId)

  datatype South = South(
    nextMsg: nat,                                      // msgSeq
    inFlight: map<SessionId, int>,                     // Connection.inFlight
    submits: map<SessionId, Submit>,
    channel: seq<Task>,                                // forwardCh
    taken: nat,
    workers: map<WorkerId, Work>,
    retryQueue: map<(Time, MsgId), PendingSubmit>,     // submit-retry:{timestamp}:{id}
    retryCounter: int,                                 // submitRetryCount
    adding: nat,                                       // writes whose Add(1) is still to come
    removing: nat,                                     // committed deletions whose Add(-n) is still to come
    held: seq<PendingSubmit>,
    finished: nat,
    drain: Drain,
    // history
    place: map<MsgId, Place>,
    flight: map<MsgId, (Carrier, SessionId)>,
    origin: map<MsgId, ConnId>,
    owner: map<SmscId, MsgId>,
    overflow: set<MsgId>,
    unheard: set<MsgId>,
    log: multiset<Event>)

  const QUIET := South(0, map[], map[], [], 0, map[], map[], 0, 0, 0, [], 0, Ready,
                       map[], map[], map[], map[], {}, {}, multiset{})

  /** What a southbound step does on the northbound side. */
  datatype Effect =
    | Nothing
    | SetGw(msg: MsgId, conn: ConnId)                      // gwCorrelation.Set
    | SetSmsc(smsc: SmscId, msg: MsgId, conn: ConnId, viaGw: bool)  // smscCorrelation.Set
    | SetRecord(smsc: SmscId, msg: MsgId, conn: ConnId)    // StoreSubmit under msg:{smscMsgID}
    | Notify(msg: MsgId, conn: ConnId)                     // sendSyntheticDLR

  datatype Outcome = Blocked | Goes(south: South, effect: Effect)

  // ---- Steps -----------------------------------------------------------------

  datatype SubmitOp = Lookup | Reject | Accept | Correlate | Count | Enqueue | Refuse | Uncount | BackOff(now: Time)

  datatype WorkOp = Take | Unrouted | Fail | Succeed(smsc: SmscId) | Link | Persist | GiveBack(now: Time) | Release

  datatype DrainOp = Fetch(key: (Time, MsgId)) | UnroutedHead | FailHead | SucceedHead(smsc: SmscId)
                   | LinkHead | PersistHead | GiveBackHead(now: Time)

  /** The ID of a captured connection; the empty string without one. */
  function IdOf(r: Registry, sess: Option<SessionId>): ConnId {
    if sess.Some? && sess.value in r.bound then r.bound[sess.value] else ""
  }

  function InFlight(s: South, x: SessionId): int {
    if x in s.inFlight then s.inFlight[x] else 0
  }

  /** `InFlightAdd` on a captured connection. */
  function InFlightAdd(s: South, sess: Option<SessionId>, delta: int): map<SessionId, int> {
    if sess.Some? then s.inFlight[sess.value := InFlight(s, sess.value) + delta] else s.inFlight
  }

  function Carry(s: South, sess: Option<SessionId>, msg: MsgId, carrier: Carrier): map<MsgId, (Carrier, SessionId)> {
    if sess.Some? then s.flight[msg := (carrier, sess.value)] else s.flight
  }

  function PutDown(s: South, sess: Option<SessionId>, msg: MsgId): map<MsgId, (Carrier, SessionId)> {
    if sess.Some? then s.flight - {msg} else s.flight
  }

  /** Whether `enqueueSubmitRetryOrFail` queues the message again. */
  predicate Retries(c: Config, retryCount: nat) {
    c.maxSubmitRetries > 0 && retryCount < c.maxSubmitRetries
  }

  /** `enqueueSubmitRetryOrFail`: back to the durable queue, or failed with a synthetic receipt. */
  function RetryOrFail(c: Config, s: South, msg: MsgId, conn: ConnId, retryCount: nat, now: Time): Outcome {
    if Retries(c, retryCount) then
      Goes(s.(retryQueue := s.retryQueue[(now, msg) := PendingSubmit(msg, conn, retryCount + 1)],
              adding := s.adding + 1,
              place := s.place[msg := InRetryQueue((now, msg))]),
           Nothing)
    else
      Goes(s.(place := s.place[msg := Failed], log := s.log + multiset{Synthetic(msg)}), Notify(msg, conn))
  }

  /** What that leaves alone. */
  lemma RetryChanges(c: Config, s: South, m: MsgId, conn: ConnId, retryCount: nat, now: Time, s': South, e: Effect)
    requires RetryOrFail(c, s, m, conn, retryCount, now) == Goes(s', e)
    ensures s' == s.(retryQueue := s'.retryQueue, adding := s'.adding, place := s'.place, log := s'.log)
  {
  }

  /** `HandleSubmit` in the read loop of session `x`, from the connection lookup on. */
  function SubmitStep(c: Config, r: Registry, s: South, x: SessionId, op: SubmitOp): Outcome {
    if x !in r.bound || x in r.torn then Blocked
    else if x !in s.submits then
      if op == Lookup then Goes(s.(submits := s.submits[x := Looked(GetConnection(r, r.bound[x]))]), Nothing)
      else Blocked
    else
      match (op, s.submits[x])
      case (Reject, Looked(_)) => Goes(s.(submits := s.submits - {x}), Nothing)
      case (Accept, Looked(sess)) =>
        var msg := s.nextMsg + 1;
        Goes(s.(nextMsg := msg, submits := s.submits[x := Accepted(sess, msg)],
                origin := s.origin[msg := r.bound[x]], place := s.place[msg := Enqueuing(x)],
                unheard := if sess.None? then s.unheard + {msg} else s.unheard),
             Nothing)
      case (Correlate, Accepted(sess, msg)) =>
        Goes(s.(submits := s.submits[x := Correlated(sess, msg)]), SetGw(msg, r.bound[x]))
      case (Count, Correlated(sess, msg)) =>
        Goes(s.(inFlight := InFlightAdd(s, sess, 1), flight := Carry(s, sess, msg, BySubmit(x)),
                submits := s.submits[x := Counted(sess, msg)]),
             Nothing)
      case (Enqueue, Counted(sess, msg)) =>
        if |s.channel| >= c.queueSize then Blocked
        else
          var n := s.taken + |s.channel|;
          Goes(s.(channel := s.channel + [Task(sess, msg)], submits := s.submits - {x},
                  flight := Carry(s, sess, msg, ByChannel(n)), place := s.place[msg := InChannel(n)]),
               Nothing)
      case (Refuse, Counted(sess, msg)) =>
        if |s.channel| < c.queueSize then Blocked
        else Goes(s.(submits := s.submits[x := Refused(sess, msg)], overflow := s.overflow + {msg}), Nothing)
      case (Uncount, Refused(sess, msg)) =>
        Goes(s.(inFlight := InFlightAdd(s, sess, -1), flight := PutDown(s, sess, msg),
                submits := s.submits[x := Uncounted(sess, msg)]),
             Nothing)
      case (BackOff(now), Uncounted(sess, msg)) =>
        RetryOrFail(c, s.(submits := s.submits - {x}), msg, r.bound[x], 0, now)
      case _ => Blocked
  }

  /** `forwardWorker` and `forwardSubmitRaw`. */
  function WorkStep(c: Config, r: Registry, s: South, w: WorkerId, op: WorkOp): Outcome {
    if w !in s.workers then
      if op != Take || s.channel == [] || w >= c.workers then Blocked
      else
        var task := s.channel[0];
        Goes(s.(channel := s.channel[1..], taken := s.taken + 1, workers := s.workers[w := Holding(task)],
                flight := Carry(s, task.sess, task.msg, ByWorker(w)), place := s.place[task.msg := AtWorker(w)]),
             Nothing)
    else
      match (op, s.workers[w])
      case (Unrouted, Holding(task)) => Goes(s.(workers := s.workers[w := Failing(task)]), Nothing)
      case (Fail, Holding(task)) =>
        Goes(s.(workers := s.workers[w := Failing(task)], log := s.log + multiset{Attempt(task.msg, false)}), Nothing)
      case (Succeed(smsc), Holding(task)) =>
        if smsc in s.owner then Blocked
        else
          Goes(s.(workers := s.workers[w := Answered(task, smsc)], owner := s.owner[smsc := task.msg],
                  place := s.place[task.msg := Forwarded], log := s.log + multiset{Attempt(task.msg, true)}),
               Nothing)
      case (Link, Answered(task, smsc)) =>
        Goes(s.(workers := s.workers[w := Linked(task, smsc)]), SetSmsc(smsc, task.msg, IdOf(r, task.sess), true))
      case (Persist, Linked(task, smsc)) =>
        Goes(s.(workers := s.workers[w := Releasing(task)]), SetRecord(smsc, task.msg, IdOf(r, task.sess)))
      case (GiveBack(now), Failing(task)) =>
        RetryOrFail(c, s.(workers := s.workers[w := Releasing(task)]), task.msg, IdOf(r, task.sess), 0, now)
      case (Release, Releasing(task)) =>
        Goes(s.(inFlight := InFlightAdd(s, task.sess, -1), flight := PutDown(s, task.sess, task.msg),
                workers := s.workers - {w}),
             Nothing)
      case _ => Blocked
  }

  /** `drainSubmitRetries`; `DrainSubmitRetries` moves entries from the durable queue to the drainer. */
  function DrainStep(c: Config, s: South, op: DrainOp): Outcome {
    match op
    case Fetch(key) =>
      if key !in s.retryQueue then Blocked
      else
        var p := s.retryQueue[key];
        Goes(s.(retryQueue := s.retryQueue - {key}, removing := s.removing + 1, held := s.held + [p],
                place := s.place[p.msg := AtDrainer(s.finished + |s.held|)]),
             Nothing)
    case UnroutedHead =>
      if s.drain != Ready || s.held == [] then Blocked else Goes(s.(drain := HeadFailed), Nothing)
    case FailHead =>
      if s.drain != Ready || s.held == [] then Blocked
      else Goes(s.(drain := HeadFailed, log := s.log + multiset{Attempt(s.held[0].msg, false)}), Nothing)
    case SucceedHead(smsc) =>
      if s.drain != Ready || s.held == [] || smsc in s.owner then Blocked
      else
        var p := s.held[0];
        Goes(s.(held := s.held[1..], finished := s.finished + 1, drain := HeadAnswered(p, smsc),
                owner := s.owner[smsc := p.msg], place := s.place[p.msg := Forwarded],
                log := s.log + multiset{Attempt(p.msg, true)}),
             Nothing)
    case LinkHead =>
      if !s.drain.HeadAnswered? then Blocked
      else
        Goes(s.(drain := HeadLinked(s.drain.entry, s.drain.smsc)),
             SetSmsc(s.drain.smsc, s.drain.entry.msg, s.drain.entry.conn, false))
    case PersistHead =>
      if !s.drain.HeadLinked? then Blocked
      else Goes(s.(drain := Ready), SetRecord(s.drain.smsc, s.drain.entry.msg, s.drain.entry.conn))
    case GiveBackHead(now) =>
      if s.drain != HeadFailed || s.held == [] then Blocked
      else
        var p := s.held[0];
        RetryOrFail(c, s.(held := s.held[1..], finished := s.finished + 1, drain := Ready),
                    p.msg, p.conn, p.retryCount, now)
  }

  datatype Step =
    | OfSubmit(x: SessionId, submitOp: SubmitOp)
    | OfWorker(w: WorkerId, workOp: WorkOp)
    | OfDrainer(drainOp: DrainOp)
    | OfCounter(add: bool)

  /** The updates of `submitRetryCount` that follow a write to the durable queue or a committed drain. */
  function CounterStep(s: South, add: bool): Outcome {
    if add then
      if s.adding == 0 then Blocked else Goes(s.(retryCounter := s.retryCounter + 1, adding := s.adding - 1), Nothing)
    else
      if s.removing == 0 then Blocked else Goes(s.(retryCounter := s.retryCounter - s.removing, removing := 0), Nothing)
  }

  function Next(c: Config, r: Registry, s: South, step: Step): Outcome {
    match step
    case OfSubmit(x, op) => SubmitStep(c, r, s, x, op)
    case OfWorker(w, op) => WorkStep(c, r, s, w, op)
    case OfDrainer(op) => if s.removing > 0 && !op.Fetch? then Blocked else DrainStep(c, s, op)
    case OfCounter(add) => CounterStep(s, add)
  }
}
