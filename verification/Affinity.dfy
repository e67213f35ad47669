/** Receipts go back to the engine that submitted the message (gateway/router.go, gateway/server.go). */
module Affinity {
  import opened Octets
  import opened Options
  import opened Sessions
  import opened Southbound
  import opened Northbound

  /** The history that receipts depend on: submitters, owners of downstream IDs, and who was not registered. */
  datatype Trail = Trail(origin: map<MsgId, ConnId>, owner: map<SmscId, MsgId>, unheard: set<MsgId>)

  ghost function TrailOf(s: South): Trail {
    Trail(s.origin, s.owner, s.unheard)
  }

  /** `conn` is the engine that submitted `m`; no engine only if none was registered at the submit. */
  ghost predicate Ours(t: Trail, m: MsgId, conn: ConnId) {
    m in t.origin && (conn == t.origin[m] || (conn == "" && m in t.unheard))
  }

  /** History only grows: nobody changes who submitted a message, or whose an SMSC ID is. */
  ghost predicate Extends(t: Trail, t': Trail) {
    && (forall m :: m in t.origin ==> m in t'.origin && t'.origin[m] == t.origin[m])
    && (forall id :: id in t.owner ==> id in t'.owner && t'.owner[id] == t.owner[id])
    && (forall m :: m in t.origin ==> (m in t'.unheard <==> m in t.unheard))
  }

  // ---- The southbound side keeps the submitter with the message ---------------

  ghost predicate TaskOk(r: Registry, t: Trail, k: Task) {
    && k.msg in t.origin
    && (k.sess.None? <==> k.msg in t.unheard)
    && (k.sess.Some? ==> k.sess.value in r.bound && r.bound[k.sess.value] == t.origin[k.msg])
  }

  ghost predicate SubmitOk(r: Registry, t: Trail, x: SessionId, at: Submit) {
    && x in r.bound
    && (at.sess.Some? ==> at.sess.value in r.bound && r.bound[at.sess.value] == r.bound[x])
    && (!at.Looked? ==>
          at.msg in t.origin && t.origin[at.msg] == r.bound[x] && (at.sess.None? <==> at.msg in t.unheard))
  }

  ghost predicate WorkOk(r: Registry, t: Trail, at: Work) {
    && TaskOk(r, t, at.task)
    && (at.Answered? || at.Linked? ==> at.smsc in t.owner && t.owner[at.smsc] == at.task.msg)
  }

  ghost predicate EntryOk(t: Trail, p: PendingSubmit) {
    Ours(t, p.msg, p.conn)
  }

  ghost predicate DrainOk(t: Trail, d: Drain) {
    d.HeadAnswered? || d.HeadLinked? ==> EntryOk(t, d.entry) && d.smsc in t.owner && t.owner[d.smsc] == d.entry.msg
  }

  ghost predicate SubmitsOk(r: Registry, t: Trail, submits: map<SessionId, Submit>) {
    forall x :: x in submits ==> SubmitOk(r, t, x, submits[x])
  }

  ghost predicate ChannelOk(r: Registry, t: Trail, channel: seq<Task>) {
    forall i :: 0 <= i < |channel| ==> TaskOk(r, t, channel[i])
  }

  ghost predicate WorkersOk(r: Registry, t: Trail, workers: map<WorkerId, Work>) {
    forall w :: w in workers ==> WorkOk(r, t, workers[w])
  }

  ghost predicate QueueOk(t: Trail, queue: map<(Time, MsgId), PendingSubmit>) {
    forall key :: key in queue ==> EntryOk(t, queue[key])
  }

  ghost predicate HeldOk(t: Trail, held: seq<PendingSubmit>) {
    forall i :: 0 <= i < |held| ==> EntryOk(t, held[i])
  }

  ghost predicate Numbered(t: Trail, n: nat) {
    && (forall m :: m in t.origin ==> 1 <= m <= n)
    && (forall m :: m in t.unheard ==> m in t.origin)
  }

  ghost predicate InvOrigin(r: Registry, s: South) {
    var t := TrailOf(s);
    && Numbered(t, s.nextMsg) && SubmitsOk(r, t, s.submits) && ChannelOk(r, t, s.channel)
    && WorkersOk(r, t, s.workers) && QueueOk(t, s.retryQueue) && HeldOk(t, s.held) && DrainOk(t, s.drain)
  }

  /** What the northbound side may be told. */
  ghost predicate EffectOk(t: Trail, e: Effect) {
    match e
    case Nothing => true
    case SetGw(msg, conn) => Ours(t, msg, conn)
    case SetSmsc(smsc, msg, conn, _) => smsc in t.owner && t.owner[smsc] == msg && Ours(t, msg, conn)
    case SetRecord(smsc, msg, conn) => smsc in t.owner && t.owner[smsc] == msg && Ours(t, msg, conn)
    case Notify(msg, conn) => Ours(t, msg, conn)
  }

  /** The step keeps the invariant, tells the north nothing wrong, and only adds to the history. */
  ghost predicate Kept(r: Registry, s: South, s': South, e: Effect) {
    InvOrigin(r, s') && EffectOk(TrailOf(s'), e) && Extends(TrailOf(s), TrailOf(s'))
  }

  // ---- One component changes -------------------------------------------------

  lemma PutSubmit(r: Registry, t: Trail, submits: map<SessionId, Submit>, x: SessionId, at: Submit)
    requires SubmitsOk(r, t, submits) && SubmitOk(r, t, x, at)
    ensures SubmitsOk(r, t, submits[x := at])
  {
  }

  lemma DropSubmit(r: Registry, t: Trail, submits: map<SessionId, Submit>, x: SessionId)
    requires SubmitsOk(r, t, submits)
    ensures SubmitsOk(r, t, submits - {x})
  {
  }

  lemma PutWork(r: Registry, t: Trail, workers: map<WorkerId, Work>, w: WorkerId, at: Work)
    requires WorkersOk(r, t, workers) && WorkOk(r, t, at)
    ensures WorkersOk(r, t, workers[w := at])
  {
  }

  lemma DropWork(r: Registry, t: Trail, workers: map<WorkerId, Work>, w: WorkerId)
    requires WorkersOk(r, t, workers)
    ensures WorkersOk(r, t, workers - {w})
  {
  }

  lemma PutEntry(t: Trail, queue: map<(Time, MsgId), PendingSubmit>, key: (Time, MsgId), p: PendingSubmit)
    requires QueueOk(t, queue) && EntryOk(t, p)
    ensures QueueOk(t, queue[key := p])
  {
  }

  lemma DropEntry(t: Trail, queue: map<(Time, MsgId), PendingSubmit>, key: (Time, MsgId))
    requires QueueOk(t, queue)
    ensures QueueOk(t, queue - {key})
  {
  }

  lemma AppendTask(r: Registry, t: Trail, channel: seq<Task>, k: Task)
    requires ChannelOk(r, t, channel) && TaskOk(r, t, k)
    ensures ChannelOk(r, t, channel + [k])
  {
  }

  lemma TailTask(r: Registry, t: Trail, channel: seq<Task>)
    requires ChannelOk(r, t, channel) && channel != []
    ensures TaskOk(r, t, channel[0]) && ChannelOk(r, t, channel[1..])
  {
  }

  lemma AppendEntry(t: Trail, held: seq<PendingSubmit>, p: PendingSubmit)
    requires HeldOk(t, held) && EntryOk(t, p)
    ensures HeldOk(t, held + [p])
  {
  }

  lemma TailEntry(t: Trail, held: seq<PendingSubmit>)
    requires HeldOk(t, held) && held != []
    ensures EntryOk(t, held[0]) && HeldOk(t, held[1..])
  {
  }

  /** Everything stays right when the history grows. */
  lemma Grown(r: Registry, s: South, t: Trail)
    requires InvOrigin(r, s) && Extends(TrailOf(s), t)
    ensures SubmitsOk(r, t, s.submits) && ChannelOk(r, t, s.channel) && WorkersOk(r, t, s.workers)
    ensures QueueOk(t, s.retryQueue) && HeldOk(t, s.held) && DrainOk(t, s.drain)
  {
    SubmitsGrown(r, TrailOf(s), t, s.submits);
    TasksGrown(r, TrailOf(s), t, s.channel, s.workers);
    EntriesGrown(TrailOf(s), t, s.retryQueue, s.held);
  }

  lemma SubmitsGrown(r: Registry, t: Trail, t': Trail, submits: map<SessionId, Submit>)
    requires SubmitsOk(r, t, submits) && Extends(t, t')
    ensures SubmitsOk(r, t', submits)
  {
    forall x | x in submits ensures SubmitOk(r, t', x, submits[x]) {
      assert SubmitOk(r, t, x, submits[x]);
    }
  }

  lemma TasksGrown(r: Registry, t: Trail, t': Trail, channel: seq<Task>, workers: map<WorkerId, Work>)
    requires ChannelOk(r, t, channel) && WorkersOk(r, t, workers) && Extends(t, t')
    ensures ChannelOk(r, t', channel) && WorkersOk(r, t', workers)
  {
    forall i | 0 <= i < |channel| ensures TaskOk(r, t', channel[i]) {
      assert TaskOk(r, t, channel[i]);
    }
    forall w | w in workers ensures WorkOk(r, t', workers[w]) {
      assert WorkOk(r, t, workers[w]);
    }
  }

  lemma EntriesGrown(t: Trail, t': Trail, queue: map<(Time, MsgId), PendingSubmit>, held: seq<PendingSubmit>)
    requires QueueOk(t, queue) && HeldOk(t, held) && Extends(t, t')
    ensures QueueOk(t', queue) && HeldOk(t', held)
  {
    forall key | key in queue ensures EntryOk(t', queue[key]) {
      assert EntryOk(t, queue[key]);
    }
    forall i | 0 <= i < |held| ensures EntryOk(t', held[i]) {
      assert EntryOk(t, held[i]);
    }
  }

  // ---- HandleSubmit ----------------------------------------------------------

  lemma RetryOrFailOrigin(c: Config, r: Registry, s: South, m0: MsgId, conn: ConnId, retryCount: nat, now: Time,
                          s': South, e: Effect)
    requires InvOrigin(r, s) && Ours(TrailOf(s), m0, conn)
    requires RetryOrFail(c, s, m0, conn, retryCount, now) == Goes(s', e)
    ensures Kept(r, s, s', e)
  {
    PutEntry(TrailOf(s), s.retryQueue, (now, m0), PendingSubmit(m0, conn, retryCount + 1));
  }

  lemma AcceptOrigin(c: Config, r: Registry, s: South, x: SessionId, s': South, e: Effect)
    requires InvOrigin(r, s) && SubmitStep(c, r, s, x, Accept) == Goes(s', e)
    ensures Kept(r, s, s', e)
  {
    assert SubmitOk(r, TrailOf(s), x, s.submits[x]);
    var t, m0 := TrailOf(s'), s.nextMsg + 1;
    NewMessage(TrailOf(s), s.nextMsg, r.bound[x], s.submits[x].sess.None?, t);
    Grown(r, s, t);
    PutSubmit(r, t, s.submits, x, Accepted(s.submits[x].sess, m0));
  }

  lemma NewMessage(t: Trail, n: nat, conn: ConnId, unheard: bool, t': Trail)
    requires Numbered(t, n)
    requires t' == Trail(t.origin[n + 1 := conn], t.owner, if unheard then t.unheard + {n + 1} else t.unheard)
    ensures Numbered(t', n + 1) && Extends(t, t') && (n + 1 in t'.unheard <==> unheard)
  {
  }

  lemma LookupOrigin(c: Config, r: Registry, s: South, x: SessionId, s': South, e: Effect)
    requires Current(r) && InvOrigin(r, s) && SubmitStep(c, r, s, x, Lookup) == Goes(s', e)
    ensures Kept(r, s, s', e)
  {
    PutSubmit(r, TrailOf(s), s.submits, x, Looked(GetConnection(r, r.bound[x])));
  }

  lemma EnqueueOrigin(c: Config, r: Registry, s: South, x: SessionId, s': South, e: Effect)
    requires InvOrigin(r, s) && SubmitStep(c, r, s, x, Enqueue) == Goes(s', e)
    ensures Kept(r, s, s', e)
  {
    var at := s.submits[x];
    assert SubmitOk(r, TrailOf(s), x, at);
    DropSubmit(r, TrailOf(s), s.submits, x);
    AppendTask(r, TrailOf(s), s.channel, Task(at.sess, at.msg));
  }

  lemma BackOffOrigin(c: Config, r: Registry, s: South, x: SessionId, now: Time, s': South, e: Effect)
    requires InvOrigin(r, s) && SubmitStep(c, r, s, x, BackOff(now)) == Goes(s', e)
    ensures Kept(r, s, s', e)
  {
    assert SubmitOk(r, TrailOf(s), x, s.submits[x]);
    DropSubmit(r, TrailOf(s), s.submits, x);
    RetryOrFailOrigin(c, r, s.(submits := s.submits - {x}), s.submits[x].msg, r.bound[x], 0, now, s', e);
  }

  /** The other steps of `HandleSubmit` change where the submit stands, or drop it. */
  lemma SubmitShape(c: Config, r: Registry, s: South, x: SessionId, op: SubmitOp, s': South, e: Effect)
    requires SubmitStep(c, r, s, x, op) == Goes(s', e) && x in s.submits && SubmitOk(r, TrailOf(s), x, s.submits[x])
    requires op != Accept && !op.BackOff? && op != Enqueue && op != Lookup
    ensures TrailOf(s') == TrailOf(s) && s'.nextMsg == s.nextMsg && s'.channel == s.channel && s'.workers == s.workers
    ensures s'.retryQueue == s.retryQueue && s'.held == s.held && s'.drain == s.drain && EffectOk(TrailOf(s), e)
    ensures || s'.submits == s.submits - {x}
            || (x in s'.submits && s'.submits == s.submits[x := s'.submits[x]] && SubmitOk(r, TrailOf(s), x, s'.submits[x]))
  {
  }

  lemma SubmitOrigin(c: Config, r: Registry, s: South, x: SessionId, op: SubmitOp, s': South, e: Effect)
    requires InvOrigin(r, s) && SubmitStep(c, r, s, x, op) == Goes(s', e)
    requires op != Accept && !op.BackOff? && op != Enqueue && op != Lookup
    ensures Kept(r, s, s', e)
  {
    assert SubmitOk(r, TrailOf(s), x, s.submits[x]);
    SubmitShape(c, r, s, x, op, s', e);
    if s'.submits == s.submits - {x} {
      DropSubmit(r, TrailOf(s), s.submits, x);
    } else {
      PutSubmit(r, TrailOf(s), s.submits, x, s'.submits[x]);
    }
  }

  lemma SubmitKeepsOrigin(c: Config, r: Registry, s: South, x: SessionId, op: SubmitOp, s': South, e: Effect)
    requires Current(r) && InvOrigin(r, s) && SubmitStep(c, r, s, x, op) == Goes(s', e)
    ensures Kept(r, s, s', e)
  {
    match op
    case Lookup => LookupOrigin(c, r, s, x, s', e);
    case Accept => AcceptOrigin(c, r, s, x, s', e);
    case Enqueue => EnqueueOrigin(c, r, s, x, s', e);
    case BackOff(now) => BackOffOrigin(c, r, s, x, now, s', e);
    case _ => SubmitOrigin(c, r, s, x, op, s', e);
  }

  // ---- Workers ---------------------------------------------------------------

  lemma TakeOrigin(c: Config, r: Registry, s: South, w: WorkerId, s': South, e: Effect)
    requires InvOrigin(r, s) && WorkStep(c, r, s, w, Take) == Goes(s', e)
    ensures Kept(r, s, s', e)
  {
    TailTask(r, TrailOf(s), s.channel);
    PutWork(r, TrailOf(s), s.workers, w, Holding(s.channel[0]));
  }

  lemma WorkShape(c: Config, r: Registry, s: South, w: WorkerId, op: WorkOp, s': South, e: Effect)
    requires w in s.workers && WorkOk(r, TrailOf(s), s.workers[w])
    requires WorkStep(c, r, s, w, op) == Goes(s', e) && op != Take && !op.GiveBack? && !op.Succeed?
    ensures TrailOf(s') == TrailOf(s) && s'.nextMsg == s.nextMsg && s'.channel == s.channel && s'.submits == s.submits
    ensures s'.retryQueue == s.retryQueue && s'.held == s.held && s'.drain == s.drain && EffectOk(TrailOf(s), e)
    ensures || s'.workers == s.workers - {w}
            || (w in s'.workers && s'.workers == s.workers[w := s'.workers[w]] && WorkOk(r, TrailOf(s), s'.workers[w]))
  {
  }

  lemma WorkOrigin(c: Config, r: Registry, s: South, w: WorkerId, op: WorkOp, s': South, e: Effect)
    requires InvOrigin(r, s) && WorkStep(c, r, s, w, op) == Goes(s', e) && op != Take && !op.GiveBack? && !op.Succeed?
    ensures Kept(r, s, s', e)
  {
    assert WorkOk(r, TrailOf(s), s.workers[w]);
    WorkShape(c, r, s, w, op, s', e);
    if s'.workers == s.workers - {w} {
      DropWork(r, TrailOf(s), s.workers, w);
    } else {
      PutWork(r, TrailOf(s), s.workers, w, s'.workers[w]);
    }
  }

  lemma NewOwner(t: Trail, n: nat, smsc: SmscId, m: MsgId)
    requires Numbered(t, n) && smsc !in t.owner
    ensures var t' := t.(owner := t.owner[smsc := m]); Numbered(t', n) && Extends(t, t')
  {
  }

  lemma SucceedOrigin(c: Config, r: Registry, s: South, w: WorkerId, smsc: SmscId, s': South, e: Effect)
    requires InvOrigin(r, s) && WorkStep(c, r, s, w, Succeed(smsc)) == Goes(s', e)
    ensures Kept(r, s, s', e)
  {
    var task, t := s.workers[w].task, TrailOf(s');
    assert WorkOk(r, TrailOf(s), s.workers[w]);
    NewOwner(TrailOf(s), s.nextMsg, smsc, task.msg);
    Grown(r, s, t);
    PutWork(r, t, s.workers, w, Answered(task, smsc));
  }

  lemma GiveBackOrigin(c: Config, r: Registry, s: South, w: WorkerId, now: Time, s': South, e: Effect)
    requires InvOrigin(r, s) && WorkStep(c, r, s, w, GiveBack(now)) == Goes(s', e)
    ensures Kept(r, s, s', e)
  {
    var task := s.workers[w].task;
    assert WorkOk(r, TrailOf(s), s.workers[w]);
    PutWork(r, TrailOf(s), s.workers, w, Releasing(task));
    var s1 := s.(workers := s.workers[w := Releasing(task)]);
    RetryOrFailOrigin(c, r, s1, task.msg, IdOf(r, task.sess), 0, now, s', e);
  }

  lemma WorkKeepsOrigin(c: Config, r: Registry, s: South, w: WorkerId, op: WorkOp, s': South, e: Effect)
    requires InvOrigin(r, s) && WorkStep(c, r, s, w, op) == Goes(s', e)
    ensures Kept(r, s, s', e)
  {
    match op
    case Take => TakeOrigin(c, r, s, w, s', e);
    case Succeed(smsc) => SucceedOrigin(c, r, s, w, smsc, s', e);
    case GiveBack(now) => GiveBackOrigin(c, r, s, w, now, s', e);
    case _ => WorkOrigin(c, r, s, w, op, s', e);
  }

  // ---- The drainer -----------------------------------------------------------

  lemma FetchOrigin(c: Config, r: Registry, s: South, key: (Time, MsgId), s': South, e: Effect)
    requires InvOrigin(r, s) && DrainStep(c, s, Fetch(key)) == Goes(s', e)
    ensures Kept(r, s, s', e)
  {
    assert EntryOk(TrailOf(s), s.retryQueue[key]);
    DropEntry(TrailOf(s), s.retryQueue, key);
    AppendEntry(TrailOf(s), s.held, s.retryQueue[key]);
  }

  lemma HeadOrigin(c: Config, r: Registry, s: South, op: DrainOp, s': South, e: Effect)
    requires InvOrigin(r, s) && DrainStep(c, s, op) == Goes(s', e)
    requires !op.Fetch? && !op.GiveBackHead? && !op.SucceedHead?
    ensures Kept(r, s, s', e)
  {
  }

  lemma SucceedHeadOrigin(c: Config, r: Registry, s: South, smsc: SmscId, s': South, e: Effect)
    requires InvOrigin(r, s) && DrainStep(c, s, SucceedHead(smsc)) == Goes(s', e)
    ensures Kept(r, s, s', e)
  {
    NewOwner(TrailOf(s), s.nextMsg, smsc, s.held[0].msg);
    Grown(r, s, TrailOf(s'));
    TailEntry(TrailOf(s'), s.held);
  }

  lemma GiveBackHeadOrigin(c: Config, r: Registry, s: South, now: Time, s': South, e: Effect)
    requires InvOrigin(r, s) && DrainStep(c, s, GiveBackHead(now)) == Goes(s', e)
    ensures Kept(r, s, s', e)
  {
    var p := s.held[0];
    TailEntry(TrailOf(s), s.held);
    var s1 := s.(held := s.held[1..], finished := s.finished + 1, drain := Ready);
    RetryOrFailOrigin(c, r, s1, p.msg, p.conn, p.retryCount, now, s', e);
  }

  lemma DrainKeepsOrigin(c: Config, r: Registry, s: South, op: DrainOp, s': South, e: Effect)
    requires InvOrigin(r, s) && DrainStep(c, s, op) == Goes(s', e)
    ensures Kept(r, s, s', e)
  {
    match op
    case Fetch(key) => FetchOrigin(c, r, s, key, s', e);
    case SucceedHead(smsc) => SucceedHeadOrigin(c, r, s, smsc, s', e);
    case GiveBackHead(now) => GiveBackHeadOrigin(c, r, s, now, s', e);
    case _ => HeadOrigin(c, r, s, op, s', e);
  }

  lemma CounterKeepsOrigin(r: Registry, s: South, add: bool, s': South, e: Effect)
    requires InvOrigin(r, s) && CounterStep(s, add) == Goes(s', e)
    ensures Kept(r, s, s', e)
  {
  }

  /** Every southbound step keeps the submitter with its message. */
  lemma SouthKeepsOrigin(c: Config, r: Registry, s: South, step: Step, s': South, e: Effect)
    requires Current(r) && InvOrigin(r, s) && Next(c, r, s, step) == Goes(s', e)
    ensures Kept(r, s, s', e)
  {
    match step
    case OfSubmit(x, op) => SubmitKeepsOrigin(c, r, s, x, op, s', e);
    case OfWorker(w, op) => WorkKeepsOrigin(c, r, s, w, op, s', e);
    case OfDrainer(op) => DrainKeepsOrigin(c, r, s, op, s', e);
    case OfCounter(add) => CounterKeepsOrigin(r, s, add, s', e);
  }

  lemma BindKeepsOrigin(r: Registry, s: South, x: SessionId, id: ConnId, r': Registry)
    requires InvOrigin(r, s) && Bind(r, x, id) == Some(r')
    ensures InvOrigin(r', s)
  {
    BoundGrows(r, r', TrailOf(s), s.submits, s.channel, s.workers);
  }

  lemma BoundGrows(r: Registry, r': Registry, t: Trail, submits: map<SessionId, Submit>, channel: seq<Task>,
                   workers: map<WorkerId, Work>)
    requires forall x :: x in r.bound ==> x in r'.bound && r'.bound[x] == r.bound[x]
    requires SubmitsOk(r, t, submits) && ChannelOk(r, t, channel) && WorkersOk(r, t, workers)
    ensures SubmitsOk(r', t, submits) && ChannelOk(r', t, channel) && WorkersOk(r', t, workers)
  {
    forall x | x in submits ensures SubmitOk(r', t, x, submits[x]) {
      assert SubmitOk(r, t, x, submits[x]);
    }
    forall w | w in workers ensures WorkOk(r', t, workers[w]) {
      assert WorkOk(r, t, workers[w]);
    }
  }

  lemma TeardownKeepsOrigin(r: Registry, s: South, x: SessionId, r': Registry)
    requires InvOrigin(r, s) && Teardown(r, x) == Some(r')
    ensures InvOrigin(r', s)
  {
    BoundGrows(r, r', TrailOf(s), s.submits, s.channel, s.workers);
  }

  // ---- The northbound side sends receipts nowhere else -------------------------

  /** A receipt keeps its 0x04 bit and its target. */
  ghost predicate PdOk(t: Trail, pd: PendingDeliver) {
    pd.report.Some? ==> IsDlr(pd.esm) && Ours(t, pd.report.value, pd.target)
  }

  ghost predicate CorrOk(t: Trail, smsc: SmscId, corr: Corr) {
    smsc in t.owner && corr.msg == t.owner[smsc] && Ours(t, corr.msg, corr.conn)
  }

  ghost predicate InvNorth(t: Trail, n: North) {
    && (forall m :: m in n.gwCorr ==> n.gwCorr[m].msg == m && Ours(t, m, n.gwCorr[m].conn))
    && (forall id :: id in n.smscCorr ==> CorrOk(t, id, n.smscCorr[id]))
    && (forall id :: id in n.records ==> CorrOk(t, id, n.records[id]))
    && (forall k :: k in n.calls ==> PdOk(t, n.calls[k].pd) && (n.calls[k].pd.report.Some? ==> n.calls[k].isDlr))
    && (forall key :: key in n.queue ==> PdOk(t, n.queue[key]))
    && (forall i :: 0 <= i < |n.held| ==> PdOk(t, n.held[i]))
    && (forall d :: d in n.sent ==> d.1 in t.origin && t.origin[d.1] == d.0)
  }

  lemma SyntheticIsDlr()
    ensures IsDlr(0x04)
  {
    assert Bit(4, 2) == Bit(2, 1) == Bit(1, 0);
  }

  lemma ExtendKeepsNorth(t: Trail, t': Trail, n: North)
    requires InvNorth(t, n) && Extends(t, t')
    ensures InvNorth(t', n)
  {
  }

  lemma AbsorbKeepsNorth(t: Trail, n: North, e: Effect, call: nat, n': North)
    requires InvNorth(t, n) && EffectOk(t, e) && Absorb(n, e, call) == Some(n')
    ensures InvNorth(t, n')
  {
    SyntheticIsDlr();
  }

  /** Writing a receipt to the registered session of its own target. */
  lemma SendKeepsNorth(r: Registry, t: Trail, n: North, conn: ConnId, pd: PendingDeliver)
    requires Current(r) && InvNorth(t, n) && PdOk(t, pd) && conn in r.conns
    requires pd.report.Some? ==> conn == pd.target
    ensures InvNorth(t, Send(n, conn, pd))
  {
    assert conn != "";
  }

  lemma TryKeepsNorth(r: Registry, t: Trail, n: North, call: nat, n': North)
    requires Current(r) && InvNorth(t, n) && NorthStep(r, n, Try(call)) == Some(n')
    ensures InvNorth(t, n')
  {
    var k := n.calls[call];
    var there := k.pd.target in r.conns;
    var n1 := n.(calls := n.calls[call := k.(tried := true, written := there)]);
    if there {
      SendKeepsNorth(r, t, n1, k.pd.target, k.pd);
    }
  }

  lemma FallBackKeepsNorth(r: Registry, t: Trail, n: North, call: nat, other: ConnId, n': North)
    requires Current(r) && InvNorth(t, n) && NorthStep(r, n, FallBack(call, other)) == Some(n')
    ensures InvNorth(t, n')
  {
    var k := n.calls[call];
    SendKeepsNorth(r, t, n.(calls := n.calls[call := k.(written := true)]), other, k.pd);
  }

  lemma CallsKeepNorth(r: Registry, t: Trail, n: North, op: NorthOp, n': North)
    requires Current(r) && InvNorth(t, n) && NorthStep(r, n, op) == Some(n')
    requires op.ForgetGw? || op.ForgetSmsc? || op.ForgetRecord? || op.MobileOriginated? || op.EndCall?
    ensures InvNorth(t, n')
  {
  }

  lemma ReceiptKeepsNorth(r: Registry, t: Trail, n: North, smsc: SmscId, esm: Byte, call: nat, n': North)
    requires InvNorth(t, n) && NorthStep(r, n, Receipt(smsc, esm, call)) == Some(n')
    ensures InvNorth(t, n')
  {
    var corr := if smsc in n.smscCorr then n.smscCorr[smsc] else n.records[smsc];
    assert CorrOk(t, smsc, corr);
    assert n' == StartReceipt(n, corr, esm, call);
  }

  lemma QueueKeepsNorth(r: Registry, t: Trail, n: North, op: NorthOp, n': North)
    requires Current(r) && InvNorth(t, n) && NorthStep(r, n, op) == Some(n')
    requires op.Buffer? || op.Expire? || op.FetchNorth? || op.EndHead? || op.BufferHead?
    ensures InvNorth(t, n')
  {
  }

  /** Every northbound step keeps receipts marked and addressed. */
  lemma NorthKeepsNorth(r: Registry, t: Trail, n: North, op: NorthOp, n': North)
    requires Current(r) && InvNorth(t, n) && NorthStep(r, n, op) == Some(n')
    ensures InvNorth(t, n')
  {
    match op
    case Receipt(smsc, esm, call) => ReceiptKeepsNorth(r, t, n, smsc, esm, call, n');
    case Try(call) => TryKeepsNorth(r, t, n, call, n');
    case FallBack(call, other) => FallBackKeepsNorth(r, t, n, call, other, n');
    case TryHead => SendKeepsNorth(r, t, n.(headWritten := true), n.held[0].target, n.held[0]);
    case FallBackHead(other) => SendKeepsNorth(r, t, n.(headWritten := true), other, n.held[0]);
    case Buffer(_, _) => QueueKeepsNorth(r, t, n, op, n');
    case Expire(_) => QueueKeepsNorth(r, t, n, op, n');
    case FetchNorth(_) => QueueKeepsNorth(r, t, n, op, n');
    case EndHead => QueueKeepsNorth(r, t, n, op, n');
    case BufferHead(_) => QueueKeepsNorth(r, t, n, op, n');
    case _ => CallsKeepNorth(r, t, n, op, n');
  }
}
