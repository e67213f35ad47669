/** Requests waiting for their responses (smpp/client.go) and the submit window (smpp/pool.go). */
module Pending {
  import opened Options
  import opened Routing

  type Seq = n: int | 0 <= n < 0x1_0000_0000

  /** What reaches a waiting request: the response with some sequence number, or the disconnect notice. */
  datatype Resp = Reply(num: Seq, body: nat) | Nack

  /**
   * The response channel of one request, with room for one PDU. `sent` is history: how often it was
   * sent to. `waiting` until the caller has received or given up; `got` is what it received.
   */
  datatype Chan = Chan(num: Seq, buffer: Option<Resp>, sent: nat, waiting: bool, got: Option<Resp>)

  /**
   * `reading` while a reader of the connection runs, `bound` as in the client; `hands` are readers
   * between taking a channel out of the table and sending to it.
   */
  datatype Table = Table(
    reading: bool,
    bound: bool,
    pending: map<Seq, nat>,
    chans: map<nat, Chan>,
    hands: map<nat, (nat, Resp)>)

  datatype Op =
    | Dial | BindDone | Close
    | Register(ch: nat, num: Seq)
    | GiveUp(ch: nat)
    | TakeOut(reader: nat, resp: Resp)
    | Send(reader: nat)
    | Disconnect
    | Receive(ch: nat)

  function Open(num: Seq): Chan {
    Chan(num, None, 0, true, None)
  }

  function Push(c: Chan, resp: Resp): Chan {
    c.(buffer := Some(resp), sent := c.sent + 1)
  }

  /** Whether a send to the channel would block. */
  predicate Full(c: Chan) {
    c.buffer.Some?
  }

  /** `handleDisconnect`: every channel in the table gets the notice. */
  function NackAll(chans: map<nat, Chan>, pending: map<Seq, nat>): map<nat, Chan> {
    map c | c in chans :: if chans[c].num in pending && pending[chans[c].num] == c then Push(chans[c], Nack) else chans[c]
  }

  /**
   * `Connect` starts the reader before it binds. A reader that ends while the client is bound runs
   * `handleDisconnect`; one that ends unbound answers nobody. Requests register without looking at
   * the connection again.
   */
  function Step(s: Table, op: Op): Option<Table> {
    match op
    case Dial =>
      if s.bound || s.reading then None else Some(s.(reading := true))
    case BindDone =>
      if s.bound || !s.reading then None else Some(s.(bound := true))
    case Close =>
      if !s.bound then None else Some(s.(bound := false))
    case Register(ch, num) =>
      if ch in s.chans then None
      else Some(s.(pending := s.pending[num := ch], chans := s.chans[ch := Open(num)]))
    case GiveUp(ch) =>
      if ch !in s.chans || !s.chans[ch].waiting then None
      else Some(s.(pending := s.pending - {s.chans[ch].num}, chans := s.chans[ch := s.chans[ch].(waiting := false)]))
    case TakeOut(reader, resp) =>
      if !s.reading || reader in s.hands || resp.Nack? || resp.num !in s.pending then None
      else Some(s.(pending := s.pending - {resp.num}, hands := s.hands[reader := (s.pending[resp.num], resp)]))
    case Send(reader) =>
      if reader !in s.hands || s.hands[reader].0 !in s.chans then None
      else
        var (ch, resp) := s.hands[reader];
        Some(s.(hands := s.hands - {reader}, chans := s.chans[ch := Push(s.chans[ch], resp)]))
    case Disconnect =>
      if !s.reading then None
      else if !s.bound then Some(s.(reading := false))
      else Some(Table(false, false, map[], NackAll(s.chans, s.pending), s.hands))
    case Receive(ch) =>
      if ch !in s.chans || !s.chans[ch].waiting || s.chans[ch].buffer.None? then None
      else Some(s.(chans := s.chans[ch := s.chans[ch].(waiting := false, got := s.chans[ch].buffer, buffer := None)]))
  }

  // ---- Invariant -------------------------------------------------------------

  /** A response that the owner of the channel may see. */
  predicate Own(c: Chan, r: Resp) {
    r.Nack? || r.num == c.num
  }

  /** At most one PDU is ever sent, and it is the owner's. */
  predicate Sane(c: Chan) {
    && c.sent <= 1
    && (c.buffer.Some? ==> c.sent == 1 && c.got.None? && Own(c, c.buffer.value))
    && (c.got.Some? ==> c.sent == 1 && !c.waiting && Own(c, c.got.value))
    && (c.waiting ==> c.got.None? && (c.sent == 1 ==> c.buffer.Some?))
  }

  /** Nothing was sent yet. */
  predicate Untouched(c: Chan) {
    c.sent == 0 && c.buffer.None? && c.got.None?
  }

  /** The table's entry for `q` is a channel for `q` whose owner waits. */
  predicate EntryOk(s: Table, q: Seq)
    requires q in s.pending
  {
    var c := s.pending[q];
    c in s.chans && s.chans[c].num == q && s.chans[c].waiting && Untouched(s.chans[c])
  }

  /** A reader holds a channel that is in nobody else's reach. */
  predicate HandOk(s: Table, r: nat)
    requires r in s.hands
  {
    var (c, resp) := s.hands[r];
    && c in s.chans && Untouched(s.chans[c]) && Own(s.chans[c], resp)
    && (s.chans[c].num in s.pending ==> s.pending[s.chans[c].num] != c)
  }

  ghost predicate Inv(s: Table) {
    && (forall c :: c in s.chans ==> Sane(s.chans[c]))
    && (forall q :: q in s.pending ==> EntryOk(s, q))
    && (forall r :: r in s.hands ==> HandOk(s, r))
    && (forall r, t :: r in s.hands && t in s.hands && r != t ==> s.hands[r].0 != s.hands[t].0)
  }

  lemma RegisterKeeps(s: Table, ch: nat, num: Seq)
    requires Inv(s) && ch !in s.chans
    ensures Inv(Step(s, Register(ch, num)).value)
  {
    var t := Step(s, Register(ch, num)).value;
    forall q | q in t.pending ensures EntryOk(t, q) {
      assert q != num ==> EntryOk(s, q);
    }
    forall r | r in t.hands ensures HandOk(t, r) {
      assert HandOk(s, r);
    }
  }

  lemma GiveUpKeeps(s: Table, ch: nat)
    requires Inv(s) && Step(s, GiveUp(ch)).Some?
    ensures Inv(Step(s, GiveUp(ch)).value)
  {
    var t := Step(s, GiveUp(ch)).value;
    forall q | q in t.pending ensures EntryOk(t, q) {
      assert EntryOk(s, q);
    }
    forall r | r in t.hands ensures HandOk(t, r) {
      assert HandOk(s, r);
    }
  }

  lemma TakeOutKeeps(s: Table, reader: nat, resp: Resp)
    requires Inv(s) && Step(s, TakeOut(reader, resp)).Some?
    ensures Inv(Step(s, TakeOut(reader, resp)).value)
  {
    var t := Step(s, TakeOut(reader, resp)).value;
    assert EntryOk(s, resp.num);
    forall q | q in t.pending ensures EntryOk(t, q) {
      assert EntryOk(s, q);
    }
    forall r | r in t.hands ensures HandOk(t, r) {
      assert r != reader ==> HandOk(s, r);
    }
  }

  lemma SendKeeps(s: Table, reader: nat)
    requires Inv(s) && Step(s, Send(reader)).Some?
    ensures Inv(Step(s, Send(reader)).value)
  {
    var t := Step(s, Send(reader)).value;
    assert HandOk(s, reader);
    forall q | q in t.pending ensures EntryOk(t, q) {
      assert EntryOk(s, q);
    }
    forall r | r in t.hands ensures HandOk(t, r) {
      assert HandOk(s, r);
    }
  }

  lemma NackAllKeeps(s: Table)
    requires Inv(s)
    ensures Inv(Table(false, false, map[], NackAll(s.chans, s.pending), s.hands))
  {
    var t := Table(false, false, map[], NackAll(s.chans, s.pending), s.hands);
    forall c | c in t.chans ensures Sane(t.chans[c]) {
      assert Sane(s.chans[c]);
      assert s.chans[c].num in s.pending ==> EntryOk(s, s.chans[c].num);
    }
    forall r | r in t.hands ensures HandOk(t, r) {
      assert HandOk(s, r);
    }
  }

  lemma ConnectionKeeps(s: Table, t: Table)
    requires Inv(s) && t.pending == s.pending && t.chans == s.chans && t.hands == s.hands
    ensures Inv(t)
  {
    forall q | q in t.pending ensures EntryOk(t, q) {
      assert EntryOk(s, q);
    }
    forall r | r in t.hands ensures HandOk(t, r) {
      assert HandOk(s, r);
    }
  }

  lemma ReceiveKeeps(s: Table, ch: nat)
    requires Inv(s) && Step(s, Receive(ch)).Some?
    ensures Inv(Step(s, Receive(ch)).value)
  {
    var t := Step(s, Receive(ch)).value;
    assert Sane(s.chans[ch]);
    forall q | q in t.pending ensures EntryOk(t, q) {
      assert EntryOk(s, q);
    }
    forall r | r in t.hands ensures HandOk(t, r) {
      assert HandOk(s, r);
    }
  }

  lemma StepKeepsInv(s: Table, op: Op)
    requires Inv(s) && Step(s, op).Some?
    ensures Inv(Step(s, op).value)
  {
    match op
    case Register(ch, num) => RegisterKeeps(s, ch, num);
    case GiveUp(ch) => GiveUpKeeps(s, ch);
    case TakeOut(reader, resp) => TakeOutKeeps(s, reader, resp);
    case Send(reader) => SendKeeps(s, reader);
    case Disconnect =>
      if s.bound {
        NackAllKeeps(s);
      } else {
        ConnectionKeeps(s, Step(s, op).value);
      }
    case Dial => ConnectionKeeps(s, Step(s, op).value);
    case BindDone => ConnectionKeeps(s, Step(s, op).value);
    case Close => ConnectionKeeps(s, Step(s, op).value);
    case Receive(ch) => ReceiveKeeps(s, ch);
  }

  // ---- Runs ------------------------------------------------------------------

  const IDLE := Table(false, false, map[], map[], map[])

  function Run(s: Table, ops: seq<Op>): Option<Table>
    decreases |ops|
  {
    if ops == [] then Some(s)
    else
      var t := Step(s, ops[0]);
      if t.None? then None else Run(t.value, ops[1..])
  }

  lemma {:induction false} RunKeepsInv(s: Table, ops: seq<Op>)
    requires Inv(s) && Run(s, ops).Some?
    ensures Inv(Run(s, ops).value)
    decreases |ops|
  {
    if ops != [] {
      StepKeepsInv(s, ops[0]);
      RunKeepsInv(Step(s, ops[0]).value, ops[1..]);
    }
  }

  /** No send ever blocks: not a reader's, and not that of a disconnect under the lock. */
  lemma SendsNeverBlock(ops: seq<Op>)
    requires Run(IDLE, ops).Some?
    ensures var s := Run(IDLE, ops).value;
            && (forall r :: r in s.hands ==> s.hands[r].0 in s.chans && !Full(s.chans[s.hands[r].0]))
            && (forall q :: q in s.pending ==> s.pending[q] in s.chans && !Full(s.chans[s.pending[q]]))
  {
    RunKeepsInv(IDLE, ops);
    var s := Run(IDLE, ops).value;
    forall r | r in s.hands ensures s.hands[r].0 in s.chans && !Full(s.chans[s.hands[r].0]) {
      assert HandOk(s, r);
    }
    forall q | q in s.pending ensures s.pending[q] in s.chans && !Full(s.chans[s.pending[q]]) {
      assert EntryOk(s, q);
    }
  }

  /** Each request gets at most one PDU: its own response or the disconnect notice, even if numbers recur. */
  lemma OneOwnResponse(ops: seq<Op>, ch: nat)
    requires Run(IDLE, ops).Some? && ch in Run(IDLE, ops).value.chans
    ensures var c := Run(IDLE, ops).value.chans[ch];
            c.sent <= 1 && (c.got.Some? ==> c.got == Some(Nack) || c.got.value.num == c.num)
  {
    RunKeepsInv(IDLE, ops);
    assert Sane(Run(IDLE, ops).value.chans[ch]);
  }

  // ---- Where a response comes from -------------------------------------------

  /** `resp` is in the hand of a reader for `ch`, in its buffer, or with its caller. */
  ghost predicate Carried(s: Table, ch: nat, resp: Resp) {
    || (exists r :: r in s.hands && s.hands[r] == (ch, resp))
    || (ch in s.chans && (s.chans[ch].buffer == Some(resp) || s.chans[ch].got == Some(resp)))
  }

  /** `ch` is the table's entry for its number. */
  predicate Entered(s: Table, ch: nat) {
    ch in s.chans && s.chans[ch].num in s.pending && s.pending[s.chans[ch].num] == ch
  }

  /**
   * The step addresses `resp` to `ch`: a reader takes the entry out with just this response, or a
   * bound client disconnects while the entry is in the table.
   */
  predicate Addresses(s: Table, op: Op, ch: nat, resp: Resp) {
    match op
    case TakeOut(_, x) => x == resp && resp.Reply? && resp.num in s.pending && s.pending[resp.num] == ch
    case Disconnect => resp == Nack && s.bound && Entered(s, ch)
    case _ => false
  }

  /** Some step of the run addresses `resp` to `ch`. */
  ghost predicate Addressed(s: Table, ops: seq<Op>, ch: nat, resp: Resp)
    decreases |ops|
  {
    ops != [] && Step(s, ops[0]).Some? &&
    (Addresses(s, ops[0], ch, resp) || Addressed(Step(s, ops[0]).value, ops[1..], ch, resp))
  }

  lemma StepCarries(s: Table, op: Op, ch: nat, resp: Resp)
    requires Step(s, op).Some? && Carried(Step(s, op).value, ch, resp)
    ensures Carried(s, ch, resp) || Addresses(s, op, ch, resp)
  {
    var t := Step(s, op).value;
    if r :| r in t.hands && t.hands[r] == (ch, resp) {
      assert r in s.hands ==> s.hands[r] == t.hands[r];
    } else if op.Send? && s.hands[op.reader].0 == ch {
      assert s.hands[op.reader] == (ch, s.hands[op.reader].1);
    }
  }

  lemma {:induction false} RunCarries(s: Table, ops: seq<Op>, ch: nat, resp: Resp)
    requires Run(s, ops).Some? && Carried(Run(s, ops).value, ch, resp)
    ensures Carried(s, ch, resp) || Addressed(s, ops, ch, resp)
    decreases |ops|
  {
    if ops != [] {
      var t := Step(s, ops[0]).value;
      RunCarries(t, ops[1..], ch, resp);
      if Carried(t, ch, resp) {
        StepCarries(s, ops[0], ch, resp);
      }
    }
  }

  /**
   * In every run, what a caller got or will get was addressed to it: a response that a reader took
   * out for its entry, body included, or the notice of a disconnect that found its entry in the table.
   */
  lemma OnlyWhatWasAddressed(ops: seq<Op>, ch: nat, resp: Resp)
    requires Run(IDLE, ops).Some? && ch in Run(IDLE, ops).value.chans
    requires var c := Run(IDLE, ops).value.chans[ch]; c.buffer == Some(resp) || c.got == Some(resp)
    ensures Addressed(IDLE, ops, ch, resp)
  {
    RunCarries(IDLE, ops, ch, resp);
  }

  lemma {:induction false} NoNotice(s: Table, ops: seq<Op>, ch: nat)
    requires Disconnect !in ops
    ensures !Addressed(s, ops, ch, Nack)
    decreases |ops|
  {
    if ops != [] && Step(s, ops[0]).Some? {
      assert ops == [ops[0]] + ops[1..];
      NoNotice(Step(s, ops[0]).value, ops[1..], ch);
    }
  }

  /** Without a disconnect nobody gets the notice. */
  lemma NoticeNeedsDisconnect(ops: seq<Op>, ch: nat)
    requires Run(IDLE, ops).Some? && ch in Run(IDLE, ops).value.chans && Disconnect !in ops
    ensures var c := Run(IDLE, ops).value.chans[ch]; c.buffer != Some(Nack) && c.got != Some(Nack)
  {
    var c := Run(IDLE, ops).value.chans[ch];
    NoNotice(IDLE, ops, ch);
    if c.buffer == Some(Nack) || c.got == Some(Nack) {
      OnlyWhatWasAddressed(ops, ch, Nack);
    }
  }

  /** From any reachable state a waiting request gets just the response that arrives for its number. */
  lemma GetsItsResponse(ops: seq<Op>, r: nat, ch: nat, body: nat)
    requires Run(IDLE, ops).Some?
    requires var s := Run(IDLE, ops).value; s.reading && r !in s.hands && Entered(s, ch)
    ensures var s := Run(IDLE, ops).value;
      var resp := Reply(s.chans[ch].num, body);
      var t := Run(s, [TakeOut(r, resp), Send(r), Receive(ch)]);
      t.Some? && ch in t.value.chans && t.value.chans[ch].got == Some(resp) && !t.value.chans[ch].waiting
  {
    RunKeepsInv(IDLE, ops);
    var s := Run(IDLE, ops).value;
    assert EntryOk(s, s.chans[ch].num);
    var x, y, z := TakeOut(r, Reply(s.chans[ch].num, body)), Send(r), Receive(ch);
    RunThree(s, x, y, z);
  }

  /** From any reachable state a disconnect of a bound client gives the notice to every request in the table. */
  lemma GetsTheNotice(ops: seq<Op>, ch: nat)
    requires Run(IDLE, ops).Some?
    requires var s := Run(IDLE, ops).value; s.reading && s.bound && Entered(s, ch)
    ensures var t := Run(Run(IDLE, ops).value, [Disconnect, Receive(ch)]);
      t.Some? && ch in t.value.chans && t.value.chans[ch].got == Some(Nack) && !t.value.chans[ch].waiting
  {
    RunKeepsInv(IDLE, ops);
    var s := Run(IDLE, ops).value;
    assert EntryOk(s, s.chans[ch].num);
    RunTwo(s, Disconnect, Receive(ch));
  }

  lemma RunCons(s: Table, op: Op, ops: seq<Op>)
    requires Step(s, op).Some?
    ensures Run(s, [op] + ops) == Run(Step(s, op).value, ops)
  {
    assert ([op] + ops)[1..] == ops;
  }

  lemma RunTwo(s: Table, x: Op, y: Op)
    requires Step(s, x).Some? && Step(Step(s, x).value, y).Some?
    ensures Run(s, [x, y]) == Step(Step(s, x).value, y)
  {
    RunCons(s, x, [y]);
    RunCons(Step(s, x).value, y, []);
    assert [x] + [y] == [x, y] && [y] + [] == [y];
  }

  lemma RunThree(s: Table, x: Op, y: Op, z: Op)
    requires Step(s, x).Some? && Step(Step(s, x).value, y).Some? && Step(Step(Step(s, x).value, y).value, z).Some?
    ensures Run(s, [x, y, z]) == Step(Step(Step(s, x).value, y).value, z)
  {
    RunCons(s, x, [y, z]);
    RunTwo(Step(s, x).value, y, z);
    assert [x] + [y, z] == [x, y, z];
  }

  // ---- No request is forgotten -----------------------------------------------

  ghost predicate InHand(s: Table, ch: nat) {
    exists r :: r in s.hands && s.hands[r].0 == ch
  }

  /** A response or a disconnect can still reach the owner of `ch`, or already has. */
  ghost predicate Reachable(s: Table, ch: nat)
    requires ch in s.chans
  {
    var c := s.chans[ch];
    (s.reading && c.num in s.pending && s.pending[c.num] == ch) || InHand(s, ch) || c.buffer.Some?
  }

  ghost predicate NoneForgotten(s: Table) {
    forall ch :: ch in s.chans && s.chans[ch].waiting ==> Reachable(s, ch)
  }

  /**
   * The step displaces the entry of another request that has the same sequence number, or registers
   * one when no reader runs, or ends an unbound reader while requests wait.
   */
  predicate Forgets(s: Table, op: Op) {
    match op
    case Register(_, num) => num in s.pending || !s.reading
    case GiveUp(ch) => ch in s.chans && s.chans[ch].num in s.pending && s.pending[s.chans[ch].num] != ch
    case Disconnect => !s.bound && s.pending != map[]
    case _ => false
  }

  /** These are exactly the steps after which some request waits for nothing. */
  lemma ForgottenIff(s: Table, op: Op)
    requires Inv(s) && NoneForgotten(s) && Step(s, op).Some?
    ensures NoneForgotten(Step(s, op).value) <==> !Forgets(s, op)
  {
    var t := Step(s, op).value;
    if Forgets(s, op) {
      match op
      case Register(ch, num) =>
        if num in s.pending {
          DisplacedForgotten(s, op, num);
        } else {
          LateForgotten(s, ch, num);
        }
      case GiveUp(ch) => DisplacedForgotten(s, op, s.chans[ch].num);
      case Disconnect =>
        var num :| num in s.pending;
        AbandonedForgotten(s, num);
    } else {
      forall ch | ch in t.chans && t.chans[ch].waiting ensures Reachable(t, ch) {
        StaysReachable(s, op, ch);
      }
    }
  }

  /** The channel of an entry is in nobody's hand. */
  lemma EntryNotInHand(s: Table, num: Seq)
    requires Inv(s) && num in s.pending
    ensures EntryOk(s, num) && !InHand(s, s.pending[num])
  {
    assert EntryOk(s, num);
    forall r | r in s.hands ensures s.hands[r].0 != s.pending[num] {
      assert HandOk(s, r);
    }
  }

  lemma DisplacedForgotten(s: Table, op: Op, num: Seq)
    requires Inv(s) && Step(s, op).Some? && num in s.pending
    requires op.Register? || op.GiveUp?
    requires op.Register? ==> num == op.num
    requires op.GiveUp? ==> num == s.chans[op.ch].num && s.pending[num] != op.ch
    ensures !NoneForgotten(Step(s, op).value)
  {
    var lost, t := s.pending[num], Step(s, op).value;
    EntryNotInHand(s, num);
    assert t.chans[lost] == s.chans[lost] && t.hands == s.hands;
    assert !InHand(t, lost);
    assert !Reachable(t, lost);
  }

  lemma LateForgotten(s: Table, ch: nat, num: Seq)
    requires Inv(s) && !s.reading && ch !in s.chans
    ensures !NoneForgotten(Step(s, Register(ch, num)).value)
  {
    var t := Step(s, Register(ch, num)).value;
    forall r | r in t.hands ensures t.hands[r].0 != ch {
      assert HandOk(s, r);
    }
    assert !Reachable(t, ch);
  }

  lemma AbandonedForgotten(s: Table, num: Seq)
    requires Inv(s) && s.reading && !s.bound && num in s.pending
    ensures !NoneForgotten(Step(s, Disconnect).value)
  {
    var lost, t := s.pending[num], Step(s, Disconnect).value;
    EntryNotInHand(s, num);
    assert !InHand(t, lost);
    assert !Reachable(t, lost);
  }

  lemma StaysReachable(s: Table, op: Op, ch: nat)
    requires Inv(s) && NoneForgotten(s) && Step(s, op).Some? && !Forgets(s, op)
    requires var t := Step(s, op).value; ch in t.chans && t.chans[ch].waiting
    ensures Reachable(Step(s, op).value, ch)
  {
    var t := Step(s, op).value;
    if op.Register? && op.ch == ch {
      assert t.pending[op.num] == ch;
    } else {
      assert Reachable(s, ch);
      if InHand(s, ch) {
        HandStays(s, op, ch);
      } else if op.TakeOut? {
        assert op.reader in t.hands;
        assert t.hands[op.reader].0 == s.pending[op.resp.num];
      }
    }
  }

  /** What a reader holds stays in its hand or is sent. */
  lemma HandStays(s: Table, op: Op, ch: nat)
    requires Step(s, op).Some? && InHand(s, ch) && ch in s.chans && !(op.Receive? && op.ch == ch)
    ensures var t := Step(s, op).value; ch in t.chans && (InHand(t, ch) || t.chans[ch].buffer.Some?)
  {
    var t := Step(s, op).value;
    var r :| r in s.hands && s.hands[r].0 == ch;
    if !(op.Send? && op.reader == r) {
      assert r in t.hands && t.hands[r].0 == ch;
    }
  }

  // ---- Runs that forget ------------------------------------------------------

  /** A bound client with its reader. */
  lemma Connected()
    ensures Run(IDLE, [Dial, BindDone]) == Some(IDLE.(reading := true, bound := true))
  {
    RunCons(IDLE, Dial, [BindDone]);
    RunCons(IDLE.(reading := true), BindDone, []);
    assert [Dial] + [BindDone] == [Dial, BindDone] && [BindDone] + [] == [BindDone];
  }

  lemma {:induction false} RunAppend(s: Table, xs: seq<Op>, ys: seq<Op>)
    requires Run(s, xs).Some?
    ensures Run(s, xs + ys) == Run(Run(s, xs).value, ys)
    decreases |xs|
  {
    if xs == [] {
      assert xs + ys == ys;
    } else {
      RunAppend(Step(s, xs[0]).value, xs[1..], ys);
      assert (xs + ys)[1..] == xs[1..] + ys;
    }
  }

  /** A number that recurs while its request waits. */
  lemma ReuseForgets()
    ensures exists ops :: Run(IDLE, ops).Some? && !NoneForgotten(Run(IDLE, ops).value)
  {
    Connected();
    var s := IDLE.(reading := true, bound := true);
    var x, y := Register(0, 7), Register(1, 7);
    RegisterKeeps(s, 0, 7);
    DisplacedForgotten(Step(s, x).value, y, 7);
    RunTwo(s, x, y);
    RunAppend(IDLE, [Dial, BindDone], [x, y]);
    assert Run(IDLE, [Dial, BindDone] + [x, y]).Some?;
  }

  /** A submit that passed its check for a bound client and registers after the disconnect. */
  lemma LateRegistrationForgets()
    ensures exists ops :: Run(IDLE, ops).Some? && !NoneForgotten(Run(IDLE, ops).value)
                          && Disconnect in ops && Run(IDLE, ops).value.pending != map[]
  {
    Connected();
    var s := IDLE.(reading := true, bound := true);
    var x, y := Disconnect, Register(0, 7);
    var t := Step(s, x).value;
    NackAllKeeps(s);
    LateForgotten(t, 0, 7);
    RunTwo(s, x, y);
    RunAppend(IDLE, [Dial, BindDone], [x, y]);
    var ops := [Dial, BindDone] + [x, y];
    assert 7 in Run(IDLE, ops).value.pending;
    assert Disconnect in ops;
  }

  // ---- Runs that do not ------------------------------------------------------

  /** Registrations use numbers that no waiting request has. */
  predicate FreshNumber(s: Table, op: Op) {
    op.Register? ==> forall c :: c in s.chans && s.chans[c].waiting ==> s.chans[c].num != op.num
  }

  /** Requests register while a reader runs, and a reader that ends unbound leaves none behind. */
  predicate Served(s: Table, op: Op) {
    && (op.Register? ==> s.reading)
    && (op.Disconnect? ==> s.bound || s.pending == map[])
  }

  ghost predicate FreshRun(s: Table, ops: seq<Op>)
    decreases |ops|
  {
    ops != [] && Step(s, ops[0]).Some? ==>
      FreshNumber(s, ops[0]) && Served(s, ops[0]) && FreshRun(Step(s, ops[0]).value, ops[1..])
  }

  ghost predicate Distinct(s: Table) {
    forall c, d :: c in s.chans && d in s.chans && c != d && s.chans[c].waiting && s.chans[d].waiting ==>
      s.chans[c].num != s.chans[d].num
  }

  lemma FreshForgetsNone(s: Table, op: Op)
    requires Inv(s) && Distinct(s) && Step(s, op).Some? && FreshNumber(s, op) && Served(s, op)
    ensures !Forgets(s, op)
  {
    match op
    case Register(_, num) =>
      assert num in s.pending ==> EntryOk(s, num);
    case GiveUp(ch) =>
      assert s.chans[ch].num in s.pending ==> EntryOk(s, s.chans[ch].num);
    case _ =>
  }

  lemma NumbersStay(s: Table, op: Op)
    requires Step(s, op).Some? && Distinct(s) && FreshNumber(s, op)
    ensures Distinct(Step(s, op).value)
  {
  }

  /** Without reuse while outstanding, in every run, every waiting request can still be answered or already is. */
  lemma {:induction false} RunForgetsNone(s: Table, ops: seq<Op>)
    requires Inv(s) && Distinct(s) && NoneForgotten(s) && FreshRun(s, ops) && Run(s, ops).Some?
    ensures NoneForgotten(Run(s, ops).value)
    decreases |ops|
  {
    if ops != [] {
      FreshForgetsNone(s, ops[0]);
      ForgottenIff(s, ops[0]);
      StepKeepsInv(s, ops[0]);
      NumbersStay(s, ops[0]);
      RunForgetsNone(Step(s, ops[0]).value, ops[1..]);
    }
  }

  /** `nextSeq`, `k` calls after the counter stood at `start`. */
  function NumberAt(start: Seq, k: nat): Seq {
    (start + k) % 0x1_0000_0000
  }

  /** Two requests share a number exactly when a multiple of 2^32 lies between them. */
  lemma NumbersRecur(start: Seq, i: nat, j: nat)
    requires i <= j
    ensures NumberAt(start, i) == NumberAt(start, j) <==> (j - i) % 0x1_0000_0000 == 0
  {
  }

  // ---- The client ------------------------------------------------------------

  class Client {
    var bound: bool
    var pending: map<Seq, nat>
    /** Every response channel made so far. */
    var chans: map<nat, Chan>
    var made: nat
    ghost var reading: bool
    ghost var hands: map<nat, (nat, Resp)>

    ghost function State(): Table
      reads this
    {
      Table(reading, bound, pending, chans, hands)
    }

    ghost predicate Valid()
      reads this
    {
      Inv(State()) && forall c :: c in chans ==> c < made
    }

    constructor ()
      ensures Valid() && State() == IDLE
    {
      bound, pending, chans, made, reading, hands := false, map[], map[], 0, false, map[];
    }

    method RegisterPending(num: Seq) returns (ch: nat)
      requires Valid()
      modifies this
      ensures Valid() && bound == old(bound)
      ensures Some(State()) == Step(old(State()), Register(ch, num))
    {
      RegisterKeeps(State(), made, num);
      ch := made;
      made := made + 1;
      chans := chans[ch := Open(num)];
      pending := pending[num := ch];
    }

    method UnregisterPending(num: Seq) returns (ch: Option<nat>)
      modifies this`pending
      ensures pending == old(pending) - {num}
      ensures ch == if num in old(pending) then Some(old(pending)[num]) else None
    {
      ch := if num in pending then Some(pending[num]) else None;
      pending := pending - {num};
    }

    /** A channel operation; it would block on a full channel. */
    method SendTo(ch: nat, resp: Resp)
      requires ch in chans && !Full(chans[ch])
      modifies this`chans
      ensures chans == old(chans)[ch := Push(old(chans[ch]), resp)]
    {
      chans := chans[ch := chans[ch].(buffer := Some(resp), sent := chans[ch].sent + 1)];
    }

    /** `dispatchPDU` for responses, first half. */
    method TakeChannel(ghost reader: nat, resp: Resp) returns (ch: Option<nat>)
      requires Valid() && reading && resp.Reply? && reader !in hands
      modifies this
      ensures Valid() && bound == old(bound)
      ensures ch.None? <==> resp.num !in old(pending)
      ensures ch.None? ==> State() == old(State())
      ensures ch.Some? ==> Some(State()) == Step(old(State()), TakeOut(reader, resp)) && hands[reader] == (ch.value, resp)
    {
      if resp.num in pending {
        TakeOutKeeps(State(), reader, resp);
      } else {
        assert pending - {resp.num} == pending;
      }
      ch := UnregisterPending(resp.num);
      if ch.Some? {
        hands := hands[reader := (ch.value, resp)];
      }
    }

    /** `dispatchPDU` for responses, second half: the send does not block. */
    method SendResponse(ghost reader: nat, ch: nat, resp: Resp)
      requires Valid() && reader in hands && hands[reader] == (ch, resp)
      modifies this
      ensures Valid() && bound == old(bound)
      ensures Some(State()) == Step(old(State()), Send(reader))
      ensures ch in chans && chans[ch].buffer == Some(resp)
    {
      assert HandOk(State(), reader);
      SendKeeps(State(), reader);
      SendTo(ch, resp);
      hands := hands - {reader};
    }

    /** `handleDisconnect`: under the lock, every pending request is answered and nothing blocks. */
    method HandleDisconnect()
      requires Valid() && reading
      modifies this
      ensures Valid() && !bound
      ensures Some(State()) == Step(old(State()), Disconnect)
      ensures old(bound) ==> pending == map[] && forall q :: q in old(pending) ==> Noticed(chans, old(pending)[q])
    {
      reading := false;
      if !bound {
        ConnectionKeeps(old(State()), State());
        return;
      }
      NackAllKeeps(State());
      AllNoticed(State());
      bound := false;
      NackPending();
    }

    /** A request that gives up: its entry goes and its caller waits no longer. */
    method TimeOut(ch: nat)
      requires Valid() && ch in chans && chans[ch].waiting
      modifies this
      ensures Valid() && bound == old(bound)
      ensures Some(State()) == Step(old(State()), GiveUp(ch))
    {
      GiveUpKeeps(State(), ch);
      var _ := UnregisterPending(chans[ch].num);
      chans := chans[ch := chans[ch].(waiting := false)];
    }

    /** The loop of `handleDisconnect`. */
    method NackPending()
      requires Inv(State())
      modifies this`pending, this`chans
      ensures pending == map[] && chans == NackAll(old(chans), old(pending))
    {
      ghost var before := State();
      while pending != map[]
        invariant PartlyNacked(before, pending, chans)
        decreases |pending|
      {
        var num :| num in pending;
        NackNext(before, pending, chans, num);
        SendTo(pending[num], Nack);
        SmallerWithout(pending, num);
        pending := pending - {num};
      }
      AllNacked(before, pending, chans);
    }
  }

  predicate Noticed(chans: map<nat, Chan>, ch: nat) {
    ch in chans && chans[ch].buffer == Some(Nack)
  }

  lemma AllNoticed(s: Table)
    requires Inv(s)
    ensures forall q :: q in s.pending ==> Noticed(NackAll(s.chans, s.pending), s.pending[q])
  {
    forall q | q in s.pending ensures Noticed(NackAll(s.chans, s.pending), s.pending[q]) {
      assert EntryOk(s, q);
    }
  }

  lemma SmallerWithout(pending: map<Seq, nat>, num: Seq)
    requires num in pending
    ensures |pending - {num}| < |pending|
  {
    assert (pending - {num}).Keys == pending.Keys - {num};
  }

  /** The channels that left the table got the notice; the others are as before. */
  ghost predicate PartlyNacked(s: Table, pending: map<Seq, nat>, chans: map<nat, Chan>) {
    && Inv(s) && chans.Keys == s.chans.Keys
    && (forall q :: q in pending ==> q in s.pending && pending[q] == s.pending[q])
    && (forall c :: c in chans ==> chans[c] == Nacked(s, pending, c))
  }

  ghost function Nacked(s: Table, pending: map<Seq, nat>, c: nat): Chan
    requires c in s.chans
  {
    var ch := s.chans[c];
    if ch.num in s.pending && s.pending[ch.num] == c && ch.num !in pending then Push(ch, Nack) else ch
  }

  lemma NackNext(s: Table, pending: map<Seq, nat>, chans: map<nat, Chan>, num: Seq)
    requires PartlyNacked(s, pending, chans) && num in pending
    ensures pending[num] in chans && !Full(chans[pending[num]])
    ensures PartlyNacked(s, pending - {num}, chans[pending[num] := Push(chans[pending[num]], Nack)])
  {
    assert EntryOk(s, num);
    var c := pending[num];
    assert chans[c] == Nacked(s, pending, c);
    var after := chans[c := Push(chans[c], Nack)];
    assert after.Keys == chans.Keys;
    forall d | d in after ensures after[d] == Nacked(s, pending - {num}, d) {
      assert chans[d] == Nacked(s, pending, d);
    }
  }

  lemma AllNacked(s: Table, pending: map<Seq, nat>, chans: map<nat, Chan>)
    requires PartlyNacked(s, pending, chans) && pending == map[]
    ensures chans == NackAll(s.chans, s.pending)
  {
    forall c | c in chans ensures chans[c] == NackAll(s.chans, s.pending)[c] {
      assert chans[c] == Nacked(s, pending, c);
    }
  }

  // ---- The submit window -----------------------------------------------------

  /** Tokens in each connection's window, and the connection that each submitting caller holds one of. */
  datatype Windows = Windows(used: seq<nat>, holds: map<nat, nat>)

  datatype WindowOp = Acquire(who: nat, conn: nat) | Release(who: nat)

  function WindowStep(w: Windows, cap: nat, op: WindowOp): Option<Windows> {
    match op
    case Acquire(who, conn) =>
      if who in w.holds || conn >= |w.used| || w.used[conn] >= cap then None
      else Some(Windows(w.used[conn := w.used[conn] + 1], w.holds[who := conn]))
    case Release(who) =>
      if who !in w.holds || w.holds[who] >= |w.used| || w.used[w.holds[who]] == 0 then None
      else Some(Windows(w.used[w.holds[who] := w.used[w.holds[who]] - 1], w.holds - {who}))
  }

  /** The callers with an outstanding submit on a connection. */
  function Outstanding(w: Windows, conn: nat): set<nat> {
    set who | who in w.holds && w.holds[who] == conn
  }

  ghost predicate WindowInv(w: Windows, cap: nat) {
    && (forall conn :: 0 <= conn < |w.used| ==> w.used[conn] == |Outstanding(w, conn)| && w.used[conn] <= cap)
    && (forall who :: who in w.holds ==> w.holds[who] < |w.used|)
  }

  lemma OutstandingAfter(w: Windows, who: nat, conn: nat, other: nat)
    ensures who !in w.holds ==>
              Outstanding(Windows(w.used, w.holds[who := conn]), other) ==
              Outstanding(w, other) + (if other == conn then {who} else {})
    ensures who in w.holds && w.holds[who] == conn ==>
              Outstanding(Windows(w.used, w.holds - {who}), other) ==
              Outstanding(w, other) - (if other == conn then {who} else {})
  {
  }

  lemma WindowStepKeeps(w: Windows, cap: nat, op: WindowOp)
    requires WindowInv(w, cap) && WindowStep(w, cap, op).Some?
    ensures WindowInv(WindowStep(w, cap, op).value, cap)
  {
    var v := WindowStep(w, cap, op).value;
    forall conn | 0 <= conn < |v.used| ensures v.used[conn] == |Outstanding(v, conn)| && v.used[conn] <= cap {
      var at := if op.Acquire? then op.conn else w.holds[op.who];
      OutstandingAfter(w, op.who, at, conn);
      assert Outstanding(v, conn) == Outstanding(Windows(w.used, v.holds), conn);
    }
  }

  function WindowRun(w: Windows, cap: nat, ops: seq<WindowOp>): Option<Windows>
    decreases |ops|
  {
    if ops == [] then Some(w)
    else
      var v := WindowStep(w, cap, ops[0]);
      if v.None? then None else WindowRun(v.value, cap, ops[1..])
  }

  /** In every run the tokens are the outstanding submits, never more than the window, and a release never waits. */
  lemma {:induction false} WindowRespected(w: Windows, cap: nat, ops: seq<WindowOp>)
    requires WindowInv(w, cap) && WindowRun(w, cap, ops).Some?
    ensures var v := WindowRun(w, cap, ops).value;
            && (forall conn :: 0 <= conn < |v.used| ==> v.used[conn] == |Outstanding(v, conn)| <= cap)
            && (forall who :: who in v.holds ==> WindowStep(v, cap, Release(who)).Some?)
    decreases |ops|
  {
    if ops == [] {
      forall who | who in w.holds ensures WindowStep(w, cap, Release(who)).Some? {
        assert who in Outstanding(w, w.holds[who]);
      }
    } else {
      WindowStepKeeps(w, cap, ops[0]);
      WindowRespected(WindowStep(w, cap, ops[0]).value, cap, ops[1..]);
    }
  }

  /** After any run, a caller without a token gets one exactly when fewer than the window are outstanding. */
  lemma TokenIff(w: Windows, cap: nat, ops: seq<WindowOp>, who: nat, conn: nat)
    requires WindowInv(w, cap) && WindowRun(w, cap, ops).Some?
    requires var v := WindowRun(w, cap, ops).value; who !in v.holds && conn < |v.used|
    ensures var v := WindowRun(w, cap, ops).value;
            WindowStep(v, cap, Acquire(who, conn)).Some? <==> |Outstanding(v, conn)| < cap
  {
    WindowRespected(w, cap, ops);
  }

  /** Whether a submit cannot go to connection `i` now. */
  predicate Busy(bound: seq<bool>, used: seq<nat>, cap: nat, i: nat) {
    i < |bound| == |used| ==> !bound[i] || used[i] >= cap
  }

  /** The first connection in cyclic order after `start` that is bound and has a free token. */
  ghost predicate NextFree(start: nat, bound: seq<bool>, used: seq<nat>, cap: nat, d: nat) {
    && d < |bound| == |used|
    && !Busy(bound, used, cap, Turn(start, d, |used|))
    && forall e :: 0 <= e < d ==> Busy(bound, used, cap, Turn(start, e, |used|))
  }

  /** One round of `Submit` over the connections. */
  method Probe(start: nat, bound: seq<bool>, used: seq<nat>, cap: nat) returns (r: Option<nat>)
    requires |bound| == |used|
    ensures r.Some? ==> exists d: nat :: NextFree(start, bound, used, cap, d) && r.value == Turn(start, d, |used|)
    ensures r.None? <==> forall i :: 0 <= i < |used| ==> Busy(bound, used, cap, i)
  {
    var n := |bound|;
    if n == 0 {
      return None;
    }
    for i := 0 to n
      invariant forall e :: 0 <= e < i ==> Busy(bound, used, cap, Turn(start, e, n))
    {
      var idx := Turn(start, i, n);
      if bound[idx] && used[idx] < cap {
        assert NextFree(start, bound, used, cap, i);
        return Some(idx);
      }
    }
    AllBusy(start, bound, used, cap);
    return None;
  }

  lemma AllBusy(start: nat, bound: seq<bool>, used: seq<nat>, cap: nat)
    requires |bound| == |used| > 0
    requires forall e :: 0 <= e < |used| ==> Busy(bound, used, cap, Turn(start, e, |used|))
    ensures forall i :: 0 <= i < |used| ==> Busy(bound, used, cap, i)
  {
    forall i | 0 <= i < |used| ensures Busy(bound, used, cap, i) {
      var e := TurnOf(start, i, |used|);
      assert Busy(bound, used, cap, Turn(start, e, |used|));
    }
  }
}
