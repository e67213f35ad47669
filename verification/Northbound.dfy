/** The northbound path of receipts and mobile-originated messages (gateway/router.go). */
module Northbound {
  import opened Octets
  import opened Options
  import opened Sessions
  import opened Southbound

  /** `IsDLR`: bit 0x04 of esm_class. */
  predicate IsDlr(esm: Byte) {
    Bit(esm, 2)
  }

  /** `correlation`. */
  datatype Corr = Corr(msg: MsgId, conn: ConnId)

  /** `PendingDeliver`; `report` is the message that the PDU body reports on, if it is a receipt. */
  datatype PendingDeliver = PendingDeliver(target: ConnId, esm: Byte, report: Option<MsgId>)

  /**
   * One call of `deliverWithGrace`; `tried` once the direct delivery has been tried, `written` once
   * the PDU was written to some session.
   */
  datatype Call = Call(pd: PendingDeliver, isDlr: bool, tried: bool, written: bool)

  /**
   * `headWritten` says that the drain has written its first held PDU to a session. The last two fields
   * are history: the receipts written to an engine, acknowledged or not, and the messages whose
   * buffered receipt was overwritten or expired.
   */
  datatype North = North(
    gwCorr: map<MsgId, Corr>,
    smscCorr: map<SmscId, Corr>,
    records: map<SmscId, Corr>,
    calls: map<nat, Call>,
    queue: map<(Time, string), PendingDeliver>,
    held: seq<PendingDeliver>,
    headWritten: bool,
    sent: set<(ConnId, MsgId)>,
    lost: set<MsgId>)

  const IDLE := North(map[], map[], map[], map[], map[], [], false, {}, {})

  datatype NorthOp =
    | ForgetGw(msg: MsgId) | ForgetSmsc(smsc: SmscId) | ForgetRecord(smsc: SmscId)
    | Receipt(smsc: SmscId, esm: Byte, call: nat)
    | MobileOriginated(esm: Byte, target: ConnId, call: nat)
    | Try(call: nat) | FallBack(call: nat, other: ConnId) | EndCall(call: nat)
    | Buffer(call: nat, key: (Time, string))
    | Expire(key: (Time, string)) | FetchNorth(key: (Time, string)) | TryHead | FallBackHead(other: ConnId) | EndHead
    | BufferHead(key: (Time, string))

  /** What a southbound step does here; `call` names the delivery that a synthetic receipt starts. */
  function Absorb(n: North, e: Effect, call: nat): Option<North> {
    match e
    case Nothing => Some(n)
    case SetGw(msg, conn) => Some(n.(gwCorr := n.gwCorr[msg := Corr(msg, conn)]))
    case SetSmsc(smsc, msg, conn, viaGw) =>
      var corr := if viaGw && msg in n.gwCorr then n.gwCorr[msg] else Corr(msg, conn);
      Some(n.(smscCorr := n.smscCorr[smsc := corr]))
    case SetRecord(smsc, msg, conn) => Some(n.(records := n.records[smsc := Corr(msg, conn)]))
    case Notify(msg, conn) =>
      if call in n.calls then None
      else Some(n.(calls := n.calls[call := Call(PendingDeliver(conn, 0x04, Some(msg)), true, false, false)]))
  }

  /** A PDU is written to the session registered for `conn`; receipts are remembered. */
  function Send(n: North, conn: ConnId, pd: PendingDeliver): North {
    if pd.report.Some? then n.(sent := n.sent + {(conn, pd.report.value)}) else n
  }

  /** The message that the entry under a key of the durable queue reports on, if any. */
  function ReportedAt(n: North, key: (Time, string)): set<MsgId> {
    if key in n.queue && n.queue[key].report.Some? then {n.queue[key].report.value} else {}
  }

  /** `EnqueueRetry`: an entry already there under the same key is overwritten. */
  function Put(n: North, key: (Time, string), pd: PendingDeliver): North {
    n.(queue := n.queue[key := pd], lost := n.lost + ReportedAt(n, key))
  }

  /** `handleDLR` once the correlation is known. */
  function StartReceipt(n: North, corr: Corr, esm: Byte, call: nat): North {
    n.(calls := n.calls[call := Call(PendingDeliver(corr.conn, esm, Some(corr.msg)), true, false, false)])
  }

  /**
   * `handleDLR`, `handleMO`, `deliverWithGrace` and `drainRetries`, and the removal of correlations
   * after delivery or by age. The outcome of writing a PDU and waiting for its response is open:
   * a delivery ends only if the PDU was written, and may be buffered in any case.
   */
  function NorthStep(r: Registry, n: North, op: NorthOp): Option<North> {
    match op
    case ForgetGw(msg) => Some(n.(gwCorr := n.gwCorr - {msg}))
    case ForgetSmsc(smsc) => Some(n.(smscCorr := n.smscCorr - {smsc}))
    case ForgetRecord(smsc) => Some(n.(records := n.records - {smsc}))
    case Receipt(smsc, esm, call) =>
      if !IsDlr(esm) || call in n.calls then None
      else if smsc in n.smscCorr then Some(StartReceipt(n, n.smscCorr[smsc], esm, call))
      else if smsc in n.records then Some(StartReceipt(n, n.records[smsc], esm, call))
      else None
    case MobileOriginated(esm, target, call) =>
      if IsDlr(esm) || call in n.calls then None
      else Some(n.(calls := n.calls[call := Call(PendingDeliver(target, esm, None), false, false, false)]))
    case Try(call) =>
      if call !in n.calls || n.calls[call].tried then None
      else
        var k := n.calls[call];
        var there := k.pd.target in r.conns;
        var n1 := n.(calls := n.calls[call := k.(tried := true, written := there)]);
        Some(if there then Send(n1, k.pd.target, k.pd) else n1)
    case FallBack(call, other) =>
      if call !in n.calls || !n.calls[call].tried || n.calls[call].isDlr || other !in r.conns then None
      else Some(Send(n.(calls := n.calls[call := n.calls[call].(written := true)]), other, n.calls[call].pd))
    case EndCall(call) =>
      if call !in n.calls || !n.calls[call].written then None else Some(n.(calls := n.calls - {call}))
    case Buffer(call, key) =>
      if call !in n.calls || !n.calls[call].tried then None
      else Some(Put(n.(calls := n.calls - {call}), key, n.calls[call].pd))
    case Expire(key) =>
      if key !in n.queue then None
      else Some(n.(queue := n.queue - {key}, lost := n.lost + ReportedAt(n, key)))
    case FetchNorth(key) =>
      if key !in n.queue then None
      else Some(n.(queue := n.queue - {key}, held := n.held + [n.queue[key]]))
    case TryHead =>
      if n.held == [] || n.held[0].target !in r.conns then None
      else Some(Send(n.(headWritten := true), n.held[0].target, n.held[0]))
    case FallBackHead(other) =>
      if n.held == [] || IsDlr(n.held[0].esm) || other !in r.conns then None
      else Some(Send(n.(headWritten := true), other, n.held[0]))
    case EndHead =>
      if n.held == [] || !n.headWritten then None else Some(n.(held := n.held[1..], headWritten := false))
    case BufferHead(key) =>
      if n.held == [] then None
      else Some(Put(n.(held := n.held[1..], headWritten := false), key, n.held[0]))
  }
}
