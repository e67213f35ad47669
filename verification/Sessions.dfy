/** The registry of northbound sessions (gateway/server.go). */
module Sessions {
  import opened Options

  type ConnId = string     // the system_id of an engine
  type SessionId = nat     // one accepted TCP connection that has bound

  /**
   * `bound` gives each session the ID it took when it bound, `conns` is the map of the server;
   * `torn` (sessions whose teardown has run) and `latest` (the last session to bind under an ID)
   * are history.
   */
  datatype Registry = Registry(
    bound: map<SessionId, ConnId>,
    conns: map<ConnId, SessionId>,
    torn: set<SessionId>,
    latest: map<ConnId, SessionId>)

  const NO_SESSIONS := Registry(map[], map[], {}, map[])

  /** `GetConnection`. */
  function GetConnection(r: Registry, id: ConnId): Option<SessionId> {
    if id in r.conns then Some(r.conns[id]) else None
  }

  /** `onBind`: the session takes the system_id as its ID and replaces any session that has it. */
  function Bind(r: Registry, x: SessionId, id: ConnId): Option<Registry> {
    if x in r.bound || id == "" then None
    else Some(r.(bound := r.bound[x := id], conns := r.conns[id := x], latest := r.latest[id := x]))
  }

  /** The deferred part of `handleConnection`: only the active session of an ID is unregistered. */
  function Teardown(r: Registry, x: SessionId): Option<Registry> {
    if x !in r.bound || x in r.torn then None
    else
      var id := r.bound[x];
      Some(r.(torn := r.torn + {x}, conns := if GetConnection(r, id) == Some(x) then r.conns - {id} else r.conns))
  }

  /**
   * In every reachable state an ID is registered exactly while the last session that bound under
   * it has not been torn down, and it is that session which is registered.
   */
  ghost predicate Current(r: Registry) {
    && (forall id :: id in r.conns <==> id in r.latest && r.latest[id] !in r.torn)
    && (forall id :: id in r.conns ==> r.conns[id] == r.latest[id])
    && (forall id :: id in r.latest ==> r.latest[id] in r.bound && r.bound[r.latest[id]] == id != "")
    && (forall x :: x in r.torn ==> x in r.bound)
    && (forall x :: x in r.bound ==> r.bound[x] in r.latest)
  }

  lemma BindKeepsCurrent(r: Registry, x: SessionId, id: ConnId, r': Registry)
    requires Current(r) && Bind(r, x, id) == Some(r')
    ensures Current(r')
  {
  }

  lemma TeardownKeepsCurrent(r: Registry, x: SessionId, r': Registry)
    requires Current(r) && Teardown(r, x) == Some(r')
    ensures Current(r')
  {
  }

  /** The teardown of a session never unregisters another one, its replacement in particular. */
  lemma TeardownSparesOthers(r: Registry, x: SessionId, r': Registry, id: ConnId)
    requires Current(r) && Teardown(r, x) == Some(r')
    requires id in r.conns && r.conns[id] != x
    ensures GetConnection(r', id) == GetConnection(r, id)
  {
  }

  /** The IDs with a disconnect time are those that were bound and are not registered. */
  ghost predicate Timed(latest: map<ConnId, SessionId>, conns: map<ConnId, SessionId>, disconnects: map<ConnId, nat>) {
    forall id :: id in disconnects <==> id in latest && id !in conns
  }

  lemma TimedAfterBind(latest: map<ConnId, SessionId>, conns: map<ConnId, SessionId>, disconnects: map<ConnId, nat>,
                       x: SessionId, id: ConnId)
    requires Timed(latest, conns, disconnects)
    ensures Timed(latest[id := x], conns[id := x], disconnects - {id})
  {
  }

  /** The maps of the server; `torn` and `latest` are history. */
  class Server {
    var ids: map<SessionId, ConnId>
    var conns: map<ConnId, SessionId>
    var disconnects: map<ConnId, nat>
    ghost var torn: set<SessionId>
    ghost var latest: map<ConnId, SessionId>

    ghost function State(): Registry
      reads this
    {
      Registry(ids, conns, torn, latest)
    }

    /** An ID has a disconnect time exactly while it was once bound and has no session now. */
    ghost predicate Valid()
      reads this
    {
      Current(State()) && Timed(latest, conns, disconnects)
    }

    constructor ()
      ensures Valid() && State() == NO_SESSIONS
    {
      ids, conns, disconnects, torn, latest := map[], map[], map[], {}, map[];
    }

    method OnBind(x: SessionId, systemId: ConnId)
      requires Valid() && x !in ids && systemId != ""
      modifies this
      ensures Valid() && Some(State()) == Bind(old(State()), x, systemId)
      ensures disconnects == old(disconnects) - {systemId}
    {
      BindKeepsCurrent(State(), x, systemId, Bind(State(), x, systemId).value);
      TimedAfterBind(latest, conns, disconnects, x, systemId);
      ids := ids[x := systemId];
      conns := conns[systemId := x];
      disconnects := disconnects - {systemId};
      latest := latest[systemId := x];
    }

    /** The deferred part of `handleConnection`. */
    method TearDown(x: SessionId, now: nat)
      requires Valid() && x in ids && x !in torn
      modifies this
      ensures Valid() && Some(State()) == Teardown(old(State()), x)
      ensures disconnects == if ids[x] in old(conns) && ids[x] !in conns then old(disconnects)[ids[x] := now] else old(disconnects)
    {
      TeardownKeepsCurrent(State(), x, Teardown(State(), x).value);
      var id := ids[x];
      if id in conns && conns[id] == x {
        conns := conns - {id};
        disconnects := disconnects[id := now];
      }
      torn := torn + {x};
    }

    method Lookup(id: ConnId) returns (r: Option<SessionId>)
      requires Valid()
      ensures r == if id in latest && latest[id] !in torn then Some(latest[id]) else None
    {
      r := if id in conns then Some(conns[id]) else None;
    }
  }
}
