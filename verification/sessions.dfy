/** The SSH session registry of server/services/sshService.js: the
    `serverId -> connection` table, the handlers `connect` installs on each
    connection, `checkConnection` and `disconnect`. Connections are named by
    numbers handed out in creation order; the socket state a check reads and
    the order in which events arrive are inputs. */
module Sessions {
  type ServerId = string
  type ConnId = nat

  /** The status values the service writes through `_updateServerStatus`. */
  datatype Status = Online | Offline | Error

  /** Events a connection can raise; `Close` carries ssh2's `hadError`. */
  datatype ConnEvent = Ready | Failed | End | Close(hadError: bool) | Timeout

  /** `conns` is `this.connections`; `status` holds the last status written
      for each server; `next` names the next connection to be created. */
  datatype Registry = Registry(conns: map<ServerId, ConnId>, status: map<ServerId, Status>, next: ConnId)

  /** Every registered connection was created before `next`. */
  predicate Valid(reg: Registry) {
    forall id :: id in reg.conns ==> reg.conns[id] < reg.next
  }

  /** The status each event writes. */
  function EventStatus(ev: ConnEvent): Status {
    match ev
    case Ready => Online
    case Failed => Error
    case End => Offline
    case Close(hadError) => if hadError then Error else Offline
    case Timeout => Error
  }

  /** `connections[serverId] === conn`. */
  predicate Owns(reg: Registry, id: ServerId, conn: ConnId) {
    id in reg.conns && reg.conns[id] == conn
  }

  /** `if (this.connections[serverId] === conn) delete this.connections[serverId]`. */
  function EvictIfOwner(conns: map<ServerId, ConnId>, id: ServerId, conn: ConnId): map<ServerId, ConnId> {
    if id in conns && conns[id] == conn then conns - {id} else conns
  }

  datatype Started = NotFound | Started(reg: Registry, conn: ConnId)

  /** The synchronous part of `connect`: an unknown server is an error; an
      existing entry is ended and deleted; a new connection is created but
      not yet registered (that happens on `ready`). */
  function BeginConnect(reg: Registry, id: ServerId, serverExists: bool): (r: Started)
    ensures !serverExists <==> r.NotFound?
    ensures r.Started? ==> id !in r.reg.conns && r.conn == reg.next && r.reg.next == reg.next + 1
    ensures r.Started? ==> forall other :: other != id ==>
      (other in r.reg.conns <==> other in reg.conns) && (other in reg.conns ==> r.reg.conns[other] == reg.conns[other])
    ensures r.Started? ==> r.reg.status == reg.status
    ensures r.Started? && Valid(reg) ==> Valid(r.reg)
  {
    if !serverExists then NotFound
    else Started(Registry(reg.conns - {id}, reg.status, reg.next + 1), reg.next)
  }

  /** The handler `connect` installed on connection `conn` for server `id`,
      run on `ev`. */
  function OnEvent(reg: Registry, id: ServerId, conn: ConnId, ev: ConnEvent): (r: Registry)
    ensures r.status == reg.status[id := EventStatus(ev)]
    ensures r.next == reg.next
    ensures ev == Ready ==> Owns(r, id, conn)
    ensures ev != Ready ==> id !in r.conns || r.conns[id] != conn
    ensures forall other :: other != id ==>
      (other in r.conns <==> other in reg.conns) && (other in reg.conns ==> r.conns[other] == reg.conns[other])
  {
    var conns := if ev == Ready then reg.conns[id := conn] else EvictIfOwner(reg.conns, id, conn);
    Registry(conns, reg.status[id := EventStatus(ev)], reg.next)
  }

  /** An event from a connection that no longer owns the entry (a newer one
      has replaced it, or none is registered) never removes or replaces the
      entry; only the status is written. */
  lemma StaleEventKeepsEntry(reg: Registry, id: ServerId, conn: ConnId, ev: ConnEvent)
    requires ev != Ready && !Owns(reg, id, conn)
    ensures OnEvent(reg, id, conn, ev).conns == reg.conns
  {
  }

  /** A sequence of events delivered to the handlers of a stale connection. */
  function Replay(reg: Registry, id: ServerId, conn: ConnId, evs: seq<ConnEvent>): Registry
    decreases |evs|
  {
    if |evs| == 0 then reg else Replay(OnEvent(reg, id, conn, evs[0]), id, conn, evs[1..])
  }

  /** However many `error`/`end`/`close`/`timeout` events an old connection
      raises, the entry of the connection that replaced it stays. */
  lemma {:induction false} StaleEventsKeepEntry(reg: Registry, id: ServerId, conn: ConnId, evs: seq<ConnEvent>)
    requires !Owns(reg, id, conn)
    requires forall k :: 0 <= k < |evs| ==> evs[k] != Ready
    ensures Replay(reg, id, conn, evs).conns == reg.conns
    decreases |evs|
  {
    if |evs| > 0 {
      StaleEventKeepsEntry(reg, id, conn, evs[0]);
      StaleEventsKeepEntry(OnEvent(reg, id, conn, evs[0]), id, conn, evs[1..]);
    }
  }

  /** Reconnecting: the old connection's late events cannot evict the new
      connection once it is ready. */
  lemma ReconnectSurvivesOldEvents(reg: Registry, id: ServerId, prior: ConnId, evs: seq<ConnEvent>)
    requires Valid(reg) && Owns(reg, id, prior)
    requires forall k :: 0 <= k < |evs| ==> evs[k] != Ready
    ensures var s := BeginConnect(reg, id, true);
      var renewed := OnEvent(s.reg, id, s.conn, Ready);
      Owns(Replay(renewed, id, prior, evs), id, s.conn)
  {
    var s := BeginConnect(reg, id, true);
    var renewed := OnEvent(s.reg, id, s.conn, Ready);
    assert s.conn != prior;
    StaleEventsKeepEntry(renewed, id, prior, evs);
  }

  /** What a check can observe of the transport: no socket at all, or one
      with its readable and writable flags. */
  datatype Socket = NoSocket | Socket(readable: bool, writable: bool)

  datatype Checked = Checked(ok: bool, reg: Registry)

  /** `checkConnection`: optimistic. With an entry and a socket that is both
      readable and writable the answer is true whatever the handshake state;
      a missing or half-open socket evicts the entry and writes `error`. */
  function CheckConnection(reg: Registry, id: ServerId, sock: Socket): (r: Checked)
    ensures r.ok <==> id in reg.conns && sock.Socket? && sock.readable && sock.writable
    ensures r.ok || id !in reg.conns ==> r.reg == reg
    ensures !r.ok && id in reg.conns ==> r.reg == Registry(reg.conns - {id}, reg.status[id := Error], reg.next)
  {
    if id !in reg.conns then Checked(false, reg)
    else match sock
      case NoSocket => Checked(false, Registry(reg.conns - {id}, reg.status[id := Error], reg.next))
      case Socket(readable, writable) =>
        if readable && writable then Checked(true, reg)
        else Checked(false, Registry(reg.conns - {id}, reg.status[id := Error], reg.next))
  }

  /** A failed check leaves no entry behind, so the next check fails without
      touching anything, whatever the socket looks like by then. */
  lemma FailedCheckIsFinal(reg: Registry, id: ServerId, sock: Socket, later: Socket)
    requires !CheckConnection(reg, id, sock).ok
    ensures var after := CheckConnection(reg, id, sock).reg;
      CheckConnection(after, id, later) == Checked(false, after)
  {
  }

  /** `disconnect`: with no entry nothing happens; otherwise the connection
      is ended, its entry deleted and `offline` written. Both succeed. */
  function Disconnect(reg: Registry, id: ServerId): (r: Registry)
    ensures id !in r.conns
    ensures id in reg.conns ==> r.status == reg.status[id := Offline]
    ensures id !in reg.conns ==> r == reg
    ensures forall other :: other != id ==>
      (other in r.conns <==> other in reg.conns) && (other in reg.conns ==> r.conns[other] == reg.conns[other])
  {
    if id !in reg.conns then reg
    else Registry(reg.conns - {id}, reg.status[id := Offline], reg.next)
  }

  lemma DisconnectIdempotent(reg: Registry, id: ServerId)
    ensures Disconnect(Disconnect(reg, id), id) == Disconnect(reg, id)
  {
  }

  /** The registry invariant holds through every operation, provided events
      come from connections that were created. */
  lemma OperationsKeepValid(reg: Registry, id: ServerId, conn: ConnId, ev: ConnEvent, sock: Socket)
    requires Valid(reg) && conn < reg.next
    ensures Valid(OnEvent(reg, id, conn, ev))
    ensures Valid(CheckConnection(reg, id, sock).reg)
    ensures Valid(Disconnect(reg, id))
  {
  }
}
