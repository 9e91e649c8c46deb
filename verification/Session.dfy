/** Sessions that survive reconnects and migrations (crates/radin-core/src/session.rs).
    Identifiers are opaque: the caller supplies fresh ones. */
module Session {
  import opened Common
  import opened Model

  datatype Snapshot = Snapshot(
    sessionId: nat, connectionId: nat, transport: TransportKind, edgeId: Option<string>,
    startTime: nat, lastHealthy: nat, reconnects: nat, migrations: nat)

  function Begun(t: TransportKind, edge: Option<string>, now: nat, sessionId: nat, connectionId: nat): Snapshot {
    Snapshot(sessionId, connectionId, t, edge, now, now, 0, 0)
  }

  function Migrated(s: Snapshot, t: TransportKind, edge: Option<string>, now: nat, connectionId: nat): Snapshot {
    s.(connectionId := connectionId, transport := t, edgeId := edge, migrations := s.migrations + 1, lastHealthy := now)
  }

  function Reconnected(s: Snapshot, t: TransportKind, edge: Option<string>, now: nat, connectionId: nat): Snapshot {
    s.(connectionId := connectionId, transport := t, edgeId := edge, reconnects := s.reconnects + 1, lastHealthy := now)
  }

  class Session {
    const sessionId: nat
    const startTime: nat
    var connectionId: nat
    var transport: TransportKind
    var edgeId: Option<string>
    var lastHealthy: nat
    var reconnects: nat
    var migrations: nat

    ghost function View(): Snapshot
      reads this
    {
      Snapshot(sessionId, connectionId, transport, edgeId, startTime, lastHealthy, reconnects, migrations)
    }

    constructor Begin(t: TransportKind, edge: Option<string>, now: nat, sessionId: nat, connectionId: nat)
      ensures View() == Begun(t, edge, now, sessionId, connectionId)
    {
      this.sessionId, this.connectionId, startTime := sessionId, connectionId, now;
      transport, edgeId, lastHealthy, reconnects, migrations := t, edge, now, 0, 0;
    }

    method Reconnect(t: TransportKind, edge: Option<string>, now: nat, connectionId: nat)
      modifies this
      ensures View() == Reconnected(old(View()), t, edge, now, connectionId)
    {
      this.connectionId, transport, edgeId := connectionId, t, edge;
      reconnects := reconnects + 1;
      lastHealthy := now;
    }

    method Migrate(t: TransportKind, edge: Option<string>, now: nat, connectionId: nat)
      modifies this
      ensures View() == Migrated(old(View()), t, edge, now, connectionId)
    {
      this.connectionId, transport, edgeId := connectionId, t, edge;
      migrations := migrations + 1;
      lastHealthy := now;
    }

    method MarkHealthy(now: nat)
      modifies this
      ensures View() == old(View()).(lastHealthy := now)
    {
      lastHealthy := now;
    }
  }

  // ---------------------------------------------------------------------
  // A whole life

  datatype Event =
    | Reconnect(transport: TransportKind, edge: Option<string>, at: nat, connectionId: nat)
    | Migrate(transport: TransportKind, edge: Option<string>, at: nat, connectionId: nat)
    | Healthy(at: nat)

  function Next(s: Snapshot, e: Event): Snapshot {
    match e
    case Reconnect(t, edge, now, id) => Reconnected(s, t, edge, now, id)
    case Migrate(t, edge, now, id) => Migrated(s, t, edge, now, id)
    case Healthy(now) => s.(lastHealthy := now)
  }

  function After(s: Snapshot, events: seq<Event>): Snapshot {
    if events == [] then s else Next(After(s, events[..|events| - 1]), events[|events| - 1])
  }

  // How many of the events establish a new connection.
  function Connections(events: seq<Event>): nat {
    if events == [] then 0
    else Connections(events[..|events| - 1]) + if events[|events| - 1].Healthy? then 0 else 1
  }

  // The last event that established a connection.
  function LastConnection(events: seq<Event>): Option<Event> {
    if events == [] then None
    else if events[|events| - 1].Healthy? then LastConnection(events[..|events| - 1])
    else Some(events[|events| - 1])
  }

  /** Over any life a session keeps its id and start, counts every connection after the first once,
      as a reconnection or as a migration, is where the last one put it, and was healthy last at its
      last event. */
  lemma {:induction false} LifeOfSession(s: Snapshot, events: seq<Event>)
    ensures var s', last := After(s, events), LastConnection(events);
            && s'.sessionId == s.sessionId && s'.startTime == s.startTime
            && s'.reconnects + s'.migrations == s.reconnects + s.migrations + Connections(events)
            && (last.None? ==>
                  s'.connectionId == s.connectionId && s'.transport == s.transport && s'.edgeId == s.edgeId)
            && s'.lastHealthy == (if events == [] then s.lastHealthy else events[|events| - 1].at)
            && (last.Some? ==> !last.value.Healthy? && s'.connectionId == last.value.connectionId
                               && s'.transport == last.value.transport && s'.edgeId == last.value.edge)
    decreases |events|
  {
    if events != [] { LifeOfSession(s, events[..|events| - 1]); }
  }

  /** A session begins healthy, with nothing counted. */
  lemma BeginsHealthy(t: TransportKind, edge: Option<string>, now: nat, id: nat, connection: nat)
    ensures var s := Begun(t, edge, now, id, connection);
            && s.startTime == now && s.lastHealthy == now && s.reconnects == 0 && s.migrations == 0
            && s.sessionId == id && s.connectionId == connection && s.transport == t && s.edgeId == edge
  {
  }
}
