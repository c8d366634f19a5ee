/**
  `createSession`: the already-connected guard, then one driver run whose
  callbacks write into the registry while the first settling event alone
  decides what the caller receives.
 */
module Creation {
  import opened Wrappers
  import opened SocketStates
  import opened SessionRegistry
  import opened Driver

  /** `sessionName || company_<companyId>`: an absent or empty name falls back to the company's. */
  function SessionNameFor(companyId: string, sessionName: Option<string>): (name: string)
    ensures sessionName.Some? && sessionName.value != "" ==> name == sessionName.value
    ensures sessionName.None? || sessionName.value == "" ==> name == "company_" + companyId
  {
    match sessionName
    case Some(n) => if n != "" then n else "company_" + companyId
    case None => "company_" + companyId
  }

  /** What the caller of `createSession` sees. */
  datatype CreateOutcome =
    | Pending                                            // nothing has settled the promise yet
    | Paired(sessionName: string, qrCode: string)        // resolved by the first QR code
    | AlreadyAuthenticated(sessionName: string)          // resolved by the client, no QR first
    | CreationFailed(cause: string)                      // the driver rejected first
    | AlreadyConnected                                   // refused by the guard
  {
    /** The message of the error the caller receives, for the two failing outcomes. */
    function ErrorMessage(): string
      requires CreationFailed? || AlreadyConnected?
    {
      if CreationFailed? then "Erro ao criar sessão: " + cause
      else "Sessão já existe e está conectada"
    }
  }

  /** The registry together with the caller's outcome so far. */
  datatype Attempt = Attempt(registry: Registry, outcome: CreateOutcome)

  /** The events that can settle the creation promise (there is no timer in creation). */
  predicate Settles(e: DriverEvent)
  {
    e.QrEmitted? || e.Resolved? || e.Rejected?
  }

  /** The outcome a settling event gives when it is the first one. */
  function SettledBy(name: string, e: DriverEvent): CreateOutcome
    requires Settles(e)
  {
    match e
    case QrEmitted(q) => Paired(name, q)
    case Resolved(_) => AlreadyAuthenticated(name)
    case Rejected(m) => CreationFailed(m)
  }

  /**
    One callback of the run for session `name`. It writes under `name` only;
    a settled outcome never changes, and a pending one is settled by exactly
    the settling events.
   */
  function CreationStep(name: string, a: Attempt, e: DriverEvent): (r: Attempt)
    ensures OnlyTouches(a.registry, r.registry, name)
    ensures Consistent(a.registry) ==> Consistent(r.registry)
    ensures r.registry.qrCodes == Override(a.registry.qrCodes, name, QrOf(e))
    ensures r.registry.status == Override(a.registry.status, name, StatusOf(e))
    ensures r.registry.sessions == Override(a.registry.sessions, name, ClientOf(e))
    ensures !a.outcome.Pending? ==> r.outcome == a.outcome
    ensures a.outcome.Pending? ==> r.outcome == if Settles(e) then SettledBy(name, e) else Pending
  {
    var latchOpen := a.outcome.Pending?;
    match e
    case QrEmitted(q) =>
      Attempt(SetQrCode(a.registry, name, q), if latchOpen then Paired(name, q) else a.outcome)
    case StatusFound(s) =>
      Attempt(SetStatus(a.registry, name, MapStatusFind(s)), a.outcome)
    case Resolved(c) =>
      Attempt(StoreClient(a.registry, name, c), if latchOpen then AlreadyAuthenticated(name) else a.outcome)
    case Rejected(m) =>
      Attempt(a.registry, if latchOpen then CreationFailed(m) else a.outcome)
    case TimedOut =>
      a
  }

  /** The registry and outcome after the driver delivered `events`, in order. */
  function CreationRun(name: string, start: Registry, events: seq<DriverEvent>): (a: Attempt)
    ensures OnlyTouches(start, a.registry, name)
    ensures Consistent(start) ==> Consistent(a.registry)
    ensures a.outcome != AlreadyConnected
    decreases |events|
  {
    if |events| == 0 then Attempt(start, Pending)
    else CreationStep(name, CreationRun(name, start, events[..|events| - 1]), events[|events| - 1])
  }

  /**
    `createSession`: refused, with the registry untouched, exactly when the
    name already has a client whose status is CONNECTED; otherwise the run.
   */
  function CreateSession(reg: Registry, companyId: string, sessionName: Option<string>, events: seq<DriverEvent>): (a: Attempt)
    ensures var name := SessionNameFor(companyId, sessionName);
            a.outcome == AlreadyConnected <==> name in reg.sessions && IsSessionConnected(reg, name)
    ensures a.outcome == AlreadyConnected ==> a.registry == reg
    ensures a.outcome != AlreadyConnected ==> a == CreationRun(SessionNameFor(companyId, sessionName), reg, events)
    ensures OnlyTouches(reg, a.registry, SessionNameFor(companyId, sessionName))
    ensures Consistent(reg) ==> Consistent(a.registry)
  {
    var name := SessionNameFor(companyId, sessionName);
    if name in reg.sessions && name in reg.status && reg.status[name] == Connected then
      Attempt(reg, AlreadyConnected)
    else
      CreationRun(name, reg, events)
  }

  /** The caller's outcome is decided by the first settling event alone, and stays pending without one. */
  lemma {:induction false} CreationFirstOutcomeWins(name: string, start: Registry, events: seq<DriverEvent>)
    ensures match FirstWhere(events, Settles)
            case None => CreationRun(name, start, events).outcome == Pending
            case Some(i) => CreationRun(name, start, events).outcome == SettledBy(name, events[i])
    decreases |events|
  {
    if |events| > 0 {
      var prefix := events[..|events| - 1];
      var last := events[|events| - 1];
      assert events == prefix + [last];
      CreationFirstOutcomeWins(name, start, prefix);
      FirstWhereSnoc(prefix, last, Settles);
    }
  }

  /** Once settled, later events never change the caller's outcome. */
  lemma {:induction false} CreationOutcomeLatched(name: string, start: Registry, events: seq<DriverEvent>, later: seq<DriverEvent>)
    requires CreationRun(name, start, events).outcome != Pending
    ensures CreationRun(name, start, events + later).outcome == CreationRun(name, start, events).outcome
    decreases |later|
  {
    if |later| == 0 {
      assert events + later == events;
    } else {
      var front := later[..|later| - 1];
      assert (events + later)[..|events + later| - 1] == events + front;
      CreationOutcomeLatched(name, start, events, front);
    }
  }

  // What each event writes under the session's key, if anything.

  function QrOf(e: DriverEvent): Option<string>
  {
    if e.QrEmitted? then Some(e.base64) else None
  }

  function StatusOf(e: DriverEvent): Option<SocketState>
  {
    match e
    case QrEmitted(_) => Some(QrReady)
    case StatusFound(s) => Some(MapStatusFind(s))
    case Resolved(_) => Some(Connected)
    case _ => None
  }

  function ClientOf(e: DriverEvent): Option<Client>
  {
    if e.Resolved? then Some(e.client) else None
  }

  /**
    Every callback is applied, latch or no latch: the stored QR code is the
    last one emitted, the status is the one written by the last QR, status
    or client event, and the client is the last one resolved.
   */
  lemma CreationRegistryFollowsLastEvents(name: string, start: Registry, events: seq<DriverEvent>)
    ensures CreationRun(name, start, events).registry.qrCodes == Override(start.qrCodes, name, LastSome(events, QrOf))
    ensures CreationRun(name, start, events).registry.status == Override(start.status, name, LastSome(events, StatusOf))
    ensures CreationRun(name, start, events).registry.sessions == Override(start.sessions, name, LastSome(events, ClientOf))
  {
    CreationQrIsLastEmitted(name, start, events);
    CreationStatusIsLastWritten(name, start, events);
    CreationClientIsLastResolved(name, start, events);
  }

  /** Overriding twice under one name: the second value wins when there is one. */
  lemma OverrideTwice<V>(m: map<string, V>, name: string, first: Option<V>, second: Option<V>)
    ensures Override(Override(m, name, first), name, second) == Override(m, name, if second.Some? then second else first)
  {
  }

  lemma {:induction false} CreationQrIsLastEmitted(name: string, start: Registry, events: seq<DriverEvent>)
    ensures CreationRun(name, start, events).registry.qrCodes == Override(start.qrCodes, name, LastSome(events, QrOf))
    decreases |events|
  {
    if |events| > 0 {
      var prefix := events[..|events| - 1];
      var e := events[|events| - 1];
      assert events == prefix + [e];
      CreationQrIsLastEmitted(name, start, prefix);
      LastSomeSnoc(prefix, e, QrOf);
      OverrideTwice(start.qrCodes, name, LastSome(prefix, QrOf), QrOf(e));
    }
  }

  lemma {:induction false} CreationStatusIsLastWritten(name: string, start: Registry, events: seq<DriverEvent>)
    ensures CreationRun(name, start, events).registry.status == Override(start.status, name, LastSome(events, StatusOf))
    decreases |events|
  {
    if |events| > 0 {
      var prefix := events[..|events| - 1];
      var e := events[|events| - 1];
      assert events == prefix + [e];
      CreationStatusIsLastWritten(name, start, prefix);
      LastSomeSnoc(prefix, e, StatusOf);
      OverrideTwice(start.status, name, LastSome(prefix, StatusOf), StatusOf(e));
    }
  }

  lemma {:induction false} CreationClientIsLastResolved(name: string, start: Registry, events: seq<DriverEvent>)
    ensures CreationRun(name, start, events).registry.sessions == Override(start.sessions, name, LastSome(events, ClientOf))
    decreases |events|
  {
    if |events| > 0 {
      var prefix := events[..|events| - 1];
      var e := events[|events| - 1];
      assert events == prefix + [e];
      CreationClientIsLastResolved(name, start, prefix);
      LastSomeSnoc(prefix, e, ClientOf);
      OverrideTwice(start.sessions, name, LastSome(prefix, ClientOf), ClientOf(e));
    }
  }

  /**
    The worked example: a fresh registry, a QR code first, then the client.
    The caller gets the QR code; the status is QR_READY until the client
    arrives and CONNECTED afterwards.
   */
  lemma QrThenClientExample(c: Client)
    ensures var a := CreateSession(Empty, "co1", None, [QrEmitted("QRDATA")]);
            && a.outcome == Paired("company_co1", "QRDATA")
            && GetSessionStatus(a.registry, "company_co1") == Some(QrReady)
    ensures var a := CreateSession(Empty, "co1", None, [QrEmitted("QRDATA"), Resolved(c)]);
            && a.outcome == Paired("company_co1", "QRDATA")
            && GetSessionStatus(a.registry, "company_co1") == Some(Connected)
            && a.registry.sessions["company_co1"] == c
  {
    var evs := [QrEmitted("QRDATA"), Resolved(c)];
    assert evs[..1] == [QrEmitted("QRDATA")];
    assert [QrEmitted("QRDATA")][..0] == [];
  }

  /** After pairing, `getQRCode` serves the most recent QR code the driver emitted. */
  lemma QrRetrievableAfterPairing(reg: Registry, companyId: string, sessionName: Option<string>, events: seq<DriverEvent>)
    requires CreateSession(reg, companyId, sessionName, events).outcome.Paired?
    requires LastSome(events, QrOf).Some? && LastSome(events, QrOf).value != ""
    ensures var a := CreateSession(reg, companyId, sessionName, events);
            GetQRCode(a.registry, SessionNameFor(companyId, sessionName)) == Success(Some(LastSome(events, QrOf).value))
  {
    CreationRegistryFollowsLastEvents(SessionNameFor(companyId, sessionName), reg, events);
  }

  /** A successful disconnect lifts the guard: creating the same session again is not refused. */
  lemma CreationAllowedAfterDisconnect(reg: Registry, companyId: string, sessionName: Option<string>, events: seq<DriverEvent>)
    requires SessionNameFor(companyId, sessionName) in reg.sessions
    ensures var after := DisconnectSession(reg, SessionNameFor(companyId, sessionName), LoggedOut).registry;
            CreateSession(after, companyId, sessionName, events).outcome != AlreadyConnected
  {
  }
}
