/**
  The session registry of `WhatsAppService`: three maps keyed by session name
  (driver client, connection state, last QR code) and the read-only views and
  teardown the service offers over them.
 */
module SessionRegistry {
  import opened Wrappers
  import opened SocketStates

  /** An opaque driver client handle; only its identity matters here. */
  datatype Client = Client(id: nat)

  datatype Registry = Registry(
    sessions: map<string, Client>,
    status: map<string, SocketState>,
    qrCodes: map<string, string>)

  /** The registry of a freshly started process. */
  const Empty := Registry(map[], map[], map[])

  /**
    What every operation keeps: a name with a client or a QR code also has a
    status, and only the three states the service writes ever appear.
   */
  predicate Consistent(reg: Registry)
  {
    && reg.sessions.Keys <= reg.status.Keys
    && reg.qrCodes.Keys <= reg.status.Keys
    && forall n :: n in reg.status ==> Observable(reg.status[n])
  }

  /** `after` differs from `before` at most under the key `name`, in all three maps. */
  predicate OnlyTouches(before: Registry, after: Registry, name: string)
  {
    && after.sessions - {name} == before.sessions - {name}
    && after.status - {name} == before.status - {name}
    && after.qrCodes - {name} == before.qrCodes - {name}
  }

  // Single-key writes the driver callbacks perform; each touches only its
  // key and keeps the registry consistent.

  function SetStatus(reg: Registry, name: string, s: SocketState): (r: Registry)
    ensures OnlyTouches(reg, r, name)
    ensures Consistent(reg) && Observable(s) ==> Consistent(r)
  {
    reg.(status := reg.status[name := s])
  }

  function SetQrCode(reg: Registry, name: string, qr: string): (r: Registry)
    ensures OnlyTouches(reg, r, name)
    ensures Consistent(reg) ==> Consistent(r)
  {
    reg.(qrCodes := reg.qrCodes[name := qr], status := reg.status[name := QrReady])
  }

  function StoreClient(reg: Registry, name: string, c: Client): (r: Registry)
    ensures OnlyTouches(reg, r, name)
    ensures Consistent(reg) ==> Consistent(r)
  {
    reg.(sessions := reg.sessions[name := c], status := reg.status[name := Connected])
  }

  /** `getSessionStatus`: the stored state, or nothing for an unknown name. */
  function GetSessionStatus(reg: Registry, name: string): (r: Option<SocketState>)
    ensures r.Some? <==> name in reg.status
    ensures r.Some? ==> r.value == reg.status[name]
  {
    if name in reg.status then Some(reg.status[name]) else None
  }

  /** `isSessionConnected`: derived from the status alone, never from the client map. */
  function IsSessionConnected(reg: Registry, name: string): (r: bool)
    ensures r <==> GetSessionStatus(reg, name) == Some(Connected)
  {
    name in reg.status && reg.status[name] == Connected
  }

  /** A stored QR code that JavaScript treats as present (the empty string is falsy). */
  predicate HasUsableQr(reg: Registry, name: string)
  {
    name in reg.qrCodes && reg.qrCodes[name] != ""
  }

  datatype QrError = QrUnavailable

  /**
    `getQRCode`: the stored code whatever the status; otherwise nothing when
    connected; otherwise an error.
   */
  function GetQRCode(reg: Registry, name: string): (r: Result<Option<string>, QrError>)
    ensures r.Success? && r.value.Some? <==> HasUsableQr(reg, name)
    ensures r.Success? && r.value.Some? ==> r.value.value == reg.qrCodes[name]
    ensures r.Success? && r.value.None? <==> !HasUsableQr(reg, name) && IsSessionConnected(reg, name)
    ensures r.Failure? <==> !HasUsableQr(reg, name) && !IsSessionConnected(reg, name)
  {
    if HasUsableQr(reg, name) then Success(Some(reg.qrCodes[name]))
    else if name in reg.status && reg.status[name] == Connected then Success(None)
    else Failure(QrUnavailable)
  }

  /** A stale QR code stays retrievable after the session connects. */
  lemma StaleQrSurvivesConnection(reg: Registry, name: string, c: Client)
    requires HasUsableQr(reg, name)
    ensures GetQRCode(StoreClient(reg, name, c), name) == Success(Some(reg.qrCodes[name]))
    ensures IsSessionConnected(StoreClient(reg, name, c), name)
  {
  }

  /** The driver's answer to `client.logout()`. */
  datatype LogoutReply = LoggedOut | LogoutFailed(message: string)

  /** The registry after `disconnectSession`, the client logged out (if any) and the error raised (if any). */
  datatype Disconnection = Disconnection(registry: Registry, loggedOut: Option<Client>, error: Option<string>)

  /**
    `disconnectSession`: nothing happens without a client; a successful logout
    removes the name from all three maps; a failed one leaves all three as they were.
   */
  function DisconnectSession(reg: Registry, name: string, reply: LogoutReply): (r: Disconnection)
    ensures r.loggedOut.Some? <==> name in reg.sessions
    ensures r.loggedOut.Some? ==> r.loggedOut.value == reg.sessions[name]
    ensures r.error.None? && r.loggedOut.Some? ==>
              name !in r.registry.sessions && name !in r.registry.status && name !in r.registry.qrCodes
    ensures r.error.None? <==> name !in reg.sessions || reply.LoggedOut?
    ensures r.error.Some? ==> r.registry == reg && r.error.value == "Erro ao desconectar sessão: " + reply.message
    ensures name !in reg.sessions ==> r.registry == reg
    ensures OnlyTouches(reg, r.registry, name)
    ensures Consistent(reg) ==> Consistent(r.registry)
  {
    if name !in reg.sessions then Disconnection(reg, None, None)
    else
      var client := reg.sessions[name];
      match reply
      case LoggedOut =>
        Disconnection(Registry(reg.sessions - {name}, reg.status - {name}, reg.qrCodes - {name}), Some(client), None)
      case LogoutFailed(m) =>
        Disconnection(reg, Some(client), Some("Erro ao desconectar sessão: " + m))
  }

  /** After a successful disconnect the name is unknown to every query. */
  lemma DisconnectForgetsSession(reg: Registry, name: string)
    requires name in reg.sessions
    ensures var after := DisconnectSession(reg, name, LoggedOut).registry;
            && GetSessionStatus(after, name) == None
            && !IsSessionConnected(after, name)
            && GetQRCode(after, name) == Failure(QrUnavailable)
  {
  }

  /** Lists every element of a finite set once. */
  method Enumerate(s: set<string>) returns (xs: seq<string>)
    ensures forall x :: x in s <==> x in xs
    ensures |xs| == |s|
    ensures forall i, j :: 0 <= i < j < |xs| ==> xs[i] != xs[j]
  {
    xs := [];
    var rest := s;
    while rest != {}
      invariant rest <= s
      invariant forall x :: x in s <==> x in xs || x in rest
      invariant forall x :: x in xs ==> x !in rest
      invariant |xs| + |rest| == |s|
      invariant forall i, j :: 0 <= i < j < |xs| ==> xs[i] != xs[j]
      decreases rest
    {
      var x :| x in rest;
      xs := xs + [x];
      rest := rest - {x};
    }
  }

  /** `getAllSessions`: the names that have a client, each once. */
  method GetAllSessions(reg: Registry) returns (names: seq<string>)
    ensures forall n :: n in names <==> n in reg.sessions
    ensures forall i, j :: 0 <= i < j < |names| ==> names[i] != names[j]
  {
    names := Enumerate(reg.sessions.Keys);
  }

  /** One row of `getAllSessionsWithStatus`. */
  datatype SessionInfo = SessionInfo(sessionName: string, status: Option<SocketState>, hasClient: bool)

  function InfoOf(reg: Registry, name: string): SessionInfo
  {
    SessionInfo(name, GetSessionStatus(reg, name), name in reg.sessions)
  }

  /**
    `getAllSessionsWithStatus`: one row for every name in the union of the
    client map and the status map, each with its status and whether a client exists.
   */
  method GetAllSessionsWithStatus(reg: Registry) returns (rows: seq<SessionInfo>)
    ensures forall n :: n in NamesOf(rows) <==> n in reg.sessions || n in reg.status
    ensures forall i :: 0 <= i < |rows| ==> rows[i].status == GetSessionStatus(reg, rows[i].sessionName)
    ensures forall i :: 0 <= i < |rows| ==> (rows[i].hasClient <==> rows[i].sessionName in reg.sessions)
    ensures forall i, j :: 0 <= i < j < |rows| ==> rows[i].sessionName != rows[j].sessionName
  {
    var names := Enumerate(reg.sessions.Keys + reg.status.Keys);
    rows := seq(|names|, i requires 0 <= i < |names| => InfoOf(reg, names[i]));
    assert NamesOf(rows) == names;
  }

  /** The session names of a listing, in order. */
  function NamesOf(rows: seq<SessionInfo>): (names: seq<string>)
    ensures |names| == |rows|
    ensures forall i :: 0 <= i < |rows| ==> names[i] == rows[i].sessionName
  {
    seq(|rows|, i requires 0 <= i < |rows| => rows[i].sessionName)
  }

  /** In a consistent registry every listed session has a status and the listing is exactly the status map's keys. */
  lemma ListingOfConsistentRegistry(reg: Registry, n: string)
    requires Consistent(reg)
    ensures n in reg.sessions || n in reg.status <==> n in reg.status
    ensures n in reg.status ==> InfoOf(reg, n).status.Some? && Observable(InfoOf(reg, n).status.value)
  {
  }
}
