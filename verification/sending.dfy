/**
  `sendMessage`: find the client (recovering it when the registry has none),
  insist on CONNECTED, normalise the phone number, then hand the text to the
  driver's `sendText`.
 */
module Sending {
  import opened Wrappers
  import opened Strings
  import opened SocketStates
  import opened SessionRegistry
  import opened Driver
  import opened Recovery
  import opened Phone

  /** The driver's answer to `client.sendText`. */
  datatype SendReply = Delivered | SendRejected(message: string)

  datatype SendError =
    | SessionInaccessible                         // recovery failed naming the running browser
    | SessionUnavailable(cause: string)           // recovery failed otherwise; `cause` is its message
    | NotConnected(status: Option<SocketState>)   // a client exists but the status is not CONNECTED
    | InvalidPhone(error: PhoneError)             // the number was refused by normalisation
    | SendFailed(cause: string)                   // `sendText` rejected
  {
    function Message(): string
    {
      match this
      case SessionInaccessible =>
        "A sessão do WhatsApp está rodando mas não está acessível. "
        + "Por favor, desconecte e reconecte o WhatsApp."
      case SessionUnavailable(cause) => "Sessão não encontrada ou não conectada. Erro: " + cause
      case NotConnected(status) =>
        "Sessão não está conectada. Status atual: "
        + (if status.Some? then status.value.Text() else "NOT_FOUND")
        + ". Conecte o WhatsApp antes de enviar mensagens."
      case InvalidPhone(e) => e.Message()
      case SendFailed(cause) => "Erro ao enviar mensagem: " + cause
    }
  }

  /** The one call made to `sendText`: which client, which address, which text. */
  datatype Outgoing = Outgoing(client: Client, address: string, text: string)

  /** The registry afterwards, what the caller gets, and the `sendText` call made, if any. */
  datatype SendReport = SendReport(registry: Registry, result: Result<bool, SendError>, sent: Option<Outgoing>)

  /**
    The part of `sendMessage` after a client is in hand: `sendText` is called,
    with that client, exactly when the status is CONNECTED and the number is
    accepted; otherwise the first failing check names the error.
   */
  function Dispatch(reg: Registry, name: string, client: Client, phone: string, text: string, reply: SendReply): (r: SendReport)
    ensures r.registry == reg
    ensures r.sent.Some? <==> IsSessionConnected(reg, name) && NormalizePhone(phone).Success?
    ensures r.sent.Some? ==> r.sent.value == Outgoing(client, WhatsAppAddress(NormalizePhone(phone).value), text)
    ensures !IsSessionConnected(reg, name) ==> r.result == Failure(NotConnected(GetSessionStatus(reg, name)))
    ensures IsSessionConnected(reg, name) && NormalizePhone(phone).Failure? ==>
              r.result == Failure(InvalidPhone(NormalizePhone(phone).error))
    ensures r.result.Success? <==> r.sent.Some? && reply.Delivered?
    ensures r.result.Success? ==> r.result.value
    ensures r.sent.Some? && reply.SendRejected? ==> r.result == Failure(SendFailed(reply.message))
  {
    if !IsSessionConnected(reg, name) then
      SendReport(reg, Failure(NotConnected(GetSessionStatus(reg, name))), None)
    else
      match NormalizePhone(phone)
      case Failure(e) => SendReport(reg, Failure(InvalidPhone(e)), None)
      case Success(number) =>
        var call := Outgoing(client, WhatsAppAddress(number), text);
        match reply
        case Delivered => SendReport(reg, Success(true), Some(call))
        case SendRejected(m) => SendReport(reg, Failure(SendFailed(m)), Some(call))
  }

  /** The client `sendMessage` has once lookup, and recovery if the registry has none, are done. */
  function ClientInHand(reg: Registry, name: string, recoveryEvents: seq<DriverEvent>): Option<Client>
  {
    if name in reg.sessions then Some(reg.sessions[name])
    else
      match RecoverSession(reg, name, recoveryEvents).outcome
      case Recovered(c) => Some(c)
      case _ => None
  }

  /**
    `sendMessage`. `recoveryEvents` is what the driver delivers to recovery
    before the call resumes (unused when the registry has a client); `reply`
    is how `sendText` answers if it is called.
   */
  function SendMessage(reg: Registry, name: string, phone: string, text: string,
                       recoveryEvents: seq<DriverEvent>, reply: SendReply): (r: SendReport)
    ensures r.sent.Some? ==>
              && IsSessionConnected(r.registry, name)
              && NormalizePhone(phone).Success?
              && name in r.registry.sessions
              && r.sent.value == Outgoing(r.registry.sessions[name], WhatsAppAddress(NormalizePhone(phone).value), text)
    ensures r.result.Success? <==> r.sent.Some? && reply.Delivered?
    ensures r.result.Success? ==> r.result.value
    ensures r.sent.Some? && reply.SendRejected? ==> r.result == Failure(SendFailed(reply.message))
    ensures var client := ClientInHand(reg, name, recoveryEvents);
            client.Some? && IsSessionConnected(r.registry, name) && NormalizePhone(phone).Success? ==>
              r.sent == Some(Outgoing(client.value, WhatsAppAddress(NormalizePhone(phone).value), text))
    ensures var client := ClientInHand(reg, name, recoveryEvents);
            client.Some? && IsSessionConnected(r.registry, name) && NormalizePhone(phone).Failure? ==>
              r.result == Failure(InvalidPhone(NormalizePhone(phone).error)) && r.sent.None?
    ensures var rec := RecoverSession(reg, name, recoveryEvents);
            ClientInHand(reg, name, recoveryEvents).None? ==>
              && rec.outcome.RecoveryFailed?
              && r.result == Failure(SessionUnavailable(rec.outcome.error.Message()))
              && r.sent.None?
              && r.registry == rec.registry
    ensures name in reg.sessions ==> r.registry == reg
    ensures name !in reg.sessions ==> r.registry == RecoverSession(reg, name, recoveryEvents).registry
    ensures OnlyTouches(reg, r.registry, name)
    ensures Consistent(reg) ==> Consistent(r.registry)
  {
    if name in reg.sessions then
      Dispatch(reg, name, reg.sessions[name], phone, text, reply)
    else
      var rec := RecoverSession(reg, name, recoveryEvents);
      if rec.outcome.Recovered? then
        Dispatch(rec.registry, name, rec.outcome.client, phone, text, reply)
      else
        RecoveryErrorsNeverMentionBrowser(reg, name, recoveryEvents);
        var message := rec.outcome.error.Message();
        var error := if Contains(message, BrowserRunning) then SessionInaccessible else SessionUnavailable(message);
        SendReport(rec.registry, Failure(error), None)
  }

  /**
    A session missing from the registry whose recovery is won by the driver's
    client, with no status report after it, is sent to: `sendText` is called
    with the recovered client, the formatted address and the text.
   */
  lemma RecoveredClientIsSent(reg: Registry, name: string, phone: string, text: string,
                              events: seq<DriverEvent>, reply: SendReply)
    requires name !in reg.sessions
    requires FirstWhere(events, Settles).Some?
    requires events[FirstWhere(events, Settles).value].Resolved?
    requires forall k :: FirstWhere(events, Settles).value < k < |events| ==> !events[k].StatusFound?
    requires NormalizePhone(phone).Success?
    ensures SendMessage(reg, name, phone, text, events, reply).sent
              == Some(Outgoing(events[FirstWhere(events, Settles).value].client,
                               WhatsAppAddress(NormalizePhone(phone).value), text))
  {
    var c := events[FirstWhere(events, Settles).value].client;
    RecoveredSessionIsConnected(reg, name, events);
    assert ClientInHand(reg, name, events) == Some(c);
  }

  /**
    Sending requires CONNECTED: whenever the status left after lookup or
    recovery is not CONNECTED the call fails and `sendText` is not called;
    when a client was found or recovered, the failure is NotConnected with
    that status.
   */
  lemma SendRequiresConnected(reg: Registry, name: string, phone: string, text: string,
                              recoveryEvents: seq<DriverEvent>, reply: SendReply)
    ensures var r := SendMessage(reg, name, phone, text, recoveryEvents, reply);
            !IsSessionConnected(r.registry, name) ==>
              && r.sent.None?
              && r.result.Failure?
              && (name in r.registry.sessions ==> r.result.error == NotConnected(GetSessionStatus(r.registry, name)))
  {
    if name !in reg.sessions {
      LateClientIsDropped(name, reg, recoveryEvents);
      RecoveryRunFirstOutcome(name, reg, recoveryEvents);
    }
  }

  /**
    The "running but not accessible" error is never raised: recovery's
    messages never contain the browser phrase it tests for, so a
    desynchronised session surfaces as SessionUnavailable carrying the
    desynchronisation message instead.
   */
  lemma SendNeverReportsInaccessible(reg: Registry, name: string, phone: string, text: string,
                                     recoveryEvents: seq<DriverEvent>, reply: SendReply)
    ensures SendMessage(reg, name, phone, text, recoveryEvents, reply).result != Failure(SessionInaccessible)
  {
    RecoveryErrorsNeverMentionBrowser(reg, name, recoveryEvents);
  }

  /** With no client and a recovery rejected for the running browser, the caller gets the desynchronisation message. */
  lemma DesynchronizedSend(reg: Registry, name: string, before: string, after: string,
                           phone: string, text: string, reply: SendReply)
    requires name !in reg.sessions
    ensures var r := SendMessage(reg, name, phone, text, [Rejected(before + BrowserRunning + after)], reply);
            r.result == Failure(SessionUnavailable(Desynchronized.Message())) && r.sent.None?
  {
    DesynchronizedExample(reg, name, before, after);
    FixedMessagesAvoidBrowser();
  }
}
