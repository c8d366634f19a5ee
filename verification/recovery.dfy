/**
  `recoverSession`: re-create the driver session for a name the registry has
  no client for, and let the first of four outcomes decide: a QR code (the
  session must be paired again), the client (stored as CONNECTED), a
  rejection, or the ten-second timer.
 */
module Recovery {
  import opened Wrappers
  import opened Strings
  import opened SocketStates
  import opened SessionRegistry
  import opened Driver

  /** The phrase the driver's rejection carries when the browser profile is held by another process. */
  const BrowserRunning := "browser is already running"

  datatype RecoveryError =
    | RePairRequired             // the driver asked for a QR code
    | Desynchronized             // the session runs elsewhere and cannot be attached
    | DriverFailure(cause: string) // any other rejection, passed on as it came
    | RecoveryTimeout            // nothing settled within the timer
  {
    /**
      The `message` of the error `recoverSession` rejects with. The fixed texts
      are written as concatenations of short literals so that the absence of
      the driver's phrase can be proved piece by piece.
     */
    function Message(): string
    {
      match this
      case RePairRequired =>
        "Sessão não encontrada. " + "É necessário conectar " + "o WhatsApp novamente."
      case Desynchronized =>
        "A sessão do WhatsApp está " + "rodando mas não está " + "sincronizada. Por favor, "
        + "desconecte e reconecte " + "o WhatsApp na interface " + "para sincronizar o estado."
      case DriverFailure(m) => m
      case RecoveryTimeout =>
        "Timeout ao recuperar " + "sessão. A sessão pode " + "não existir ou estar " + "desconectada."
    }
  }

  datatype RecoveryOutcome = Unsettled | Recovered(client: Client) | RecoveryFailed(error: RecoveryError)

  datatype Recovery = Recovery(registry: Registry, outcome: RecoveryOutcome)

  /** How a driver rejection is classified. */
  function ClassifyRejection(message: string): (e: RecoveryError)
    ensures e == Desynchronized <==> Contains(message, BrowserRunning)
    ensures e != Desynchronized ==> e == DriverFailure(message)
  {
    if Contains(message, BrowserRunning) then Desynchronized else DriverFailure(message)
  }

  /** Every event except a status report settles recovery. */
  predicate Settles(e: DriverEvent)
  {
    !e.StatusFound?
  }

  /** The outcome a settling event gives when it is the first one. */
  function SettledBy(e: DriverEvent): RecoveryOutcome
    requires Settles(e)
  {
    match e
    case QrEmitted(_) => RecoveryFailed(RePairRequired)
    case Resolved(c) => Recovered(c)
    case Rejected(m) => RecoveryFailed(ClassifyRejection(m))
    case TimedOut => RecoveryFailed(RecoveryTimeout)
  }

  /**
    One callback of the recovery run for `name`. Status reports always write
    the status; a QR code writes nothing; the client is stored only while the
    latch is still open.
   */
  function RecoveryStep(name: string, rec: Recovery, e: DriverEvent): (next: Recovery)
    ensures OnlyTouches(rec.registry, next.registry, name)
    ensures next.registry.qrCodes == rec.registry.qrCodes
    ensures next.registry.status ==
              if e.StatusFound? then rec.registry.status[name := MapStatusFind(e.native)]
              else if e.Resolved? && rec.outcome.Unsettled? then rec.registry.status[name := Connected]
              else rec.registry.status
    ensures next.registry.sessions == if e.Resolved? && rec.outcome.Unsettled? then rec.registry.sessions[name := e.client] else rec.registry.sessions
    ensures !rec.outcome.Unsettled? ==> next.outcome == rec.outcome
    ensures rec.outcome.Unsettled? ==> next.outcome == if Settles(e) then SettledBy(e) else Unsettled
  {
    var latchOpen := rec.outcome.Unsettled?;
    match e
    case StatusFound(s) => Recovery(SetStatus(rec.registry, name, MapStatusFind(s)), rec.outcome)
    case Resolved(c) => if latchOpen then Recovery(StoreClient(rec.registry, name, c), Recovered(c)) else rec
    case _ => if latchOpen then Recovery(rec.registry, SettledBy(e)) else rec
  }

  function RecoveryRun(name: string, start: Registry, events: seq<DriverEvent>): (r: Recovery)
    ensures OnlyTouches(start, r.registry, name)
    ensures r.registry.qrCodes == start.qrCodes
    ensures Consistent(start) ==> Consistent(r.registry)
    ensures r.outcome.Recovered? ==> name in r.registry.sessions && r.registry.sessions[name] == r.outcome.client
    decreases |events|
  {
    if |events| == 0 then Recovery(start, Unsettled)
    else RecoveryStep(name, RecoveryRun(name, start, events[..|events| - 1]), events[|events| - 1])
  }

  /**
    `recoverSession` over the events delivered before the caller resumes; if
    none of them settled, the timer is what settles it.
   */
  function RecoverSession(reg: Registry, name: string, events: seq<DriverEvent>): (r: Recovery)
    ensures !r.outcome.Unsettled?
    ensures r.registry == RecoveryRun(name, reg, events).registry
    ensures r.outcome.Recovered? ==> name in r.registry.sessions && r.registry.sessions[name] == r.outcome.client
    ensures r.registry.qrCodes == reg.qrCodes
    ensures OnlyTouches(reg, r.registry, name)
    ensures Consistent(reg) ==> Consistent(r.registry)
  {
    var run := RecoveryRun(name, reg, events);
    if run.outcome.Unsettled? then Recovery(run.registry, RecoveryFailed(RecoveryTimeout)) else run
  }

  /** Only the first settling event counts; with none, the outcome is the timeout error. */
  lemma {:induction false} RecoveryFirstOutcomeWins(reg: Registry, name: string, events: seq<DriverEvent>)
    ensures match FirstWhere(events, Settles)
            case None => RecoverSession(reg, name, events).outcome == RecoveryFailed(RecoveryTimeout)
            case Some(i) => RecoverSession(reg, name, events).outcome == SettledBy(events[i])
  {
    RecoveryRunFirstOutcome(name, reg, events);
  }

  lemma {:induction false} RecoveryRunFirstOutcome(name: string, start: Registry, events: seq<DriverEvent>)
    ensures match FirstWhere(events, Settles)
            case None => RecoveryRun(name, start, events).outcome == Unsettled
            case Some(i) => RecoveryRun(name, start, events).outcome == SettledBy(events[i])
    decreases |events|
  {
    if |events| > 0 {
      var prefix := events[..|events| - 1];
      var last := events[|events| - 1];
      assert events == prefix + [last];
      RecoveryRunFirstOutcome(name, start, prefix);
      FirstWhereSnoc(prefix, last, Settles);
    }
  }

  /**
    A client that resolves after another outcome settled is never stored:
    the client map changes exactly when the winning event is the client.
   */
  lemma {:induction false} LateClientIsDropped(name: string, start: Registry, events: seq<DriverEvent>)
    ensures var after := RecoveryRun(name, start, events).registry.sessions;
            match FirstWhere(events, Settles)
            case Some(i) => after == (if events[i].Resolved? then start.sessions[name := events[i].client] else start.sessions)
            case None => after == start.sessions
    decreases |events|
  {
    if |events| > 0 {
      var prefix := events[..|events| - 1];
      var last := events[|events| - 1];
      assert events == prefix + [last];
      LateClientIsDropped(name, start, prefix);
      RecoveryRunFirstOutcome(name, start, prefix);
      FirstWhereSnoc(prefix, last, Settles);
    }
  }

  /** The status a recovery event writes regardless of the latch: only status reports do. */
  function StatusReportOf(e: DriverEvent): Option<SocketState>
  {
    if e.StatusFound? then Some(MapStatusFind(e.native)) else None
  }

  /**
    The status recovery should leave under `name`: when the winning event is
    the client, CONNECTED overridden by any later status report; otherwise
    the last status report, or the old entry when there is none.
   */
  function ExpectedRecoveryStatus(start: map<string, SocketState>, name: string, events: seq<DriverEvent>): map<string, SocketState>
  {
    match FirstWhere(events, Settles)
    case Some(i) =>
      if events[i].Resolved? then Override(start[name := Connected], name, LastSome(events[i + 1..], StatusReportOf))
      else Override(start, name, LastSome(events, StatusReportOf))
    case None => Override(start, name, LastSome(events, StatusReportOf))
  }

  /** Writing under `name` after an override leaves only the write. */
  lemma OverrideThenSet<V>(m: map<string, V>, name: string, v: Option<V>, x: V)
    ensures Override(m, name, v)[name := x] == m[name := x]
  {
  }

  /** The reference status of a trace the client settled at `i`. */
  lemma ExpectedStatusWonByClient(st: map<string, SocketState>, name: string, events: seq<DriverEvent>, i: nat)
    requires FirstWhere(events, Settles) == Some(i) && events[i].Resolved?
    ensures ExpectedRecoveryStatus(st, name, events) == Override(st[name := Connected], name, LastSome(events[i + 1..], StatusReportOf))
  {
  }

  /** The reference status of a trace settled at `i` by anything but the client. */
  lemma ExpectedStatusWonOtherwise(st: map<string, SocketState>, name: string, events: seq<DriverEvent>, i: nat)
    requires FirstWhere(events, Settles) == Some(i) && !events[i].Resolved?
    ensures ExpectedRecoveryStatus(st, name, events) == Override(st, name, LastSome(events, StatusReportOf))
  {
  }

  /** Once a prefix has settled, appending an event only lets a status report write. */
  lemma ExpectedStatusSnocSettled(st: map<string, SocketState>, name: string, prefix: seq<DriverEvent>, e: DriverEvent)
    requires FirstWhere(prefix, Settles).Some?
    ensures ExpectedRecoveryStatus(st, name, prefix + [e]) ==
              if e.StatusFound? then ExpectedRecoveryStatus(st, name, prefix)[name := MapStatusFind(e.native)]
              else ExpectedRecoveryStatus(st, name, prefix)
  {
    var i := FirstWhere(prefix, Settles).value;
    FirstWhereSnoc(prefix, e, Settles);
    if prefix[i].Resolved? {
      SnocAfterClientWon(st, name, prefix, e, i);
    } else {
      SnocAfterOtherWin(st, name, prefix, e, i);
    }
  }

  /** The settled case of the step above when the client won. */
  lemma SnocAfterClientWon(st: map<string, SocketState>, name: string, prefix: seq<DriverEvent>, e: DriverEvent, i: nat)
    requires FirstWhere(prefix, Settles) == Some(i) && FirstWhere(prefix + [e], Settles) == Some(i)
    requires prefix[i].Resolved?
    ensures ExpectedRecoveryStatus(st, name, prefix + [e]) ==
              if e.StatusFound? then ExpectedRecoveryStatus(st, name, prefix)[name := MapStatusFind(e.native)]
              else ExpectedRecoveryStatus(st, name, prefix)
  {
    var events := prefix + [e];
    assert events[i] == prefix[i];
    ExpectedStatusWonByClient(st, name, events, i);
    ExpectedStatusWonByClient(st, name, prefix, i);
    assert events[i + 1..] == prefix[i + 1..] + [e];
    ExpectedStatusSnocTail(st[name := Connected], name, prefix[i + 1..], e);
  }

  /** The settled case of the step above when anything but the client won. */
  lemma SnocAfterOtherWin(st: map<string, SocketState>, name: string, prefix: seq<DriverEvent>, e: DriverEvent, i: nat)
    requires FirstWhere(prefix, Settles) == Some(i) && FirstWhere(prefix + [e], Settles) == Some(i)
    requires !prefix[i].Resolved?
    ensures ExpectedRecoveryStatus(st, name, prefix + [e]) ==
              if e.StatusFound? then ExpectedRecoveryStatus(st, name, prefix)[name := MapStatusFind(e.native)]
              else ExpectedRecoveryStatus(st, name, prefix)
  {
    var events := prefix + [e];
    assert events[i] == prefix[i];
    ExpectedStatusWonOtherwise(st, name, events, i);
    ExpectedStatusWonOtherwise(st, name, prefix, i);
    ExpectedStatusSnocTail(st, name, prefix, e);
  }

  /** Overriding with the last status report of a trace extended by one event. */
  lemma ExpectedStatusSnocTail(base: map<string, SocketState>, name: string, tail: seq<DriverEvent>, e: DriverEvent)
    ensures Override(base, name, LastSome(tail + [e], StatusReportOf)) ==
              if e.StatusFound? then Override(base, name, LastSome(tail, StatusReportOf))[name := MapStatusFind(e.native)]
              else Override(base, name, LastSome(tail, StatusReportOf))
  {
    LastSomeSnoc(tail, e, StatusReportOf);
    if e.StatusFound? {
      OverrideThenSet(base, name, LastSome(tail, StatusReportOf), MapStatusFind(e.native));
    }
  }

  /** While a prefix is unsettled, a status report writes its state and the client writes CONNECTED. */
  lemma ExpectedStatusSnocUnsettled(st: map<string, SocketState>, name: string, prefix: seq<DriverEvent>, e: DriverEvent)
    requires FirstWhere(prefix, Settles).None?
    ensures ExpectedRecoveryStatus(st, name, prefix + [e]) ==
              if e.StatusFound? then ExpectedRecoveryStatus(st, name, prefix)[name := MapStatusFind(e.native)]
              else if e.Resolved? then ExpectedRecoveryStatus(st, name, prefix)[name := Connected]
              else ExpectedRecoveryStatus(st, name, prefix)
  {
    var events := prefix + [e];
    FirstWhereSnoc(prefix, e, Settles);
    var before := LastSome(prefix, StatusReportOf);
    assert ExpectedRecoveryStatus(st, name, prefix) == Override(st, name, before);
    LastSomeSnoc(prefix, e, StatusReportOf);
    if e.Resolved? {
      assert FirstWhere(events, Settles) == Some(|prefix|);
      assert events[|prefix| + 1..] == [];
      assert LastSome(events[|prefix| + 1..], StatusReportOf) == None;
      OverrideThenSet(st, name, before, Connected);
    } else if e.StatusFound? {
      assert FirstWhere(events, Settles).None?;
      OverrideThenSet(st, name, before, MapStatusFind(e.native));
    } else {
      assert FirstWhere(events, Settles) == Some(|prefix|);
      assert events[|prefix|] == e;
    }
  }

  /** Status reports always write; the client writes CONNECTED only when it wins. */
  lemma {:induction false} RecoveryStatusIsLastWritten(name: string, start: Registry, events: seq<DriverEvent>)
    ensures RecoveryRun(name, start, events).registry.status == ExpectedRecoveryStatus(start.status, name, events)
    decreases |events|
  {
    if |events| > 0 {
      var prefix := events[..|events| - 1];
      var e := events[|events| - 1];
      assert events == prefix + [e];
      RecoveryStatusIsLastWritten(name, start, prefix);
      RecoveryRunFirstOutcome(name, start, prefix);
      var r := RecoveryRun(name, start, prefix);
      if FirstWhere(prefix, Settles).Some? {
        ExpectedStatusSnocSettled(start.status, name, prefix, e);
      } else {
        ExpectedStatusSnocUnsettled(start.status, name, prefix, e);
      }
    }
  }

  /** A recovery won by the client and followed by no status report recovers that client and leaves the session CONNECTED. */
  lemma RecoveredSessionIsConnected(reg: Registry, name: string, events: seq<DriverEvent>)
    requires FirstWhere(events, Settles).Some?
    requires events[FirstWhere(events, Settles).value].Resolved?
    requires forall k :: FirstWhere(events, Settles).value < k < |events| ==> !events[k].StatusFound?
    ensures var r := RecoverSession(reg, name, events);
            r.outcome == Recovered(events[FirstWhere(events, Settles).value].client) && IsSessionConnected(r.registry, name)
  {
    RecoveryRunFirstOutcome(name, reg, events);
    RecoveryStatusIsLastWritten(name, reg, events);
    ExpectedStatusAfterWinningClient(reg.status, name, events);
  }

  /** The reference status when the client wins and no status report follows it. */
  lemma ExpectedStatusAfterWinningClient(st: map<string, SocketState>, name: string, events: seq<DriverEvent>)
    requires FirstWhere(events, Settles).Some?
    requires events[FirstWhere(events, Settles).value].Resolved?
    requires forall k :: FirstWhere(events, Settles).value < k < |events| ==> !events[k].StatusFound?
    ensures ExpectedRecoveryStatus(st, name, events) == st[name := Connected]
  {
    var i := FirstWhere(events, Settles).value;
    var tail := events[i + 1..];
    forall k | 0 <= k < |tail| ensures StatusReportOf(tail[k]).None? {
      assert tail[k] == events[i + 1 + k];
    }
    assert LastSome(tail, StatusReportOf).None?;
  }

  /** A passed-on rejection never mentions the browser phrase, and none of the fixed messages does. */
  lemma RecoveryErrorsNeverMentionBrowser(reg: Registry, name: string, events: seq<DriverEvent>)
    ensures var out := RecoverSession(reg, name, events).outcome;
            out.RecoveryFailed? ==> !Contains(out.error.Message(), BrowserRunning)
  {
    RecoveryFirstOutcomeWins(reg, name, events);
    FixedMessagesAvoidBrowser();
  }

  /** The fixed messages have no lower-case `b`, so none can contain the phrase, which starts with one. */
  lemma FixedMessagesAvoidBrowser()
    ensures !Contains(RePairRequired.Message(), BrowserRunning)
    ensures !Contains(Desynchronized.Message(), BrowserRunning)
    ensures !Contains(RecoveryTimeout.Message(), BrowserRunning)
  {
    RePairMessageAvoidsBrowser();
    DesynchronizedMessageAvoidsBrowser();
    TimeoutMessageAvoidsBrowser();
  }

  lemma RePairMessageAvoidsBrowser()
    ensures !Contains(RePairRequired.Message(), BrowserRunning)
  {
    assert BrowserRunning[0] == 'b';
    AbsentChar(RePairRequired.Message(), BrowserRunning, 0);
  }

  lemma DesynchronizedMessageAvoidsBrowser()
    ensures !Contains(Desynchronized.Message(), BrowserRunning)
  {
    assert BrowserRunning[0] == 'b';
    DesynchronizedMessageHasNoB();
    AbsentChar(Desynchronized.Message(), BrowserRunning, 0);
  }

  lemma DesynchronizedMessageHasNoB()
    ensures 'b' !in Desynchronized.Message()
  {
    DesynchronizedOpeningHasNoB();
    DesynchronizedClosingHasNoB();
  }

  lemma DesynchronizedOpeningHasNoB()
    ensures 'b' !in "A sessão do WhatsApp está " + "rodando mas não está " + "sincronizada. Por favor, "
  {
    assert 'b' !in "A sessão do WhatsApp está ";
    assert 'b' !in "rodando mas não está ";
  }

  lemma DesynchronizedClosingHasNoB()
    ensures 'b' !in "desconecte e reconecte " + "o WhatsApp na interface " + "para sincronizar o estado."
  {
    assert 'b' !in "desconecte e reconecte ";
    assert 'b' !in "o WhatsApp na interface ";
  }

  lemma TimeoutMessageAvoidsBrowser()
    ensures !Contains(RecoveryTimeout.Message(), BrowserRunning)
  {
    assert BrowserRunning[0] == 'b';
    AbsentChar(RecoveryTimeout.Message(), BrowserRunning, 0);
  }

  /** The desynchronised case: a first rejection whose message names the running browser. */
  lemma DesynchronizedExample(reg: Registry, name: string, before: string, after: string)
    ensures RecoverSession(reg, name, [Rejected(before + BrowserRunning + after)]).outcome
              == RecoveryFailed(Desynchronized)
  {
    var m := before + BrowserRunning + after;
    ContainsInMiddle(before, BrowserRunning, after);
    var evs := [Rejected(m)];
    assert evs[..0] == [];
    assert RecoveryRun(name, reg, evs[..0]) == Recovery(reg, Unsettled);
    assert RecoveryRun(name, reg, evs) == RecoveryStep(name, Recovery(reg, Unsettled), Rejected(m));
    assert ClassifyRejection(m) == Desynchronized;
  }

  /** A QR code first means the saved session is gone: the caller is told to pair again. */
  lemma QrFirstNeedsRePairing(reg: Registry, name: string, q: string)
    ensures RecoverSession(reg, name, [QrEmitted(q)]).outcome == RecoveryFailed(RePairRequired)
  {
    var evs := [QrEmitted(q)];
    assert evs[..0] == [];
    assert RecoveryRun(name, reg, evs) == RecoveryStep(name, Recovery(reg, Unsettled), QrEmitted(q));
  }

  /** The timer firing first ends recovery with the timeout error. */
  lemma TimerFirstTimesOut(reg: Registry, name: string)
    ensures RecoverSession(reg, name, [TimedOut]).outcome == RecoveryFailed(RecoveryTimeout)
  {
    var evs := [TimedOut];
    assert evs[..0] == [];
    assert RecoveryRun(name, reg, evs) == RecoveryStep(name, Recovery(reg, Unsettled), TimedOut);
  }
}
