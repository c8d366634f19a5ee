/** The connection states a session can be in, and the driver's status vocabulary mapped onto them. */
module SocketStates {

  /** The six states of the source's `SocketState` union. */
  datatype SocketState = Connecting | Connected | Disconnected | QrReady | Opening | Close
  {
    /** The string the service reports for this state. */
    function Text(): string
    {
      match this
      case Connecting => "CONNECTING"
      case Connected => "CONNECTED"
      case Disconnected => "DISCONNECTED"
      case QrReady => "QR_READY"
      case Opening => "OPENING"
      case Close => "CLOSE"
    }
  }

  /** The only states the service itself ever writes into its status map. */
  predicate Observable(s: SocketState)
  {
    s == Connected || s == QrReady || s == Disconnected
  }

  /**
    The `statusFind` callback's translation of a driver status string.
    Every string, including ones the table does not name, gets a state.
   */
  function MapStatusFind(native: string): (r: SocketState)
    ensures r == Connected <==> native == "isLogged" || native == "inChat"
    ensures r == QrReady <==> native == "qrReadSuccess" || native == "qrReadFail"
    ensures Observable(r)
  {
    if native == "isLogged" || native == "inChat" then Connected
    else if native == "qrReadSuccess" || native == "qrReadFail" then QrReady
    else if native == "notLogged" || native == "phoneNotConnected" then Disconnected
    else Disconnected
  }

  /** Each row of the fixed table, and the safe default for everything else. */
  lemma StatusTable(native: string)
    ensures MapStatusFind("isLogged") == Connected && MapStatusFind("inChat") == Connected
    ensures MapStatusFind("qrReadSuccess") == QrReady && MapStatusFind("qrReadFail") == QrReady
    ensures MapStatusFind("notLogged") == Disconnected && MapStatusFind("phoneNotConnected") == Disconnected
    ensures native !in {"isLogged", "inChat", "qrReadSuccess", "qrReadFail"} ==> MapStatusFind(native) == Disconnected
  {
  }
}
