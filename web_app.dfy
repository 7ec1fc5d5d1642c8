/**
 * The browser build of the dashboard (renderer-web.js): the connection flags and texts,
 * the packet counter, the connection log and the three-state heater toggle, updated by the
 * page's click handlers. The HTTP requests the handlers await become a `Reply` parameter;
 * log entries are kept as their messages, without the time stamp `addToLog` prefixes.
 */
module WebApp {
  import opened Values

  /**
   * What an awaited request gave the handler: a reply whose `success` is truthy, a reply
   * whose `success` is falsy (with its `error` field, `None` when it is undefined), or an
   * exception with its message.
   */
  datatype Reply = Succeeded | Failed(error: Option<string>) | Threw(message: string)

  /** `'' + result.error`: an undefined error reads `undefined`. */
  function ErrorText(error: Option<string>): (t: string)
    ensures error.Some? ==> t == error.value
  {
    if error.Some? then error.value else "undefined"
  }

  /** `res && res.error ? res.error : 'Unknown error'`: an empty error is falsy too. */
  function HeaterErrorText(error: Option<string>): (t: string)
    ensures t != ""
    ensures t == "Unknown error" || (error.Some? && t == error.value)
    ensures error.Some? && error.value != "" ==> t == error.value
  {
    if error.Some? && error.value != "" then error.value else "Unknown error"
  }

  /** The mode the heater toggle moves to: off, left, right, then off again. */
  function NextMode(mode: int): int {
    (mode + 1) % 3
  }

  /** The mode after `n` clicks of the heater toggle. */
  function Clicks(mode: int, n: nat): int
    decreases n
  {
    if n == 0 then mode else NextMode(Clicks(mode, n - 1))
  }

  /** `n` clicks from a mode in 0..2 lead to mode `(mode + n) % 3`; three clicks come back. */
  lemma {:induction false} ClicksCycle(mode: int, n: nat)
    requires 0 <= mode < 3
    ensures Clicks(mode, n) == (mode + n) % 3
    ensures 0 <= Clicks(mode, n) < 3
    ensures n % 3 == 0 ==> Clicks(mode, n) == mode
    decreases n
  {
    if n > 0 {
      ClicksCycle(mode, n - 1);
    }
  }

  /** The heater toggle's caption for a mode. */
  function HeaterLabel(mode: int): string {
    if mode == 0 then "\U{1F525} Heater: Off"
    else if mode == 1 then "\U{1F525} Heater: Left"
    else "\U{1F525} Heater: Right"
  }

  /** Each of the three modes has its own caption, so the caption tells which mode is on. */
  lemma HeaterLabelsDistinct(m: int, n: int)
    requires 0 <= m < 3 && 0 <= n < 3 && m != n
    ensures HeaterLabel(m) != HeaterLabel(n)
  {
    var off, left, right := HeaterLabel(0), HeaterLabel(1), HeaterLabel(2);
    assert off[10] == 'O' && left[10] == 'L' && right[10] == 'R';
  }

  class WebPage {
    /** `isConnected` */
    var connected: bool
    /** `packetCount` */
    var packetCount: nat
    /** `heaterMode`: 0 off, 1 left, 2 right. */
    var heaterMode: int
    /** `connectBtn.disabled` */
    var connectDisabled: bool
    /** `disconnectBtn.disabled` */
    var disconnectDisabled: bool
    /** The connection status and connection information texts. */
    var statusText: string
    var infoText: string
    /** The heater toggle's caption and its `active` class. */
    var heaterLabel: string
    var heaterActive: bool
    /** The messages of the connection log, oldest first. */
    var log: seq<string>

    /** The heater mode is one of the three the toggle cycles through. */
    predicate Valid()
      reads this`heaterMode
    {
      0 <= heaterMode < 3
    }

    /** The buttons offer exactly the action that fits the connection state. */
    predicate ButtonsMatch()
      reads this`connected, this`connectDisabled, this`disconnectDisabled
    {
      connectDisabled == connected && disconnectDisabled == !connected
    }

    /**
     * The script's start: disconnected, no packets, heater off. The buttons and texts
     * keep what the page's markup gives them, passed in here.
     */
    constructor (connectDisabled0: bool, disconnectDisabled0: bool, label0: string)
      ensures Valid()
      ensures !connected && packetCount == 0 && heaterMode == 0 && log == []
      ensures connectDisabled == connectDisabled0 && disconnectDisabled == disconnectDisabled0
      ensures heaterLabel == label0
    {
      connected := false;
      packetCount := 0;
      heaterMode := 0;
      connectDisabled := connectDisabled0;
      disconnectDisabled := disconnectDisabled0;
      statusText := "";
      infoText := "";
      heaterLabel := label0;
      heaterActive := false;
      log := [];
    }

    /** `addToLog(message)` */
    method AddToLog(message: string)
      modifies this`log
      ensures log == old(log) + [message]
    {
      log := log + [message];
    }

    /**
     * `updateConnectionStatus(c, portInfo)`: the flag follows `c`, the connect button is
     * disabled exactly when connected and the disconnect button exactly when not; the
     * information text shows the port while connected.
     */
    method UpdateConnectionStatus(c: bool, portInfo: string)
      modifies this`connected, this`connectDisabled, this`disconnectDisabled, this`statusText, this`infoText
      ensures connected == c && ButtonsMatch()
      ensures statusText == (if c then "Connected" else "Disconnected")
      ensures infoText == (if c then portInfo else "No device connected")
    {
      connected := c;
      if c {
        statusText := "Connected";
        infoText := portInfo;
        connectDisabled := true;
        disconnectDisabled := false;
      } else {
        statusText := "Disconnected";
        infoText := "No device connected";
        connectDisabled := false;
        disconnectDisabled := true;
      }
    }

    /**
     * `connectToPortHandler()`: with no port selected only a hint is logged; otherwise the
     * page ends connected to `selected` at 9600 baud exactly when the request succeeds.
     */
    method ConnectToPortHandler(selected: string, reply: Reply)
      modifies this`connected, this`connectDisabled, this`disconnectDisabled, this`statusText, this`infoText, this`log
      ensures selected == "" ==> unchanged(this`connected, this`connectDisabled, this`disconnectDisabled, this`statusText, this`infoText)
      ensures selected == "" ==> log == old(log) + ["Please select a COM port first"]
      ensures selected != "" ==> ButtonsMatch() && (connected <==> reply.Succeeded?)
      ensures selected != "" ==>
        && statusText == (if reply.Succeeded? then "Connected" else "Disconnected")
        && infoText == (if reply.Succeeded? then selected + " @ 9600 baud" else "No device connected")
      ensures selected != "" ==>
        log == old(log) + ["Attempting to connect to " + selected + "..."] +
          match reply
          case Succeeded => ["Successfully connected to " + selected]
          case Failed(e) => ["Failed to connect: " + ErrorText(e)]
          case Threw(m) => ["Connection error: " + m]
    {
      if selected == "" {
        AddToLog("Please select a COM port first");
        return;
      }
      AddToLog("Attempting to connect to " + selected + "...");
      match reply {
        case Succeeded =>
          AddToLog("Successfully connected to " + selected);
          UpdateConnectionStatus(true, selected + " @ 9600 baud");
        case Failed(e) =>
          AddToLog("Failed to connect: " + ErrorText(e));
          UpdateConnectionStatus(false, "");
        case Threw(m) =>
          AddToLog("Connection error: " + m);
          UpdateConnectionStatus(false, "");
      }
    }

    /** `disconnectFromPortHandler()`: whatever the reply, the page ends disconnected. */
    method DisconnectFromPortHandler(reply: Reply)
      modifies this`connected, this`connectDisabled, this`disconnectDisabled, this`statusText, this`infoText, this`log
      ensures !connected && ButtonsMatch()
      ensures statusText == "Disconnected" && infoText == "No device connected"
      ensures log == old(log) + ["Disconnecting from port..."] +
        match reply
        case Succeeded => ["Disconnected successfully"]
        case Failed(e) => ["Error disconnecting: " + ErrorText(e)]
        case Threw(m) => ["Disconnect error: " + m]
    {
      AddToLog("Disconnecting from port...");
      match reply {
        case Succeeded =>
          AddToLog("Disconnected successfully");
        case Failed(e) =>
          AddToLog("Error disconnecting: " + ErrorText(e));
        case Threw(m) =>
          AddToLog("Disconnect error: " + m);
      }
      UpdateConnectionStatus(false, "");
    }

    /** `clearLog()`: the log holds only the cleared notice and the counter restarts at 0. */
    method ClearLog()
      modifies this`log, this`packetCount
      ensures log == ["Connection log cleared"] && packetCount == 0
    {
      log := ["Connection log cleared"];
      packetCount := 0;
    }

    /**
     * The heater toggle's click handler: the mode advances to the next of off, left and
     * right before the request is sent and whatever its reply; the caption names the new
     * mode and the button is marked active unless the heater is off.
     */
    method HeaterToggle(reply: Reply)
      requires Valid()
      modifies this`heaterMode, this`heaterLabel, this`heaterActive, this`log
      ensures Valid()
      ensures heaterMode == NextMode(old(heaterMode))
      ensures heaterLabel == HeaterLabel(heaterMode)
      ensures heaterActive <==> heaterMode != 0
      ensures log == old(log) +
        match reply
        case Succeeded => []
        case Failed(e) => ["Failed to set heater: " + HeaterErrorText(e)]
        case Threw(m) => ["Error setting heater: " + m]
    {
      heaterMode := (heaterMode + 1) % 3;
      match reply {
        case Succeeded =>
        case Failed(e) =>
          AddToLog("Failed to set heater: " + HeaterErrorText(e));
        case Threw(m) =>
          AddToLog("Error setting heater: " + m);
      }
      if heaterMode == 0 {
        heaterLabel := "\U{1F525} Heater: Off";
        heaterActive := false;
      } else if heaterMode == 1 {
        heaterLabel := "\U{1F525} Heater: Left";
        heaterActive := true;
      } else {
        heaterLabel := "\U{1F525} Heater: Right";
        heaterActive := true;
      }
    }
  }
}
