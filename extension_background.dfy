/** The watch-party extension's background script
    (watch-party-extension/background-script.js): it keeps whether tracking is on,
    whether its WebSocket to the relay is connected, the last snapshot the page
    script reported and the tab it runs in; it answers the popup, starts and stops
    the page script, forwards snapshots to the relay, and shows the state as the
    toolbar icon. */
module Background {
  import opened Base
  import opened Clock
  import opened Registry
  import TitleTracker

  // ---------------------------------------------------------------- pure helpers

  /** `formatTime`: '--:--' for NaN and for negative input; otherwise floored hours,
      shown only when positive, then minutes and seconds, each padded to two digits.
      A finite time reads back as itself, with an hours field from one hour on;
      infinity passes the guard and prints its hours as "Infinity" and the rest as
      "NaN". */
  function FormatTime(t: Num): (r: string)
    ensures t.NaN? || t.NegInf? || (t.Fin? && t.v < 0) ==> r == "--:--"
    ensures t.Fin? && t.v >= 0 ==> ClockValue(r) == Some(t.v) && Padded(r)
    ensures t.Fin? && t.v >= 0 ==> FieldCount(r) == if t.v >= 3600 then 3 else 2
    ensures t.PosInf? ==> r == "Infinity:NaN:NaN"
  {
    match t
    case NaN => "--:--"
    case NegInf => "--:--"
    case PosInf => "Infinity:NaN:NaN"
    case Fin(v) => if v < 0 then "--:--" else FloorClockIsShort(v); FloorClock(v)
  }

  /** The arithmetic of `formatTime` on a non-negative whole number of seconds. */
  function FloorClock(t: nat): string
  {
    var h, m, s := t / 3600, (t % 3600) / 60, t % 60;
    var hh := if h > 0 then PadStart2(IntToString(h)) + ":" else "";
    hh + PadStart2(IntToString(m)) + ":" + PadStart2(IntToString(s))
  }

  lemma FloorClockIsShort(t: nat)
    ensures FloorClock(t) == ShortClock(t)
  {
  }

  /** The toolbar icons. */
  datatype Icon = IconConnected | IconInactive | IconError

  /** `updateActionIcon`'s choice: green whenever the socket is connected, whether
      or not tracking is on; otherwise red while tracking is on and grey while it
      is off. */
  function IconFor(active: bool, connected: bool): (r: Icon)
    ensures r == IconConnected <==> connected
    ensures r == IconError <==> active && !connected
    ensures r == IconInactive <==> !active && !connected
  {
    if active then (if connected then IconConnected else IconError)
    else (if connected then IconConnected else IconInactive)
  }

  /** A truthy tab id (Chrome's ids are numbers; 0 is falsy). */
  predicate TabKnown(t: Option<nat>)
  {
    t.Some? && t.value != 0
  }

  /** The guard of `VIDEO_INFO_UPDATE`: tracking on, the socket flagged connected,
      a socket present and OPEN, and a snapshot that is not null. */
  predicate Forwards(active: bool, connected: bool, ws: Option<ReadyState>, info: Option<TitleTracker.Snapshot>)
  {
    active && connected && ws == Some(Open) && info.Some?
  }

  /** The state the popup is told: `isTrackingActive`, `isServerConnected`,
      `lastVideoInfo`. */
  datatype State = State(isTrackingActive: bool, isServerConnected: bool, lastVideoInfo: Option<TitleTracker.Snapshot>)

  /** What `sendResponse` is called with. */
  datatype Reply = StateReply(state: State) | Processed

  /** A `CONTROL_TRACKING` message to the page script of a tab: 'start' or 'stop'. */
  datatype Control = Control(tab: nat, start: bool)

  /** A `FROM_EXTENSION` frame sent on a socket. */
  datatype Frame = FromExtension(socket: nat, data: TitleTracker.Snapshot)

  // ---------------------------------------------------------------- the script's state

  /** The script's globals. Sockets are numbered in creation order: `sockets` holds
      the ready state of every socket created, `current` the one `webSocket` refers
      to, and `listening` the sockets whose `onclose` handler is still attached and
      which have not closed yet. The popup updates, the messages to tabs and the
      frames sent are logged in order. */
  class Background {
    var isActive: bool
    var isSocketConnected: bool
    var current: Option<nat>
    var sockets: map<nat, ReadyState>
    var listening: set<nat>
    var nextSocket: nat
    var lastVideoInfo: Option<TitleTracker.Snapshot>
    var currentTabId: Option<nat>
    var icon: Icon
    var popupUpdates: seq<State>
    var tabMessages: seq<Control>
    var frames: seq<Frame>

    /** The bookkeeping of the sockets is consistent. */
    ghost predicate Valid()
      reads this`current, this`sockets, this`listening, this`nextSocket
    {
      && (current.Some? ==> current.value in sockets)
      && (forall id :: id in sockets ==> id < nextSocket)
      && (forall id :: id in listening ==> id in sockets && sockets[id] != Closed)
    }

    /** No socket but `webSocket` can still change the state: every other socket has
        finished connecting and lost its `onclose` handler, the current one keeps
        its handler, and the connected flag is set only while the current socket is
        open or closing. */
    ghost predicate Tidy()
      reads this`current, this`sockets, this`listening, this`isSocketConnected
    {
      && (forall id :: id in sockets && Some(id) != current ==> sockets[id] != Connecting && id !in listening)
      && (current.Some? ==> current.value in listening)
      && (isSocketConnected ==> current.Some? && current.value in sockets
                                && (sockets[current.value] == Open || sockets[current.value] == Closing))
    }

    /** The ready state of `webSocket`, None while it is null. */
    function SocketState(): Option<ReadyState>
      reads this`current, this`sockets
    {
      if current.Some? && current.value in sockets then Some(sockets[current.value]) else None
    }

    function CurrentState(): State
      reads this`isActive, this`isSocketConnected, this`lastVideoInfo
    {
      State(isActive, isSocketConnected, lastVideoInfo)
    }

    /** What `connectWebSocket` does to the sockets, from the given previous ones:
        nothing while the socket is OPEN or CONNECTING; otherwise a new socket,
        connecting and with its `onclose` attached, becomes `webSocket`. */
    ghost predicate ConnectStep(c0: Option<nat>, s0: map<nat, ReadyState>, l0: set<nat>, n0: nat)
      reads this`current, this`sockets, this`listening, this`nextSocket
    {
      var st := if c0.Some? && c0.value in s0 then Some(s0[c0.value]) else None;
      if st == Some(Open) || st == Some(Connecting) then
        current == c0 && sockets == s0 && listening == l0 && nextSocket == n0
      else
        current == Some(n0) && sockets == s0[n0 := Connecting] && listening == l0 + {n0} && nextSocket == n0 + 1
    }

    /** What `disconnectWebSocket` does to the sockets: the current one, if any,
        loses its `onclose` handler and is asked to close, and `webSocket` is null. */
    ghost predicate DisconnectStep(c0: Option<nat>, s0: map<nat, ReadyState>, l0: set<nat>)
      reads this`current, this`sockets, this`listening
    {
      && current.None?
      && (c0.Some? && c0.value in s0 ==>
            sockets == s0[c0.value := if s0[c0.value] == Closed then Closed else Closing]
            && listening == l0 - {c0.value})
      && (c0.None? ==> sockets == s0 && listening == l0)
    }

    /** The script's load: the globals start cleared and `initializeExtensionState`
        shows the grey icon. */
    constructor ()
      ensures Valid() && Tidy()
      ensures !isActive && !isSocketConnected && current.None? && sockets == map[] && listening == {} && nextSocket == 0
      ensures lastVideoInfo.None? && currentTabId.None? && icon == IconInactive
      ensures popupUpdates == [] && tabMessages == [] && frames == []
    {
      isActive, isSocketConnected, current, sockets, listening, nextSocket := false, false, None, map[], {}, 0;
      lastVideoInfo, currentTabId, icon := None, None, IconFor(false, false);
      popupUpdates, tabMessages, frames := [], [], [];
    }

    /** `updateActionIcon`. */
    method UpdateActionIcon()
      modifies this`icon
      ensures icon == IconFor(isActive, isSocketConnected)
    {
      icon := IconFor(isActive, isSocketConnected);
    }

    /** `sendStateToPopup`. */
    method SendStateToPopup()
      modifies this`popupUpdates
      ensures popupUpdates == old(popupUpdates) + [CurrentState()]
    {
      popupUpdates := popupUpdates + [CurrentState()];
    }

    /** `connectWebSocket`. Replacing a socket that is still closing leaves that
        socket's `onclose` attached: the state stops being tidy exactly then. */
    method Connect()
      requires Valid()
      modifies this`current, this`sockets, this`listening, this`nextSocket
      ensures Valid()
      ensures ConnectStep(old(current), old(sockets), old(listening), old(nextSocket))
      ensures SocketState() == Some(Open) || SocketState() == Some(Connecting)
      ensures old(Tidy()) ==> (Tidy() <==> old(SocketState()) != Some(Closing))
    {
      if SocketState() == Some(Open) || SocketState() == Some(Connecting) {
        return;
      }
      current := Some(nextSocket);
      sockets := sockets[nextSocket := Connecting];
      listening := listening + {nextSocket};
      nextSocket := nextSocket + 1;
    }

    /** The `open` event of a socket: connected, the icon and the popup updated, and
        the page script told to start when tracking is on and a tab is known. */
    method SocketOpened(id: nat)
      requires Valid() && id in sockets && sockets[id] == Connecting
      modifies this`sockets, this`isSocketConnected, this`icon, this`popupUpdates, this`tabMessages
      ensures Valid()
      ensures sockets == old(sockets)[id := Open] && isSocketConnected
      ensures icon == IconFor(isActive, true) && popupUpdates == old(popupUpdates) + [CurrentState()]
      ensures tabMessages == old(tabMessages) + if isActive && TabKnown(currentTabId) then [Control(currentTabId.value, true)] else []
      ensures old(Tidy()) ==> Tidy() && current == Some(id)
    {
      sockets := sockets[id := Open];
      isSocketConnected := true;
      UpdateActionIcon();
      SendStateToPopup();
      if isActive && TabKnown(currentTabId) {
        tabMessages := tabMessages + [Control(currentTabId.value, true)];
      }
    }

    /** The `error` event of any socket not yet closed: the connected flag drops,
        `webSocket` is kept. */
    method SocketError(id: nat)
      requires Valid() && id in sockets && sockets[id] != Closed
      modifies this`isSocketConnected, this`icon, this`popupUpdates
      ensures !isSocketConnected
      ensures icon == IconFor(isActive, false) && popupUpdates == old(popupUpdates) + [CurrentState()]
      ensures Valid() && (old(Tidy()) ==> Tidy())
    {
      isSocketConnected := false;
      UpdateActionIcon();
      SendStateToPopup();
    }

    /** The relay starts the closing handshake of an open socket. */
    method RemoteClosing(id: nat)
      requires Valid() && id in sockets && sockets[id] == Open
      modifies this`sockets
      ensures sockets == old(sockets)[id := Closing]
      ensures Valid() && (old(Tidy()) ==> Tidy())
    {
      sockets := sockets[id := Closing];
    }

    /** The `close` event of a socket: when its handler is still attached, the
        connected flag drops and `webSocket` becomes null, whichever socket it
        refers to; there is no reconnection. */
    method SocketClosed(id: nat)
      requires Valid() && id in sockets && sockets[id] != Closed
      modifies this`sockets, this`listening, this`isSocketConnected, this`current, this`icon, this`popupUpdates
      ensures Valid()
      ensures sockets == old(sockets)[id := Closed]
      ensures old(id in listening) ==>
        (listening == old(listening) - {id} && !isSocketConnected && current.None?
         && icon == IconFor(isActive, false) && popupUpdates == old(popupUpdates) + [CurrentState()])
      ensures old(id !in listening) ==>
        (listening == old(listening) && isSocketConnected == old(isSocketConnected) && current == old(current)
         && icon == old(icon) && popupUpdates == old(popupUpdates))
      ensures old(Tidy()) ==> Tidy()
    {
      sockets := sockets[id := Closed];
      if id in listening {
        listening := listening - {id};
        isSocketConnected := false;
        current := None;
        UpdateActionIcon();
        SendStateToPopup();
      }
    }

    /** `disconnectWebSocket`: the current socket, if any, loses its `onclose`
        handler and is closed; the flag and `webSocket` are cleared in every case. */
    method Disconnect()
      requires Valid()
      modifies this`current, this`sockets, this`listening, this`isSocketConnected, this`icon, this`popupUpdates
      ensures Valid()
      ensures DisconnectStep(old(current), old(sockets), old(listening)) && !isSocketConnected
      ensures icon == IconFor(isActive, false) && popupUpdates == old(popupUpdates) + [CurrentState()]
      ensures old(Tidy()) ==> Tidy()
    {
      if current.Some? {
        var id := current.value;
        listening := listening - {id};
        sockets := sockets[id := if sockets[id] == Closed then Closed else Closing];
        current := None;
      }
      isSocketConnected := false;
      UpdateActionIcon();
      SendStateToPopup();
    }

    /** `POPUP_TOGGLE_TRACKING` with the command 'start', the outcome of the tab
        query and of the script injection as parameters. With a known tab the tab is
        remembered, the icon shown and the answer says tracking is on; once the
        injection succeeds the page script is told to start and the socket is
        connected, and when it fails tracking is turned off again without another
        icon update. Without a tab tracking is turned off. */
    method PopupStart(tab: Option<nat>, injected: bool) returns (reply: Reply)
      requires Valid()
      modifies this`isActive, this`currentTabId, this`icon, this`tabMessages
      modifies this`current, this`sockets, this`listening, this`nextSocket
      ensures Valid()
      ensures TabKnown(tab) ==>
        (currentTabId == tab && isActive == injected && icon == IconFor(true, isSocketConnected)
         && reply == StateReply(State(true, isSocketConnected, lastVideoInfo)))
      ensures TabKnown(tab) && injected ==>
        (ConnectStep(old(current), old(sockets), old(listening), old(nextSocket))
         && tabMessages == old(tabMessages) + [Control(tab.value, true)])
      ensures !(TabKnown(tab) && injected) ==>
        (current == old(current) && sockets == old(sockets) && listening == old(listening)
         && nextSocket == old(nextSocket) && tabMessages == old(tabMessages))
      ensures !TabKnown(tab) ==>
        (!isActive && currentTabId == old(currentTabId) && icon == IconFor(false, isSocketConnected)
         && reply == StateReply(State(false, isSocketConnected, lastVideoInfo)))
      ensures old(Tidy()) && old(SocketState()) != Some(Closing) ==> Tidy()
    {
      isActive := true;
      if TabKnown(tab) {
        currentTabId := tab;
      } else {
        isActive := false;
      }
      UpdateActionIcon();
      reply := StateReply(CurrentState());
      if TabKnown(tab) {
        if injected {
          tabMessages := tabMessages + [Control(tab.value, true)];
          Connect();
        } else {
          isActive := false;
        }
      }
    }

    /** `POPUP_TOGGLE_TRACKING` with any command but 'start': tracking off, the
        known tab told to stop, the socket disconnected, the last snapshot
        forgotten, and the answer says so. */
    method PopupStop() returns (reply: Reply)
      requires Valid()
      modifies this`isActive, this`tabMessages, this`current, this`sockets, this`listening
      modifies this`isSocketConnected, this`icon, this`popupUpdates, this`lastVideoInfo
      ensures Valid()
      ensures !isActive && !isSocketConnected && lastVideoInfo.None?
      ensures DisconnectStep(old(current), old(sockets), old(listening))
      ensures tabMessages == old(tabMessages) + if TabKnown(currentTabId) then [Control(currentTabId.value, false)] else []
      ensures icon == IconInactive && reply == StateReply(State(false, false, None))
      ensures popupUpdates == old(popupUpdates) + [State(false, false, old(lastVideoInfo))]
      ensures old(Tidy()) ==> Tidy()
    {
      isActive := false;
      if TabKnown(currentTabId) {
        tabMessages := tabMessages + [Control(currentTabId.value, false)];
      }
      Disconnect();
      UpdateActionIcon();
      lastVideoInfo := None;
      reply := StateReply(State(isActive, isSocketConnected, None));
    }

    /** `GET_POPUP_INITIAL_DATA`, with the outcome of the tab query as a parameter:
        while tracking is on and no tab is known, a queried tab is remembered; the
        answer is the state. */
    method InitialData(tab: Option<nat>) returns (reply: Reply)
      modifies this`currentTabId
      ensures currentTabId == if old(isActive) && !TabKnown(old(currentTabId)) && TabKnown(tab) then tab else old(currentTabId)
      ensures reply == StateReply(CurrentState())
    {
      if isActive && !TabKnown(currentTabId) && TabKnown(tab) {
        currentTabId := tab;
      }
      reply := StateReply(CurrentState());
    }

    /** `VIDEO_INFO_UPDATE`: the snapshot, null included, is always stored; it is
        sent to the relay only under `Forwards`; the icon and the popup are updated
        and the message acknowledged. */
    method VideoInfoUpdate(data: Option<TitleTracker.Snapshot>) returns (reply: Reply)
      modifies this`lastVideoInfo, this`frames, this`icon, this`popupUpdates
      ensures lastVideoInfo == data
      ensures frames == old(frames) +
        if Forwards(isActive, isSocketConnected, SocketState(), data) then [FromExtension(current.value, data.value)] else []
      ensures icon == IconFor(isActive, isSocketConnected) && popupUpdates == old(popupUpdates) + [CurrentState()]
      ensures reply == Processed
    {
      lastVideoInfo := data;
      if isActive && isSocketConnected && SocketState() == Some(Open) {
        if lastVideoInfo.Some? {
          frames := frames + [FromExtension(current.value, lastVideoInfo.value)];
        }
      }
      UpdateActionIcon();
      SendStateToPopup();
      reply := Processed;
    }

    /** `CONTENT_SCRIPT_READY` from a tab: the tab is remembered; while tracking is
        on it is told to start, and the socket is connected unless already flagged
        connected. No answer is sent. */
    method ContentScriptReady(tab: nat)
      requires Valid()
      modifies this`currentTabId, this`tabMessages, this`current, this`sockets, this`listening, this`nextSocket
      ensures Valid()
      ensures currentTabId == Some(tab)
      ensures tabMessages == old(tabMessages) + if isActive && tab != 0 then [Control(tab, true)] else []
      ensures isActive && tab != 0 && !isSocketConnected ==> ConnectStep(old(current), old(sockets), old(listening), old(nextSocket))
      ensures !(isActive && tab != 0 && !isSocketConnected) ==>
        (current == old(current) && sockets == old(sockets) && listening == old(listening) && nextSocket == old(nextSocket))
      ensures old(Tidy()) && old(SocketState()) != Some(Closing) ==> Tidy()
    {
      currentTabId := Some(tab);
      if isActive && TabKnown(currentTabId) {
        tabMessages := tabMessages + [Control(tab, true)];
        if !isSocketConnected {
          Connect();
        }
      }
    }

    /** `initializeExtensionState` (at load, browser start-up and installation):
        tracking off, the flag, the last snapshot and the tab cleared, the grey icon
        shown; the socket itself is left as it is. */
    method InitializeExtensionState()
      requires Valid()
      modifies this`isActive, this`isSocketConnected, this`lastVideoInfo, this`currentTabId, this`icon
      ensures !isActive && !isSocketConnected && lastVideoInfo.None? && currentTabId.None? && icon == IconInactive
      ensures Valid() && (old(Tidy()) ==> Tidy())
    {
      isActive, isSocketConnected, lastVideoInfo, currentTabId := false, false, None, None;
      UpdateActionIcon();
    }
  }

  /** Tracking started in tab 7 and the socket opened. */
  method TrackingConnected() returns (b: Background)
    ensures fresh(b) && b.Valid() && b.Tidy()
    ensures b.isActive && b.isSocketConnected && b.current == Some(0)
    ensures b.sockets == map[0 := Open] && b.listening == {0} && b.nextSocket == 1
    ensures b.frames == []
  {
    b := new Background();
    var r := b.PopupStart(Some(7), true);
    assert b.current == Some(0) && b.isActive;
    b.SocketOpened(0);
  }

  /** Then the relay begins to close the socket and tracking is started again: a
      second socket replaces the closing one, whose `onclose` is still attached. */
  method ClosingSocketReplaced() returns (b: Background)
    ensures fresh(b) && b.Valid() && !b.Tidy()
    ensures b.isActive && b.isSocketConnected && b.current == Some(1)
    ensures b.sockets == map[0 := Closing, 1 := Connecting] && b.listening == {0, 1}
    ensures b.frames == []
  {
    b := TrackingConnected();
    b.RemoteClosing(0);
    assert b.sockets == map[0 := Closing] && b.SocketState() == Some(Closing);
    var r := b.PopupStart(Some(7), true);
  }

  /** The late `close` of the replaced socket then clears `webSocket`, so the new
      socket opens unreferenced: the icon is green and the flag set, yet no
      snapshot is forwarded, and the next start opens yet another socket. */
  method LateCloseOrphansSocket(snap: TitleTracker.Snapshot) returns (b: Background)
    ensures b.isActive && b.isSocketConnected && b.icon == IconConnected
    ensures b.current.None? && 1 in b.sockets && b.sockets[1] == Open
    ensures b.lastVideoInfo == Some(snap) && b.frames == []
  {
    b := ClosingSocketReplaced();
    b.SocketClosed(0);
    assert b.current.None? && b.sockets[1] == Connecting && b.isActive;
    b.SocketOpened(1);
    assert b.isSocketConnected && b.isActive && b.current.None?;
    var r := b.VideoInfoUpdate(Some(snap));
  }
}
