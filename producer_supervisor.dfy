/** The earlier producer page script (my-timer-extension/content.js): it connects
    straight to the relay at ws://localhost:3000, retries after a close, and once
    connected sends the player page's titles and times every second, skipping a
    snapshot equal to the last one sent. Navigating away tears the connection down
    without a retry and reconnects a second later. */
module Producer {
  import opened Base
  import opened Clock
  import opened Registry
  import TitleTracker

  /** `maxAttempts`. */
  const MaxAttempts: nat := 5

  // ---------------------------------------------------------------- formatting

  /** `formatTimeForDisplay` on a whole number of seconds: "--:--" for 0, NaN and the
      infinities; a positive time reads back as itself, with an hours field exactly
      from one hour on. A negative time keeps the signs JavaScript's `%` gives. */
  function DisplayClock(sec: Num): (r: string)
    ensures !sec.Fin? || sec.v == 0 ==> r == "--:--"
    ensures sec.Fin? && sec.v > 0 ==> ClockValue(r) == Some(sec.v) && Padded(r)
    ensures sec.Fin? && sec.v > 0 ==> FieldCount(r) == (if sec.v >= 3600 then 3 else 2)
    ensures sec.Fin? && sec.v < 0 ==> r != "--:--"
  {
    if !sec.Fin? || sec.v == 0 then "--:--"
    else
      if sec.v > 0 then PositiveClock(sec.v); JsClock(sec.v)
      else NegativeClock(sec.v); JsClock(sec.v)
  }

  /** The arithmetic of `formatTimeForDisplay`: floored hours shown only when
      positive, then minutes and seconds from JavaScript's `%`, each padded. */
  function JsClock(t: int): string
  {
    var h, m, s := t / 3600, JsRem(t, 3600) / 60, JsRem(t, 60);
    var hh := if h > 0 then PadStart2(IntToString(h)) + ":" else "";
    hh + PadStart2(IntToString(m)) + ":" + PadStart2(IntToString(s))
  }

  lemma PositiveClock(t: int)
    requires t > 0
    ensures JsClock(t) == ShortClock(t)
  {
  }

  lemma NegativeClock(t: int)
    requires t < 0
    ensures JsClock(t) != "--:--"
  {
    var s := JsRem(t, 60);
    var r := JsClock(t);
    PaddedEndsInDigit(s);
    assert r[|r| - 1] == PadStart2(IntToString(s))[|PadStart2(IntToString(s))| - 1];
  }

  /** A padded number ends in a digit. */
  lemma PaddedEndsInDigit(n: int)
    ensures var p := PadStart2(IntToString(n)); |p| > 0 && IsDecimalDigit(p[|p| - 1])
  {
    var d := ToBase(if n < 0 then -n else n, 10);
    assert IsDigitIn(d[|d| - 1], 10);
    assert IntToString(n)[|IntToString(n)| - 1] == d[|d| - 1];
  }

  /** One second before zero is shown as "-1:-1". */
  lemma DisplayClockNegative()
    ensures DisplayClock(Fin(-1)) == "-1:-1"
  {
    assert -1 / 3600 == -1 && JsRem(-1, 3600) / 60 == -1 && JsRem(-1, 60) == -1;
    assert ToBase(1, 10) == "1";
    assert IntToString(-1) == "-1";
    assert PadStart2("-1") == "-1";
  }

  // ---------------------------------------------------------------- titles

  /** The two title lines the display shows. */
  datatype Shown = Shown(main: string, sub: string)

  /** The title branch of `getVideoInfoForLaftel`: distinct series and episode
      titles fill both lines; otherwise the main line is empty and the sub line
      holds the series, else the episode, else the movie title, else nothing. */
  function ChooseTitles(series: Option<string>, episode: Option<string>, movie: Option<string>): (r: Shown)
    ensures r.main != "" <==> TitleTracker.Present(series) && TitleTracker.Present(episode) && series.value != episode.value
    ensures r.main != "" ==> r == Shown(series.value, episode.value)
    ensures r.main == "" ==> r.sub == if TitleTracker.Present(series) then series.value
                                     else if TitleTracker.Present(episode) then episode.value
                                     else if TitleTracker.Present(movie) then movie.value else ""
    ensures r.sub == "" <==> !TitleTracker.Present(series) && !TitleTracker.Present(episode) && !TitleTracker.Present(movie)
  {
    var s, e := TitleTracker.Present(series), TitleTracker.Present(episode);
    if s && e && series.value != episode.value then Shown(series.value, episode.value)
    else if s && (!e || series.value == episode.value) then Shown("", series.value)
    else if e then Shown("", episode.value)
    else if TitleTracker.Present(movie) then Shown("", movie.value)
    else Shown("", "")
  }

  /** One `FROM_EXTENSION` payload: the two title lines and the two times, formatted. */
  datatype Progress = Progress(main: string, sub: string, current: string, duration: string)

  /** `getVideoInfoForLaftel`: null without a video element or when a time is NaN;
      otherwise the chosen titles and both times formatted for display. */
  function ProgressOf(video: Option<TitleTracker.Playback>, series: Option<TitleTracker.Element>,
                      episode: Option<TitleTracker.Element>, movie: Option<TitleTracker.Element>): (r: Option<Progress>)
    ensures r.None? <==> video.None? || video.value.currentTime.NaN? || video.value.duration.NaN?
    ensures r.Some? ==>
      var shown := ChooseTitles(TitleTracker.ElementText(series), TitleTracker.ElementText(episode), TitleTracker.ElementText(movie));
      r.value == Progress(shown.main, shown.sub, DisplayClock(video.value.currentTime), DisplayClock(video.value.duration))
  {
    if video.None? then None
    else
      var shown := ChooseTitles(TitleTracker.ElementText(series), TitleTracker.ElementText(episode), TitleTracker.ElementText(movie));
      if video.value.currentTime.NaN? || video.value.duration.NaN? then None
      else Some(Progress(shown.main, shown.sub, DisplayClock(video.value.currentTime), DisplayClock(video.value.duration)))
  }

  // ---------------------------------------------------------------- sending

  /** The condition under which `sendVideoData` transmits: not closing, the socket
      OPEN, a snapshot present, and its serialisation different from the last one
      sent (`lastSentData` starts as '', which no serialisation equals). */
  predicate Sends(closing: bool, ws: Option<ReadyState>, info: Option<Progress>, last: Option<Progress>)
  {
    !closing && ws == Some(Open) && info.Some? && Some(info.value) != last
  }

  /** The last element, None for the empty sequence. */
  function LastOf(s: seq<Progress>): (r: Option<Progress>)
    ensures r.None? <==> s == []
    ensures r.Some? ==> r.value == s[|s| - 1]
  {
    if s == [] then None else Some(s[|s| - 1])
  }

  /** No snapshot is sent twice in a row. */
  predicate NoRepeats(s: seq<Progress>)
  {
    forall i :: 0 < i < |s| ==> s[i - 1] != s[i]
  }

  /** The set of running intervals an interval handle stands for. */
  function Running(id: Option<nat>): set<nat>
  {
    if id.Some? then {id.value} else {}
  }

  /** `WEBSOCKET_STATUS` reports sent to the extension runtime. */
  datatype Status = Connected | Disconnected | Errored

  // ---------------------------------------------------------------- the supervisor

  /** The script's module state.
      - `ws` is the socket the script holds, by ready state; `attempt` the retry counter.
      - `pendingRetries` counts the `connectWebSocket` retries `onclose` scheduled,
        `pendingRestarts` the one-second reconnects a navigation scheduled and
        `pendingChecks` the two-second video look-ups.
      - `abandoned` counts sockets the script let go of with their handlers still
        attached, whose close events are still to arrive: one replaced or cleaned up
        while already closing, and one dropped while held by another socket's late
        close. `abandonedConnecting` counts those of them still connecting, whose
        open event may arrive too. `lateCloses` counts the close events of abandoned
        sockets that arrived since the last connect.
      - `intervalId`, `running` and `nextTimer` are the send interval, the intervals
        the page's timer list holds and the next handle it gives out.
      - `outbox` holds the `FROM_EXTENSION` frames sent, `statuses` the status reports. */
  class Supervisor {
    var ws: Option<ReadyState>
    var attempt: nat
    var pendingRetries: nat
    var abandoned: nat
    var abandonedConnecting: nat
    ghost var lateCloses: nat
    var isClosing: bool
    var pendingRestarts: nat
    var videoElement: bool
    var pendingChecks: nat
    var intervalId: Option<nat>
    var running: set<nat>
    var nextTimer: nat
    var endListener: bool
    var lastSent: Option<Progress>
    var outbox: seq<Progress>
    var statuses: seq<Status>

    /** The retry counter is 0 whenever a socket is held, is below the limit, and
        exceeds 1 only through close events of abandoned sockets: with none, the
        counter never gets past 1 and the limit of five retries is never reached. */
    ghost predicate ConnectionValid()
      reads this`ws, this`attempt, this`lateCloses
    {
      attempt <= MaxAttempts && (ws.Some? ==> attempt == 0) && attempt <= 1 + lateCloses
    }

    /** At most one send interval runs, the one `intervalId` names. */
    ghost predicate TimersValid()
      reads this`intervalId, this`running, this`nextTimer
    {
      running == Running(intervalId) && (intervalId.Some? ==> intervalId.value < nextTimer)
    }

    /** `lastSentData` is the last frame sent, and no frame repeats the previous one. */
    ghost predicate OutputValid()
      reads this`lastSent, this`outbox
    {
      lastSent == LastOf(outbox) && NoRepeats(outbox)
    }

    /** The abandoned sockets still connecting are among the abandoned sockets. */
    ghost predicate OrphansValid()
      reads this`abandoned, this`abandonedConnecting
    {
      abandonedConnecting <= abandoned
    }

    ghost predicate Valid()
      reads this
    {
      ConnectionValid() && TimersValid() && OutputValid() && OrphansValid()
    }

    /** `connectWebSocket` as a step: nothing when the held socket is OPEN or
        CONNECTING; otherwise a new connecting socket replaces it, the retry counter
        is reset, and a replaced socket, which is then closing, is abandoned with its
        handlers. */
    twostate predicate ConnectStep()
      reads this`ws, this`attempt, this`abandoned, this`abandonedConnecting, this`lateCloses
    {
      && abandonedConnecting == old(abandonedConnecting)
      && (old(ws) == Some(Open) || old(ws) == Some(Connecting) ==>
           ws == old(ws) && attempt == old(attempt) && abandoned == old(abandoned) && lateCloses == old(lateCloses))
      && (!(old(ws) == Some(Open) || old(ws) == Some(Connecting)) ==>
           ws == Some(Connecting) && attempt == 0 && lateCloses == 0
           && abandoned == old(abandoned) + (if old(ws).Some? then 1 else 0))
    }

    /** `initializeVideoTracking` as a step, `checks` being the number of queued
        look-ups it starts from: nothing at all while closing; otherwise the video is
        looked up, and found, exactly one new send interval runs with the `ended`
        listener attached, while missing, one more look-up is queued. */
    twostate predicate TrackingStep(videoPresent: bool, checks: nat)
      reads this`isClosing, this`videoElement, this`pendingChecks, this`intervalId, this`running
      reads this`nextTimer, this`endListener
    {
      && (isClosing ==>
           videoElement == old(videoElement) && pendingChecks == checks && intervalId == old(intervalId)
           && running == old(running) && nextTimer == old(nextTimer) && endListener == old(endListener))
      && (!isClosing && videoPresent ==>
           videoElement && pendingChecks == checks && intervalId == Some(old(nextTimer))
           && running == {old(nextTimer)} && nextTimer == old(nextTimer) + 1 && endListener)
      && (!isClosing && !videoPresent ==>
           !videoElement && pendingChecks == checks + 1 && intervalId == old(intervalId)
           && running == old(running) && nextTimer == old(nextTimer) && endListener == old(endListener))
    }

    /** The state when the script starts, before its first `connectWebSocket`. */
    constructor ()
      ensures Valid()
      ensures ws.None? && attempt == 0 && pendingRetries == 0 && abandoned == 0 && abandonedConnecting == 0 && !isClosing
      ensures pendingRestarts == 0 && !videoElement && pendingChecks == 0
      ensures intervalId.None? && running == {} && !endListener && outbox == [] && statuses == []
    {
      ws, attempt, pendingRetries, abandoned, abandonedConnecting, lateCloses := None, 0, 0, 0, 0, 0;
      isClosing, pendingRestarts, videoElement, pendingChecks := false, 0, false, 0;
      intervalId, running, nextTimer, endListener := None, {}, 0, false;
      lastSent, outbox, statuses := None, [], [];
    }

    /** `connectWebSocket`: nothing when the held socket is OPEN or CONNECTING;
        otherwise a new connecting socket replaces it and the retry counter is reset.
        A replaced socket that was still closing is abandoned with its handlers. */
    method Connect()
      requires ConnectionValid()
      modifies this`ws, this`attempt, this`abandoned, this`lateCloses
      ensures ConnectionValid()
      ensures ConnectStep()
    {
      if ws.Some? && (ws.value == Open || ws.value == Connecting) {
        return;
      }
      if ws.Some? {
        abandoned := abandoned + 1;
      }
      ws := Some(Connecting);
      attempt := 0;
      lateCloses := 0;
    }

    /** `stopSendingData`: the send interval, if any, is cleared. */
    method StopSendingData()
      requires TimersValid()
      modifies this`intervalId, this`running
      ensures TimersValid() && intervalId.None? && running == {}
    {
      if intervalId.Some? {
        running := running - {intervalId.value};
        intervalId := None;
      }
    }

    /** `startSendingData`: any previous interval is cleared before exactly one new
        one starts; the `ended` listener is (re)attached when a video was found. */
    method StartSendingData()
      requires TimersValid()
      modifies this`intervalId, this`running, this`nextTimer, this`endListener
      ensures TimersValid()
      ensures intervalId == Some(old(nextTimer)) && running == {old(nextTimer)} && nextTimer == old(nextTimer) + 1
      ensures endListener == (old(endListener) || videoElement)
    {
      if intervalId.Some? {
        running := running - {intervalId.value};
      }
      intervalId := Some(nextTimer);
      running := running + {nextTimer};
      nextTimer := nextTimer + 1;
      if videoElement {
        endListener := true;
      }
    }

    /** `sendVideoData`, run by the interval with the page's current snapshot. */
    method SendVideoData(info: Option<Progress>)
      requires OutputValid()
      modifies this`lastSent, this`outbox
      ensures OutputValid()
      ensures Sends(isClosing, ws, info, old(lastSent)) ==> outbox == old(outbox) + [info.value] && lastSent == info
      ensures !Sends(isClosing, ws, info, old(lastSent)) ==> outbox == old(outbox) && lastSent == old(lastSent)
    {
      if isClosing {
        return;
      }
      if ws == Some(Open) && info.Some? && Some(info.value) != lastSent {
        outbox := outbox + [info.value];
        lastSent := info;
      }
    }

    /** `stopSendingDataOnEnd`: the video ended; the interval stops unless closing. */
    method VideoEnded()
      requires TimersValid()
      modifies this`intervalId, this`running
      ensures TimersValid()
      ensures isClosing ==> intervalId == old(intervalId) && running == old(running)
      ensures !isClosing ==> intervalId.None? && running == {}
    {
      if isClosing {
        return;
      }
      StopSendingData();
    }

    /** `initializeVideoTracking`: unless closing, the video is looked up; found, the
        sending starts, and otherwise another look-up is scheduled in two seconds. */
    method InitializeVideoTracking(videoPresent: bool)
      requires TimersValid()
      modifies this`videoElement, this`pendingChecks, this`intervalId, this`running, this`nextTimer, this`endListener
      ensures TimersValid()
      ensures TrackingStep(videoPresent, old(pendingChecks))
    {
      if isClosing {
        return;
      }
      videoElement := videoPresent;
      if videoPresent {
        StartSendingData();
      } else {
        pendingChecks := pendingChecks + 1;
      }
    }

    /** A scheduled two-second video look-up runs. */
    method CheckFires(videoPresent: bool)
      requires TimersValid() && pendingChecks > 0
      modifies this`videoElement, this`pendingChecks, this`intervalId, this`running, this`nextTimer, this`endListener
      ensures TimersValid()
      ensures TrackingStep(videoPresent, old(pendingChecks) - 1)
    {
      pendingChecks := pendingChecks - 1;
      InitializeVideoTracking(videoPresent);
    }

    /** `onopen` of the held socket: the counter is reset, "connected" is reported,
        and video tracking starts. */
    method Opened(videoPresent: bool)
      requires Valid() && ws == Some(Connecting)
      modifies this`ws, this`attempt, this`statuses, this`videoElement, this`pendingChecks
      modifies this`intervalId, this`running, this`nextTimer, this`endListener
      ensures Valid()
      ensures ws == Some(Open) && attempt == 0 && statuses == old(statuses) + [Connected]
      ensures TrackingStep(videoPresent, old(pendingChecks))
    {
      ws := Some(Open);
      attempt := 0;
      statuses := statuses + [Connected];
      InitializeVideoTracking(videoPresent);
    }

    /** The transport began closing the held socket. */
    method StartsClosing()
      requires ConnectionValid() && ws.Some?
      modifies this`ws
      ensures ConnectionValid() && ws == Some(Closing)
    {
      ws := Some(Closing);
    }

    /** `onerror`: "error" is reported; the close event that follows does the rest. */
    method Error()
      requires ws.Some?
      modifies this`statuses
      ensures statuses == old(statuses) + [Errored]
    {
      statuses := statuses + [Errored];
    }

    /** The body of `onclose`, whichever socket it belongs to: "disconnected" is
        reported, the held socket is dropped and the sending stops before a retry is
        considered; a retry is scheduled and counted only below the limit. */
    method HandleClose()
      requires TimersValid() && attempt <= MaxAttempts && attempt <= lateCloses
      modifies this`statuses, this`ws, this`intervalId, this`running, this`attempt, this`pendingRetries
      ensures ConnectionValid() && TimersValid()
      ensures statuses == old(statuses) + [Disconnected] && ws.None? && intervalId.None? && running == {}
      ensures old(attempt) < MaxAttempts ==> attempt == old(attempt) + 1 && pendingRetries == old(pendingRetries) + 1
      ensures old(attempt) >= MaxAttempts ==> attempt == old(attempt) && pendingRetries == old(pendingRetries)
    {
      statuses := statuses + [Disconnected];
      ws := None;
      StopSendingData();
      if attempt < MaxAttempts {
        attempt := attempt + 1;
        pendingRetries := pendingRetries + 1;
      }
    }

    /** The held socket's close event. */
    method SocketClosed()
      requires Valid() && ws.Some?
      modifies this`statuses, this`ws, this`intervalId, this`running, this`attempt, this`pendingRetries
      ensures Valid()
      ensures statuses == old(statuses) + [Disconnected] && ws.None? && intervalId.None?
      ensures attempt == 1 && pendingRetries == old(pendingRetries) + 1
    {
      HandleClose();
    }

    /** The close event of an abandoned socket, `wasConnecting` telling whether it
        closed before it opened: it runs the same handler, so it too drops the held
        socket and counts a retry. The socket it drops keeps its handlers and joins
        the abandoned ones, unless it had already closed. */
    method AbandonedClosed(wasConnecting: bool)
      requires Valid() && abandoned > 0
      requires wasConnecting ==> abandonedConnecting > 0
      requires !wasConnecting ==> abandonedConnecting < abandoned
      modifies this`abandoned, this`abandonedConnecting, this`lateCloses, this`statuses, this`ws
      modifies this`intervalId, this`running, this`attempt, this`pendingRetries
      ensures Valid()
      ensures abandoned == old(abandoned) - 1 + (if old(ws).Some? && old(ws) != Some(Closed) then 1 else 0)
      ensures abandonedConnecting
        == old(abandonedConnecting) - (if wasConnecting then 1 else 0) + (if old(ws) == Some(Connecting) then 1 else 0)
      ensures lateCloses == old(lateCloses) + 1
      ensures statuses == old(statuses) + [Disconnected] && ws.None? && intervalId.None?
      ensures old(attempt) < MaxAttempts ==> attempt == old(attempt) + 1 && pendingRetries == old(pendingRetries) + 1
      ensures old(attempt) >= MaxAttempts ==> attempt == old(attempt) && pendingRetries == old(pendingRetries)
    {
      abandoned := abandoned - 1;
      if wasConnecting {
        abandonedConnecting := abandonedConnecting - 1;
      }
      if ws.Some? && ws.value != Closed {
        abandoned := abandoned + 1;
        if ws.value == Connecting {
          abandonedConnecting := abandonedConnecting + 1;
        }
      }
      lateCloses := lateCloses + 1;
      HandleClose();
    }

    /** `onopen` of an abandoned socket that was still connecting: the counter is
        reset, "connected" is reported and video tracking starts, although the
        script holds no reference to that socket and sends nothing through it. */
    method AbandonedOpened(videoPresent: bool)
      requires Valid() && abandonedConnecting > 0
      modifies this`abandonedConnecting, this`attempt, this`statuses, this`videoElement, this`pendingChecks
      modifies this`intervalId, this`running, this`nextTimer, this`endListener
      ensures Valid()
      ensures abandonedConnecting == old(abandonedConnecting) - 1 && attempt == 0
      ensures statuses == old(statuses) + [Connected]
      ensures TrackingStep(videoPresent, old(pendingChecks))
    {
      abandonedConnecting := abandonedConnecting - 1;
      attempt := 0;
      statuses := statuses + [Connected];
      InitializeVideoTracking(videoPresent);
    }

    /** `onerror` of an abandoned socket: "error" is reported, nothing else. */
    method AbandonedError()
      requires abandoned > 0
      modifies this`statuses
      ensures statuses == old(statuses) + [Errored]
    {
      statuses := statuses + [Errored];
    }

    /** A retry `onclose` scheduled runs `connectWebSocket`. */
    method RetryFires()
      requires ConnectionValid() && pendingRetries > 0
      modifies this`pendingRetries, this`ws, this`attempt, this`abandoned, this`lateCloses
      ensures ConnectionValid()
      ensures pendingRetries == old(pendingRetries) - 1
      ensures ConnectStep()
    {
      pendingRetries := pendingRetries - 1;
      Connect();
    }

    /** `cleanupAndClose`: a second call does nothing (a retry scheduled earlier may
        have connected again in between, as `connectWebSocket` ignores the flag). The first stops the sending and
        reports "disconnected"; an OPEN or CONNECTING socket has its handlers
        detached before it is closed, so its close never schedules a retry, while one
        already closing keeps them and is abandoned. */
    method CleanupAndClose()
      requires Valid()
      modifies this`isClosing, this`intervalId, this`running, this`ws, this`abandoned, this`statuses
      ensures Valid()
      ensures old(isClosing) ==>
        (ws == old(ws) && abandoned == old(abandoned) && statuses == old(statuses)
         && intervalId == old(intervalId) && running == old(running))
      ensures isClosing
      ensures !old(isClosing) ==> ws.None? && intervalId.None? && running == {} && statuses == old(statuses) + [Disconnected]
      ensures !old(isClosing) ==>
        abandoned == old(abandoned) + (if old(ws) == Some(Closing) || old(ws) == Some(Closed) then 1 else 0)
    {
      if isClosing {
        return;
      }
      isClosing := true;
      StopSendingData();
      if ws.Some? && !(ws.value == Open || ws.value == Connecting) {
        abandoned := abandoned + 1;
      }
      ws := None;
      statuses := statuses + [Disconnected];
    }

    /** `popstate` (and a change of URL): clean up, and reconnect a second later. */
    method Navigated()
      requires Valid()
      modifies this`isClosing, this`intervalId, this`running, this`ws, this`abandoned, this`statuses, this`pendingRestarts
      ensures Valid()
      ensures isClosing && pendingRestarts == old(pendingRestarts) + 1
      ensures old(isClosing) ==>
        (ws == old(ws) && abandoned == old(abandoned) && statuses == old(statuses)
         && intervalId == old(intervalId) && running == old(running))
      ensures !old(isClosing) ==> ws.None? && intervalId.None? && running == {} && statuses == old(statuses) + [Disconnected]
      ensures !old(isClosing) ==>
        abandoned == old(abandoned) + (if old(ws) == Some(Closing) || old(ws) == Some(Closed) then 1 else 0)
    {
      CleanupAndClose();
      pendingRestarts := pendingRestarts + 1;
    }

    /** The reconnect a navigation scheduled: closing is cleared and
        `connectWebSocket` runs. */
    method RestartFires()
      requires Valid() && pendingRestarts > 0
      modifies this`pendingRestarts, this`isClosing, this`ws, this`attempt, this`abandoned, this`lateCloses
      ensures Valid()
      ensures pendingRestarts == old(pendingRestarts) - 1 && !isClosing
      ensures ConnectStep()
    {
      pendingRestarts := pendingRestarts - 1;
      isClosing := false;
      Connect();
    }
  }

  /** A fresh script connects, its socket opens without a video on the page, and
      then the server starts closing it. */
  method OpenedThenClosing() returns (p: Supervisor)
    ensures fresh(p) && p.Valid()
    ensures p.ws == Some(Closing) && !p.isClosing && p.abandoned == 0 && p.abandonedConnecting == 0
    ensures p.attempt == 0 && p.pendingRetries == 0 && p.pendingRestarts == 0
  {
    p := new Supervisor();
    p.Connect();
    p.Opened(false);
    p.StartsClosing();
  }

  /** The first half of the scenario below: the server starts closing the socket,
      the page navigates, and the reconnect's new socket is connecting while the old
      one is abandoned. */
  method AbandonWhileClosing() returns (p: Supervisor)
    ensures fresh(p) && p.Valid()
    ensures p.ws == Some(Connecting) && p.abandoned == 1 && p.abandonedConnecting == 0
    ensures p.attempt == 0 && p.pendingRetries == 0
  {
    p := OpenedThenClosing();
    p.Navigated();
    assert p.ws.None? && p.abandoned == 1 && p.pendingRestarts == 1 && p.pendingRetries == 0;
    p.RestartFires();
  }

  /** Abandoning a closing socket lets the counter pass 1: after the scenario above,
      the new socket fails, and then the abandoned socket's close arrives. */
  method LateCloseRaisesAttempt() returns (p: Supervisor)
    ensures p.attempt == 2 && p.pendingRetries == 2 && p.ws.None?
  {
    p := AbandonWhileClosing();
    p.SocketClosed();
    assert p.attempt == 1 && p.abandoned == 1 && p.pendingRetries == 1;
    p.AbandonedClosed(false);
  }
}
