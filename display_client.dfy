/** The overlay page OBS shows (obs-timer-server/public/js/obs-display.js): it
    connects to the relay it was served from, applies the configuration frames
    carry, renders snapshots as titles, times and a progress bar, and reconnects
    five seconds after every close, without limit. */
module Display {
  import opened Base
  import opened Json
  import opened Clock
  import opened Registry

  /** `setTimeout(connect, 5000)`. */
  const ReconnectDelay: nat := 5000

  // ---------------------------------------------------------------- times and progress

  /** `formatTime` over `Math.floor(parseFloat(x))`, None standing for NaN: NaN shows
      zeros; otherwise a negative time counts as 0, and the result reads back as the
      time, with an hours field when asked for or from one hour on. */
  function FormatTime(t: Option<int>, showHours: bool): (r: string)
    ensures t.None? ==> r == if showHours then "00:00:00" else "00:00"
    ensures t.Some? ==> ClockValue(r) == Some(Max(0, t.value)) && Padded(r)
    ensures t.Some? ==> FieldCount(r) == if showHours || t.value >= 3600 then 3 else 2
  {
    if t.None? then (if showHours then "00:00:00" else "00:00")
    else
      var s: nat := Max(0, t.value);
      if showHours then LongClock(s) else ShortClock(s)
  }

  function RMin(a: real, b: real): real { if a <= b then a else b }
  function RMax(a: real, b: real): real { if a >= b then a else b }

  /** The progress in per cent: 0 unless both times are numbers and the duration is
      positive, so a zero duration is never divided by; otherwise the ratio, held
      within 0 and 100. */
  function Percentage(cur: Option<int>, total: Option<int>): (p: real)
    ensures 0.0 <= p <= 100.0
    ensures !(cur.Some? && total.Some? && total.value > 0) ==> p == 0.0
    ensures cur.Some? && total.Some? && 0 <= cur.value <= total.value && total.value > 0
            ==> p * (total.value as real) == 100.0 * (cur.value as real)
    ensures cur.Some? && total.Some? && total.value > 0 && cur.value >= total.value ==> p == 100.0
    ensures cur.Some? && total.Some? && cur.value <= 0 ==> p == 0.0
  {
    if cur.Some? && total.Some? && total.value > 0 then
      var c, d := cur.value as real, total.value as real;
      var q := (c / d) * 100.0;
      RatioAgainstOne(c, d);
      assert q * d == 100.0 * c;
      RMin(100.0, RMax(0.0, q))
    else 0.0
  }

  /** A ratio of reals against 1 as its numerator against its positive denominator. */
  lemma RatioAgainstOne(c: real, d: real)
    requires d > 0.0
    ensures c <= d ==> (c / d) * 100.0 <= 100.0
    ensures c >= d ==> (c / d) * 100.0 >= 100.0
  {
    var r := c / d;
    assert r * d == c;
    if r > 1.0 {
      assert (r - 1.0) * d > 0.0;
      assert r * d > d;
    }
    if r < 1.0 {
      assert (1.0 - r) * d > 0.0;
      assert r * d < d;
    }
  }

  /** `Math.round` for a percentage: the nearest whole number, halves rounded up. */
  function Rounded(p: real): (n: int)
    requires 0.0 <= p <= 100.0
    ensures 0 <= n <= 100
    ensures n as real - 0.5 <= p < n as real + 0.5
  {
    (p + 0.5).Floor
  }

  // ---------------------------------------------------------------- configuration

  /** The page elements whose style `applyConfig` sets. */
  datatype Slot =
    | OverlayBackground | MainSize | SubSize | MainColour | SubColour
    | CurrentTimeColour | TotalTimeColour | PercentColour
    | BarColour | BarTrackColour | DotColour

  /** A style value: a CSS value as given, or a font size with "pt" appended. */
  datatype StyleValue = Css(v: JVal) | Points(v: JVal)

  /** The configuration property each style is taken from; both time labels take
      `fontColorTime`. */
  function SlotKey(s: Slot): Key
  {
    match s
    case OverlayBackground => BackgroundColor
    case MainSize => FontSizeEpisode
    case SubSize => FontSizeSeries
    case MainColour => Colour(FontColorEpisode)
    case SubColour => Colour(FontColorSeries)
    case CurrentTimeColour => Colour(FontColorTime)
    case TotalTimeColour => Colour(FontColorTime)
    case PercentColour => Colour(FontColorProgress)
    case BarColour => Colour(ProgressBarFilledColor)
    case BarTrackColour => Colour(ProgressBarBackgroundColor)
    case DotColour => Colour(ProgressDotColor)
  }

  /** A style is set when its property is truthy; the others keep their value. */
  function Restyled(styles: map<Slot, StyleValue>, config: JVal): (r: map<Slot, StyleValue>)
    ensures forall s: Slot :: s in r <==> s in styles || Truthy(TruthyOr(Prop(config, SlotKey(s)), JNull))
    ensures forall s: Slot :: s in styles && !Truthy(TruthyOr(Prop(config, SlotKey(s)), JNull)) ==> r[s] == styles[s]
    ensures forall s: Slot :: Truthy(TruthyOr(Prop(config, SlotKey(s)), JNull)) ==>
      r[s].v == Prop(config, SlotKey(s)).value && (r[s].Points? <==> s == MainSize || s == SubSize)
  {
    map s: Slot | s in styles || Truthy(TruthyOr(Prop(config, SlotKey(s)), JNull)) ::
      var v := TruthyOr(Prop(config, SlotKey(s)), JNull);
      if Truthy(v) then (if s == MainSize || s == SubSize then Points(v) else Css(v)) else styles[s]
  }

  /** One platform pill: its text, whether it is the active one, and the colours it
      was given (None where the colour property is falsy). */
  datatype Pill = Pill(name: JVal, active: bool, background: Option<JVal>, colour: Option<JVal>)

  /** A colour property when truthy. */
  function Opt(config: JVal, n: ColourName): Option<JVal>
  {
    var v := TruthyOr(Prop(config, Colour(n)), JNull);
    if Truthy(v) then Some(v) else None
  }

  /** The platform list the pills are built from: a non-empty array. */
  function PlatformItems(config: JVal): Option<seq<JVal>>
  {
    match Prop(config, Platforms)
    case Some(JArr(items)) => if |items| > 0 then Some(items) else None
    case _ => None
  }

  /** A non-empty string has a `length` but no `forEach`: the loop throws. */
  predicate PillLoopThrows(config: JVal)
  {
    match Prop(config, Platforms)
    case Some(JStr(s)) => s != ""
    case _ => false
  }

  /** The pill for position `i`: active exactly when `i === config.currentPlatformIndex`. */
  function PillAt(config: JVal, items: seq<JVal>, i: nat): Pill
    requires i < |items|
  {
    var active := Prop(config, CurrentPlatformIndex).Some? && StrictEquals(JNum(i), Prop(config, CurrentPlatformIndex).value);
    if active then Pill(items[i], true, Opt(config, PillActiveBackgroundColor), Opt(config, PillActiveFontColor))
    else Pill(items[i], false, Opt(config, PillInactiveBackgroundColor), Opt(config, PillInactiveFontColor))
  }

  /** The pills `applyConfig` leaves: one per platform, in order. */
  function PillsFor(config: JVal): (ps: seq<Pill>)
    ensures PlatformItems(config).None? ==> ps == []
    ensures PlatformItems(config).Some? ==> |ps| == |PlatformItems(config).value|
  {
    match PlatformItems(config)
    case None => []
    case Some(items) => seq(|items|, i requires 0 <= i < |items| => PillAt(config, items, i))
  }

  /** Exactly the pill at `currentPlatformIndex` is active: none when the index is
      not a number naming a platform, and so never two. Every pill shows its
      platform's name. */
  lemma {:induction false} PillsActive(config: JVal)
    ensures var ps := PillsFor(config);
      && (forall i :: 0 <= i < |ps| ==> ps[i].name == PlatformItems(config).value[i])
      && (forall i :: 0 <= i < |ps| ==> (ps[i].active <==> Prop(config, CurrentPlatformIndex) == Some(JNum(i))))
      && (forall i, j :: 0 <= i < |ps| && 0 <= j < |ps| && ps[i].active && ps[j].active ==> i == j)
  {
    var ps := PillsFor(config);
    if PlatformItems(config).Some? {
      var items := PlatformItems(config).value;
      forall i | 0 <= i < |ps| ensures ps[i] == PillAt(config, items, i) {
      }
    }
  }

  // ---------------------------------------------------------------- the page

  /** The page state: the socket, `currentConfig`, whether the overlay is shown (the
      status notice is shown exactly when it is not), the styles and pills, the
      rendered snapshot, and the reconnects scheduled. */
  class Overlay {
    var ws: Option<ReadyState>
    var currentConfig: JVal
    var overlayShown: bool
    var styles: map<Slot, StyleValue>
    var pills: seq<Pill>
    var titleMain: JVal
    var titleSub: JVal
    var currentText: string
    var totalText: string
    var percentage: real
    var percentLabel: int
    var pendingReconnects: nat

    /** The progress stays within 0 and 100 and its label is its rounding. */
    ghost predicate Valid()
      reads this`percentage, this`percentLabel
    {
      0.0 <= percentage <= 100.0 && percentLabel == Rounded(percentage)
    }

    /** The page as loaded: `currentConfig = {}`, the overlay as the markup has it
        (hidden until connected), nothing rendered. */
    constructor ()
      ensures Valid() && ws.None? && currentConfig == JObj(map[]) && !overlayShown
      ensures styles == map[] && pills == [] && pendingReconnects == 0
    {
      ws, currentConfig, overlayShown := None, JObj(map[]), false;
      styles, pills := map[], [];
      titleMain, titleSub, currentText, totalText := JStr(""), JStr(""), "", "";
      percentage, percentLabel := 0.0, 0;
      pendingReconnects := 0;
    }

    /** `connect`: a new socket replaces the previous one. */
    method Connect()
      modifies this`ws
      ensures ws == Some(Connecting)
    {
      ws := Some(Connecting);
    }

    /** `onopen`: the status notice is hidden and the overlay shown. */
    method Opened()
      requires ws == Some(Connecting)
      modifies this`ws, this`overlayShown
      ensures ws == Some(Open) && overlayShown
    {
      ws := Some(Open);
      overlayShown := true;
    }

    /** `onclose`: the notice is shown, the overlay hidden, and a reconnect is
        scheduled; there is no counter and no limit, so every close schedules one. */
    method SocketClosed()
      requires ws.Some?
      modifies this`ws, this`overlayShown, this`pendingReconnects
      ensures ws == Some(Closed) && !overlayShown && pendingReconnects == old(pendingReconnects) + 1
    {
      ws := Some(Closed);
      overlayShown := false;
      pendingReconnects := pendingReconnects + 1;
    }

    /** A scheduled reconnect runs `connect`. */
    method ReconnectFires()
      requires pendingReconnects > 0
      modifies this`pendingReconnects, this`ws
      ensures pendingReconnects == old(pendingReconnects) - 1 && ws == Some(Connecting)
    {
      pendingReconnects := pendingReconnects - 1;
      Connect();
    }

    /** `applyConfig`: the styles whose property is truthy are set, the pills are
        rebuilt one per platform, and `ok` is false when the pill loop throws. */
    method ApplyConfig(config: JVal) returns (ok: bool)
      modifies this`styles, this`pills
      ensures styles == Restyled(old(styles), config)
      ensures pills == PillsFor(config)
      ensures ok <==> !PillLoopThrows(config)
    {
      styles := Restyled(styles, config);
      pills := [];
      if PillLoopThrows(config) {
        return false;
      }
      var items := PlatformItems(config);
      if items.Some? {
        var i := 0;
        while i < |items.value|
          invariant 0 <= i <= |items.value|
          invariant pills == PillsFor(config)[..i]
          invariant styles == Restyled(old(styles), config)
        {
          pills := pills + [PillAt(config, items.value, i)];
          i := i + 1;
        }
      } else {
        assert PillsFor(config) == [];
      }
      return true;
    }

    /** The overlay shows `data`: the episode and series titles (or ""), both times
        formatted with hours when the duration reaches one hour, the clamped
        percentage and its rounded label. */
    ghost predicate Shows(data: JVal)
      reads this`titleMain, this`titleSub, this`currentText, this`totalText, this`percentage, this`percentLabel
    {
      && titleMain == TruthyOr(Prop(data, Episode), JStr("")) && titleSub == TruthyOr(Prop(data, Series), JStr(""))
      && var cur, total := TimeOf(data, CurrentSeconds), TimeOf(data, DurationSeconds);
        var showHours := total.Some? && total.value >= 3600;
        && currentText == FormatTime(cur, showHours) && totalText == FormatTime(total, showHours)
        && percentage == Percentage(cur, total) && percentLabel == Rounded(percentage)
    }

    /** The rendered fields are as they were. */
    twostate predicate ShowsOld()
      reads this`titleMain, this`titleSub, this`currentText, this`totalText, this`percentage, this`percentLabel
    {
      && titleMain == old(titleMain) && titleSub == old(titleSub) && currentText == old(currentText)
      && totalText == old(totalText) && percentage == old(percentage) && percentLabel == old(percentLabel)
    }

    /** `updateDisplay`: the episode and series titles (or ""), both times formatted
        with hours when the duration reaches one hour, and the clamped percentage. */
    method UpdateDisplay(data: JVal)
      modifies this`titleMain, this`titleSub, this`currentText, this`totalText, this`percentage, this`percentLabel
      ensures Valid()
      ensures Shows(data)
    {
      titleMain := TruthyOr(Prop(data, Episode), JStr(""));
      titleSub := TruthyOr(Prop(data, Series), JStr(""));
      var cur, total := TimeOf(data, CurrentSeconds), TimeOf(data, DurationSeconds);
      var showHours := total.Some? && total.value >= 3600;
      currentText := FormatTime(cur, showHours);
      totalText := FormatTime(total, showHours);
      percentage := Percentage(cur, total);
      percentLabel := Rounded(percentage);
    }

    /** `onmessage`: a frame that is not JSON throws before anything changes; only
        `VIDEO_UPDATE` and `CONFIG_UPDATED` are acted on. A truthy `config` replaces
        the current one and is applied; a truthy `data` is then rendered, unless
        applying the configuration threw. */
    method OnMessage(frame: Option<JVal>)
      requires Valid()
      modifies this
      ensures Valid()
      ensures !Acts(frame) ==> unchanged(this)
      ensures Acts(frame) && HasField(frame, Config) ==>
        currentConfig == Prop(frame.value, Config).value && pills == PillsFor(currentConfig)
      ensures Acts(frame) && HasField(frame, Config) ==> styles == Restyled(old(styles), currentConfig)
      ensures Acts(frame) && !HasField(frame, Config) ==>
        currentConfig == old(currentConfig) && pills == old(pills) && styles == old(styles)
      ensures Acts(frame) && HasField(frame, Data) && !(HasField(frame, Config) && PillLoopThrows(currentConfig)) ==>
        Shows(Prop(frame.value, Data).value)
      ensures Acts(frame) && (!HasField(frame, Data) || (HasField(frame, Config) && PillLoopThrows(currentConfig))) ==>
        ShowsOld()
      ensures ws == old(ws) && overlayShown == old(overlayShown) && pendingReconnects == old(pendingReconnects)
    {
      if !Acts(frame) {
        return;
      }
      var msg := frame.value;
      if HasField(frame, Config) {
        currentConfig := Prop(msg, Config).value;
        var ok := ApplyConfig(currentConfig);
        if !ok {
          return;
        }
      }
      if HasField(frame, Data) {
        UpdateDisplay(Prop(msg, Data).value);
      }
    }
  }

  /** A frame the page acts on: JSON whose `type` is 'VIDEO_UPDATE' or 'CONFIG_UPDATED'. */
  predicate Acts(frame: Option<JVal>)
  {
    frame.Some? && (Prop(frame.value, Type) == Some(JStr("VIDEO_UPDATE")) || Prop(frame.value, Type) == Some(JStr("CONFIG_UPDATED")))
  }

  /** `message.k` is truthy. */
  predicate HasField(frame: Option<JVal>, k: Key)
  {
    frame.Some? && Prop(frame.value, k).Some? && Truthy(Prop(frame.value, k).value)
  }
}
