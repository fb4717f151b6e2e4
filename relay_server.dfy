/** The current relay server (obs-timer-server/src/server-main.js): the display
    configuration with its load-time validator, the `POST /api/config` merge and the
    persistence filter; the latest video snapshot; the session registry; and the
    console progress log, modelled for its arithmetic and its title bookkeeping. */
module CurrentServer {
  import opened Base
  import opened Json
  import opened Clock
  import opened Registry
  import opened ConfigRules

  /** The `DEFAULT_CONFIG` value of each colour, which is also the load-time
      validator's fallback for it. */
  function ColourDefault(n: ColourName): string
  {
    match n
    case FontColorEpisode => "rgba(255,255,255,1)"
    case FontColorSeries => "rgba(200,200,200,1)"
    case FontColorTime => "rgba(255,255,255,1)"
    case FontColorProgress => "rgba(255,255,255,1)"
    case ProgressBarFilledColor => "rgba(0,123,255,1)"
    case ProgressBarBackgroundColor => "rgba(255,255,255,0.3)"
    case ProgressDotColor => "rgba(255,255,255,1)"
    case PillActiveBackgroundColor => "rgba(0,123,255,0.5)"
    case PillActiveFontColor => "rgba(255,255,255,1)"
    case PillInactiveBackgroundColor => "rgba(108,117,125,0.2)"
    case PillInactiveFontColor => "rgba(200,200,200,1)"
  }

  /** The keys of the eleven colour settings. */
  function ColourKeys(): set<Key>
  {
    set n: ColourName :: Colour(n)
  }

  lemma AllColourKeys(k: Key)
    ensures k in ColourKeys() <==> k.Colour?
  {
    if k.Colour? {
      assert k == Colour(k.colour);
    }
  }

  /** The value `DEFAULT_CONFIG` gives key `k`, if any. */
  function DefaultValue(k: Key): Option<JVal>
  {
    match k
    case Port => Some(JNum(3000))
    case CurrentPlatformIndex => Some(JNum(0))
    case Platforms => Some(JArr([JStr("Netflix"), JStr("YouTube"), JStr("Twitch")]))
    case BackgroundColor => Some(JStr("rgba(0,0,0,0.5)"))
    case FontSizeEpisode => Some(JNum(32))
    case FontSizeSeries => Some(JNum(24))
    case Colour(n) => Some(JStr(ColourDefault(n)))
    case _ => None
  }

  /** `DEFAULT_CONFIG`. */
  function DefaultConfig(): Obj { map k | k in {Port} + RepairedKeys() :: DefaultValue(k).value }

  /** The background the load-time validator falls back to; it differs from the
      `DEFAULT_CONFIG` value. */
  const LoadBackground: string := "rgba(0, 0, 0, 0.65)"
  /** The background the POST validator falls back to (no spaces). */
  const PostBackground: string := "rgba(0,0,0,0.65)"

  /** The snapshot sent before any producer has reported: episode "대기중..." ("waiting"). */
  function WaitingSnapshot(): JVal { JObj(map[
    Series := JNull,
    Episode := JStr("\U{B300}\U{AE30}\U{C911}..."),
    CurrentSeconds := JNum(0),
    DurationSeconds := JNum(0),
    Source := JNull]) }

  /** The fields the validators assign. */
  predicate Repaired(k: Key)
  {
    k == Platforms || k == CurrentPlatformIndex || k == BackgroundColor
    || k == FontSizeEpisode || k == FontSizeSeries || k.Colour?
  }

  /** The keys the POST validator assigns whether present or not. */
  function PostKeys(): set<Key> { {Platforms, CurrentPlatformIndex, BackgroundColor, FontSizeEpisode, FontSizeSeries} }

  /** The keys the load-time validator assigns whether present or not. */
  function RepairedKeys(): set<Key> { PostKeys() + ColourKeys() }

  lemma RepairedKeysAre(k: Key)
    ensures k in RepairedKeys() <==> Repaired(k)
    ensures k in PostKeys() <==> Repaired(k) && !k.Colour?
  {
    AllColourKeys(k);
  }

  /** What every configuration the server holds satisfies, after load and after
      every POST: a non-empty platform list with the index in range, a string
      background and numeric font sizes. */
  predicate WellShaped(c: Obj)
  {
    IndexInRange(c) && IsStr(c, BackgroundColor) && IsNum(c, FontSizeEpisode) && IsNum(c, FontSizeSeries)
  }

  /** All colour fields are strings. */
  ghost predicate ColoursAreStrings(c: Obj)
  {
    forall n: ColourName :: IsStr(c, Colour(n))
  }

  /** The value field `k` of `c` has after the load-time validation. */
  function LoadedField(c: Obj, k: Key): JVal
    requires k in c || Repaired(k)
  {
    match k
    case Platforms => ListOrDefault(c)
    case CurrentPlatformIndex => LoadIndex(c)
    case BackgroundColor => StringOr(c, BackgroundColor, LoadBackground)
    case FontSizeEpisode => NumberOr(c, FontSizeEpisode, 32)
    case FontSizeSeries => NumberOr(c, FontSizeSeries, 24)
    case Colour(n) => StringOr(c, k, ColourDefault(n))
    case _ => c[k]
  }

  /** The validation after loading: the list, the index, the background, the font
      sizes and the eleven colours are assigned; everything else is kept. The result
      is well shaped. */
  function Validate(c: Obj): (r: Obj)
    ensures WellShaped(r)
  {
    assert forall n :: Colour(n) in RepairedKeys() by {
      forall n ensures Colour(n) in RepairedKeys() { RepairedKeysAre(Colour(n)); }
    }
    var r := map k | k in c.Keys + RepairedKeys() :: LoadedField(c, k);
    assert r[Platforms] == ListOrDefault(c);
    assert r[CurrentPlatformIndex] == LoadIndex(c);
    r
  }

  /** The load-time validation keeps every field it does not assign, present or absent. */
  lemma ValidateKeeps(c: Obj, k: Key)
    requires !Repaired(k)
    ensures Get(Validate(c), k) == Get(c, k)
  {
    RepairedKeysAre(k);
  }

  /** After the load-time validation every colour is a string. */
  lemma ValidateColoursAreStrings(c: Obj)
    ensures ColoursAreStrings(Validate(c))
  {
    forall n ensures IsStr(Validate(c), Colour(n)) {
      ValidateColours(c, n);
    }
  }

  /** What the load-time validation assigns: a missing, non-array or empty list
      becomes `["Default"]`; an index that is not a number naming an element becomes
      0; a wrongly typed background or font size gets its fixed default; a right-typed
      one is kept. */
  lemma ValidateRepairs(c: Obj)
    ensures var r := Validate(c);
      && (HasPlatforms(c) ==> r[Platforms] == c[Platforms])
      && (!HasPlatforms(c) ==> r[Platforms] == JArr(DefaultPlatforms))
      && r[CurrentPlatformIndex] == (if IndexInRange(c) then c[CurrentPlatformIndex] else JNum(0))
      && r[BackgroundColor] == (if IsStr(c, BackgroundColor) then c[BackgroundColor] else JStr(LoadBackground))
      && r[FontSizeEpisode] == (if IsNum(c, FontSizeEpisode) then c[FontSizeEpisode] else JNum(32))
      && r[FontSizeSeries] == (if IsNum(c, FontSizeSeries) then c[FontSizeSeries] else JNum(24))
  {
    RepairedKeysAre(Platforms);
  }

  /** A string colour is kept by the load-time validation; any other value, or none,
      becomes that colour's `DEFAULT_CONFIG` value. */
  lemma ValidateColours(c: Obj, n: ColourName)
    ensures Validate(c)[Colour(n)] == if IsStr(c, Colour(n)) then c[Colour(n)] else JStr(ColourDefault(n))
  {
    RepairedKeysAre(Colour(n));
  }

  /** A well-shaped configuration whose colours are strings passes validation
      unchanged. */
  lemma ValidateFixesWellShaped(c: Obj)
    requires WellShaped(c) && ColoursAreStrings(c)
    ensures Validate(c) == c
  {
    var v := Validate(c);
    ValidateRepairs(c);
    forall k ensures k in v <==> k in c {
      RepairedKeysAre(k);
    }
    forall k | k in v ensures v[k] == c[k] {
      RepairedKeysAre(k);
      if k.Colour? {
        ValidateColours(c, k.colour);
      } else if !Repaired(k) {
        ValidateKeeps(c, k);
      }
    }
  }

  /** A validated configuration passes validation unchanged. */
  lemma ValidateIdempotent(c: Obj)
    ensures Validate(Validate(c)) == Validate(c)
  {
    ValidateColoursAreStrings(c);
    ValidateFixesWellShaped(Validate(c));
  }

  /** An index of 99 with the three default platforms is reset to 0. */
  lemma OutOfRangeIndexResets()
    ensures Validate(DefaultConfig()[CurrentPlatformIndex := JNum(99)])[CurrentPlatformIndex] == JNum(0)
  {
    var c := DefaultConfig()[CurrentPlatformIndex := JNum(99)];
    assert PlatformCount(c) == 3;
    ValidateRepairs(c);
  }

  /** `saveConfig`'s object: exactly the keys of `DEFAULT_CONFIG`, each with the
      current value when there is one and the default otherwise. */
  function PersistedForm(cur: Obj): (r: Obj)
    ensures r.Keys == DefaultConfig().Keys
    ensures forall k :: k in r ==> r[k] == if k in cur then cur[k] else DefaultConfig()[k]
  {
    map k | k in DefaultConfig() :: if k in cur then cur[k] else DefaultConfig()[k]
  }

  /** The addresses are never saved, and neither is any obsolete key. */
  lemma PersistedOmitsAddresses(cur: Obj)
    ensures ServerIPs !in PersistedForm(cur)
    ensures forall k :: k in PersistedForm(cur) ==> k == Port || Repaired(k)
  {
    forall k | k in PersistedForm(cur) ensures k == Port || Repaired(k) {
      DefaultKeys(k);
    }
    DefaultKeys(ServerIPs);
  }

  /** The loop of `saveConfig`: start from the defaults and copy every current key that
      `DEFAULT_CONFIG` also has; `serverIPs` and obsolete keys are never copied. */
  method Persisted(cur: Obj) returns (out: Obj)
    ensures out.Keys == DefaultConfig().Keys
    ensures forall k :: k in out ==> out[k] == if k in cur then cur[k] else DefaultConfig()[k]
  {
    out := DefaultConfig();
    var pending := cur.Keys;
    while pending != {}
      invariant pending <= cur.Keys
      invariant out.Keys == DefaultConfig().Keys
      invariant forall k :: k in out ==> out[k] == if k in cur && k !in pending then cur[k] else DefaultConfig()[k]
      decreases |pending|
    {
      var key :| key in pending;
      if key in DefaultConfig() {
        out := out[key := cur[key]];
      }
      pending := pending - {key};
    }
  }

  /** The keys of `DEFAULT_CONFIG` are the validated keys and `port`. */
  lemma DefaultKeys(k: Key)
    ensures k in DefaultConfig() <==> k == Port || Repaired(k)
  {
    AllColourKeys(k);
  }

  /** Spreading the persisted form over the defaults gives the persisted form. */
  lemma PersistedOverDefaults(c: Obj)
    ensures DefaultConfig() + PersistedForm(c) == PersistedForm(c)
  {
    var p := PersistedForm(c);
    assert (DefaultConfig() + p).Keys == p.Keys;
  }

  /** The persisted form keeps every validated field a well-shaped configuration with
      string colours holds. */
  lemma PersistedKeepsShape(c: Obj, ips: seq<string>)
    requires WellShaped(c) && ColoursAreStrings(c)
    ensures WellShaped(PersistedForm(c)[ServerIPs := IpList(ips)])
    ensures ColoursAreStrings(PersistedForm(c)[ServerIPs := IpList(ips)])
  {
    var m := PersistedForm(c)[ServerIPs := IpList(ips)];
    PersistedKeeps(c, ips, Platforms);
    PersistedKeeps(c, ips, CurrentPlatformIndex);
    PersistedKeeps(c, ips, BackgroundColor);
    PersistedKeeps(c, ips, FontSizeEpisode);
    PersistedKeeps(c, ips, FontSizeSeries);
    forall n ensures IsStr(m, Colour(n)) {
      PersistedKeeps(c, ips, Colour(n));
    }
  }

  /** A validated field the configuration holds survives saving. */
  lemma PersistedKeeps(c: Obj, ips: seq<string>, k: Key)
    requires Repaired(k) && k in c
    ensures Get(PersistedForm(c)[ServerIPs := IpList(ips)], k) == Get(c, k)
  {
    DefaultKeys(k);
  }

  /** A configuration whose keys are those of `DEFAULT_CONFIG` and `serverIPs` is its
      own persisted form with its addresses. */
  lemma PersistedWhole(c: Obj, ips: seq<string>)
    requires c.Keys == DefaultConfig().Keys + {ServerIPs} && Get(c, ServerIPs) == Some(IpList(ips))
    ensures PersistedForm(c)[ServerIPs := IpList(ips)] == c
  {
  }

  /** A configuration the server holds, saved and loaded back with the same
      addresses, comes back as its persisted form. */
  lemma SaveThenLoad(c: Obj, ips: seq<string>)
    requires WellShaped(c) && ColoursAreStrings(c)
    ensures Validate((DefaultConfig() + SpreadOf(JObj(PersistedForm(c))))[ServerIPs := IpList(ips)])
         == PersistedForm(c)[ServerIPs := IpList(ips)]
  {
    PersistedOverDefaults(c);
    PersistedKeepsShape(c, ips);
    ValidateFixesWellShaped(PersistedForm(c)[ServerIPs := IpList(ips)]);
  }

  /** A configuration the server holds whose keys are exactly those of
      `DEFAULT_CONFIG` and `serverIPs`, saved and loaded back with the same addresses,
      comes back whole. */
  lemma SaveThenLoadWhole(c: Obj, ips: seq<string>)
    requires WellShaped(c) && ColoursAreStrings(c)
    requires c.Keys == DefaultConfig().Keys + {ServerIPs} && Get(c, ServerIPs) == Some(IpList(ips))
    ensures Validate((DefaultConfig() + SpreadOf(JObj(PersistedForm(c))))[ServerIPs := IpList(ips)]) == c
  {
    SaveThenLoad(c, ips);
    PersistedWhole(c, ips);
  }

  /** The value field `k` has after the POST validation of the merged configuration
      `m`, for the request fields `rest`. The colour lines read
      `typeof rest.k === 'string' ? rest.k : current.k`; a colour missing from both
      stays missing (an `undefined` property is modelled as an absent one). */
  function PostField(m: Obj, rest: Obj, k: Key): JVal
    requires k in m || k in PostKeys()
  {
    match k
    case Platforms => ListOrDefault(m)
    case CurrentPlatformIndex => PostIndex(m)
    case BackgroundColor => StringOr(m, BackgroundColor, PostBackground)
    case FontSizeEpisode => NumberOr(m, FontSizeEpisode, 32)
    case FontSizeSeries => NumberOr(m, FontSizeSeries, 24)
    case Colour(_) => if IsStr(rest, k) then rest[k] else m[k]
    case _ => m[k]
  }

  /** The configuration after a POST whose body spread to `rest`: the request's fields
      override the current ones except `serverIPs`, which is always the server's, and
      the result is well shaped. */
  function PostMerged(cur: Obj, rest: Obj, ips: seq<string>): (r: Obj)
    requires ServerIPs !in rest
    ensures WellShaped(r)
  {
    var m := MergeUpdate(cur, rest, ips);
    PostCheckedAt(m, rest, Platforms);
    PostCheckedAt(m, rest, CurrentPlatformIndex);
    PostCheckedAt(m, rest, BackgroundColor);
    PostCheckedAt(m, rest, FontSizeEpisode);
    PostCheckedAt(m, rest, FontSizeSeries);
    PostChecked(m, rest)
  }

  /** A POST overrides the fields the validation does not assign with the request's,
      keeps the others, and sets the server's addresses. */
  lemma PostMergedKeeps(cur: Obj, rest: Obj, ips: seq<string>, k: Key)
    requires ServerIPs !in rest && !Repaired(k)
    ensures Get(PostMerged(cur, rest, ips), k)
         == if k == ServerIPs then Some(IpList(ips)) else if k in rest then Get(rest, k) else Get(cur, k)
  {
    RepairedKeysAre(k);
  }

  /** What the POST validation assigns: the list repair, the clamp of the index of
      the merged configuration, and the type checks with their fixed defaults. */
  lemma PostRepairs(cur: Obj, rest: Obj, ips: seq<string>)
    requires ServerIPs !in rest
    ensures var m := MergeUpdate(cur, rest, ips); var r := PostMerged(cur, rest, ips);
      && (HasPlatforms(m) ==> r[Platforms] == m[Platforms])
      && (!HasPlatforms(m) ==> r[Platforms] == JArr(DefaultPlatforms))
      && r[CurrentPlatformIndex] == JNum(Clamp(NumberOrZero(Get(m, CurrentPlatformIndex)), 0, PlatformCount(r) - 1))
      && (IndexInRange(m) ==> r[CurrentPlatformIndex] == m[CurrentPlatformIndex])
      && r[BackgroundColor] == (if IsStr(m, BackgroundColor) then m[BackgroundColor] else JStr(PostBackground))
      && r[FontSizeEpisode] == (if IsNum(m, FontSizeEpisode) then m[FontSizeEpisode] else JNum(32))
      && r[FontSizeSeries] == (if IsNum(m, FontSizeSeries) then m[FontSizeSeries] else JNum(24))
  {
  }

  /** The POST colour lines change nothing after the merge: a colour the request
      carries is kept whatever its type, and any other colour keeps its current value. */
  lemma PostColoursKept(cur: Obj, rest: Obj, ips: seq<string>, n: ColourName)
    requires ServerIPs !in rest
    ensures Get(PostMerged(cur, rest, ips), Colour(n))
         == if Colour(n) in rest then Get(rest, Colour(n)) else Get(cur, Colour(n))
  {
    var k, m := Colour(n), MergeUpdate(cur, rest, ips);
    assert PostMerged(cur, rest, ips) == PostChecked(m, rest);
    RepairedKeysAre(k);
    PostCheckedAt(m, rest, k);
    if k in m {
      PostFieldColour(m, rest, n);
    }
    MergeUpdateAt(cur, rest, ips, k);
  }

  /** The POST colour line for one colour. */
  lemma PostFieldColour(m: Obj, rest: Obj, n: ColourName)
    requires Colour(n) in m
    ensures PostField(m, rest, Colour(n)) == if IsStr(rest, Colour(n)) then rest[Colour(n)] else m[Colour(n)]
  {
  }

  /** Field `k` after the POST validation of the merged configuration `m`. */
  lemma PostCheckedAt(m: Obj, rest: Obj, k: Key)
    ensures Get(PostChecked(m, rest), k) == if k in m || k in PostKeys() then Some(PostField(m, rest, k)) else None
  {
  }

  /** A request sending a number for a colour leaves that number in the configuration,
      although every loaded configuration has string colours. */
  lemma PostKeepsNonStringColour(cur: Obj, ips: seq<string>)
    ensures Get(PostMerged(cur, map[Colour(FontColorTime) := JNum(5)], ips), Colour(FontColorTime)) == Some(JNum(5))
    ensures !ColoursAreStrings(PostMerged(cur, map[Colour(FontColorTime) := JNum(5)], ips))
  {
    PostColoursKept(cur, map[Colour(FontColorTime) := JNum(5)], ips, FontColorTime);
  }

  /** The eleven load-time colour checks as one step: each colour that is not a
      string becomes its default. */
  function ColourChecks(c: Obj): Obj
  {
    map k | k in c.Keys + ColourKeys() :: if k.Colour? then StringOr(c, k, ColourDefault(k.colour)) else c[k]
  }

  /** The configuration after the five load-time checks that precede the colours. */
  function LoadPrechecked(c: Obj): Obj
  {
    c[Platforms := ListOrDefault(c)][CurrentPlatformIndex := LoadIndex(c)]
     [BackgroundColor := StringOr(c, BackgroundColor, LoadBackground)]
     [FontSizeEpisode := NumberOr(c, FontSizeEpisode, 32)][FontSizeSeries := NumberOr(c, FontSizeSeries, 24)]
  }

  /** The five load-time checks before the colours, followed by the colour checks,
      amount to `Validate`. */
  lemma LoadChecksAgree(c: Obj)
    ensures ColourChecks(LoadPrechecked(c)) == Validate(c)
  {
    forall k ensures Get(ColourChecks(LoadPrechecked(c)), k) == Get(Validate(c), k) {
      LoadChecksAgreeAt(c, k);
    }
    SameProperties(ColourChecks(LoadPrechecked(c)), Validate(c));
  }

  lemma LoadChecksAgreeAt(c: Obj, k: Key)
    ensures Get(ColourChecks(LoadPrechecked(c)), k) == Get(Validate(c), k)
  {
    var p := LoadPrechecked(c);
    ValidateAt(c, k);
    ColourChecksAt(p, k);
    match k
    case Platforms =>
      assert p[k] == ListOrDefault(c);
    case CurrentPlatformIndex =>
      assert p[k] == LoadIndex(c);
    case BackgroundColor =>
      assert p[k] == StringOr(c, BackgroundColor, LoadBackground);
    case FontSizeEpisode =>
      assert p[k] == NumberOr(c, FontSizeEpisode, 32);
    case FontSizeSeries =>
      assert p[k] == NumberOr(c, FontSizeSeries, 24);
    case Colour(n) =>
      assert Get(p, k) == Get(c, k);
      assert StringOr(p, k, ColourDefault(n)) == StringOr(c, k, ColourDefault(n));
    case _ =>
      assert Get(p, k) == Get(c, k);
      assert k in c ==> LoadedField(c, k) == c[k];
  }

  /** Field `k` after the load-time validation. */
  lemma ValidateAt(c: Obj, k: Key)
    ensures Get(Validate(c), k) == if k in c || Repaired(k) then Some(LoadedField(c, k)) else None
  {
    RepairedKeysAre(k);
  }

  /** Field `k` after the colour checks. */
  lemma ColourChecksAt(p: Obj, k: Key)
    ensures Get(ColourChecks(p), k)
         == if k.Colour? then Some(StringOr(p, k, ColourDefault(k.colour))) else Get(p, k)
  {
    AllColourKeys(k);
  }

  /** The POST configuration after the list, index and type checks and the colour
      lines, for the merged configuration `m`. */
  function PostChecked(m: Obj, rest: Obj): Obj
  {
    map k | k in m.Keys + PostKeys() :: PostField(m, rest, k)
  }

  /** The configuration after the five POST checks that precede the colour lines. */
  function PostPrechecked(m: Obj): Obj
  {
    m[Platforms := ListOrDefault(m)][CurrentPlatformIndex := PostIndex(m)]
     [BackgroundColor := StringOr(m, BackgroundColor, PostBackground)]
     [FontSizeEpisode := NumberOr(m, FontSizeEpisode, 32)][FontSizeSeries := NumberOr(m, FontSizeSeries, 24)]
  }

  /** The eleven POST colour lines as one step. */
  function PostColourLines(c: Obj, rest: Obj): Obj
  {
    map k | k in c.Keys :: if k.Colour? && IsStr(rest, k) then rest[k] else c[k]
  }

  /** The POST checks before the colours, followed by the colour lines, amount to
      `PostChecked`. */
  lemma PostChecksAgree(m: Obj, rest: Obj)
    ensures PostColourLines(PostPrechecked(m), rest) == PostChecked(m, rest)
  {
    forall k ensures Get(PostColourLines(PostPrechecked(m), rest), k) == Get(PostChecked(m, rest), k) {
      PostChecksAgreeAt(m, rest, k);
    }
    SameProperties(PostColourLines(PostPrechecked(m), rest), PostChecked(m, rest));
  }

  lemma PostChecksAgreeAt(m: Obj, rest: Obj, k: Key)
    ensures Get(PostColourLines(PostPrechecked(m), rest), k) == Get(PostChecked(m, rest), k)
  {
    var p := PostPrechecked(m);
    PostCheckedAt(m, rest, k);
    PostColourLinesAt(p, rest, k);
    match k
    case Platforms =>
      assert p[k] == ListOrDefault(m);
    case CurrentPlatformIndex =>
      assert p[k] == PostIndex(m);
    case BackgroundColor =>
      assert p[k] == StringOr(m, BackgroundColor, PostBackground);
    case FontSizeEpisode =>
      assert p[k] == NumberOr(m, FontSizeEpisode, 32);
    case FontSizeSeries =>
      assert p[k] == NumberOr(m, FontSizeSeries, 24);
    case Colour(n) =>
      assert Get(p, k) == Get(m, k);
    case _ =>
      assert Get(p, k) == Get(m, k);
  }

  /** Field `k` after the POST colour lines. */
  lemma PostColourLinesAt(c: Obj, rest: Obj, k: Key)
    ensures Get(PostColourLines(c, rest), k)
         == if k !in c then None else if k.Colour? && IsStr(rest, k) then Some(rest[k]) else Some(c[k])
  {
  }

  /** `Math.round(a / b)` for a non-negative ratio: the nearest integer, halves up. */
  function RoundDiv(a: nat, b: nat): (q: nat)
    requires b > 0
    ensures 2 * a - b < 2 * (q * b) <= 2 * a + b
  {
    var q := (2 * a + b) / (2 * b);
    assert (2 * a + b) == q * (2 * b) + (2 * a + b) % (2 * b);
    assert q * (2 * b) == 2 * (q * b);
    q
  }

  lemma MulMono(x: nat, y: nat, b: nat)
    ensures x <= y ==> x * b <= y * b
  {
  }

  /** A ratio at most (at least) a whole number `m` rounds to at most (at least) `m`. */
  lemma RoundDivBounds(a: nat, b: nat, m: nat)
    requires b > 0
    ensures a <= m * b ==> RoundDiv(a, b) <= m
    ensures a >= m * b ==> RoundDiv(a, b) >= m
  {
    var q := RoundDiv(a, b);
    MulMono(m + 1, q, b);
    assert (m + 1) * b == m * b + b;
    MulMono(q + 1, m, b);
    assert (q + 1) * b == q * b + b;
  }

  /** `formatTimeForServer`: "HH:MM:SS" for a non-negative number of seconds, which
      reads back as that number, and "--:--:--" for NaN (None) or a negative input. */
  function FormatTimeForServer(t: Option<int>): (r: string)
    ensures t.Some? && t.value >= 0 ==> ClockValue(r) == Some(t.value) && FieldCount(r) == 3 && Padded(r)
    ensures t.None? || t.value < 0 <==> r == "--:--:--"
  {
    if t.None? || t.value < 0 then "--:--:--" else LongClock(t.value)
  }

  /** The second line of the progress log. */
  datatype BarLine =
    | Bar(filled: nat, empty: nat, percent: nat, current: string, duration: string)
    | NoTimeData
    | NoBar

  /** The progress bar for a position and a duration: 20 cells split into filled and
      empty by the rounded, clamped ratio; "No valid time data" only when the titles
      changed, nothing otherwise. */
  function BarFor(cur: Option<int>, dur: Option<int>, titlesChanged: bool): (b: BarLine)
    ensures b.Bar? <==> cur.Some? && dur.Some? && dur.value > 0
    ensures b.NoTimeData? <==> !b.Bar? && titlesChanged
    ensures b.Bar? ==> b.filled + b.empty == 20 && b.percent <= 100
    ensures b.Bar? ==> 2 * (20 * Clamp(cur.value, 0, dur.value)) - dur.value < 2 * (b.filled * dur.value)
                                                                  <= 2 * (20 * Clamp(cur.value, 0, dur.value)) + dur.value
    ensures b.Bar? && cur.value <= 0 ==> b.filled == 0 && b.percent == 0
    ensures b.Bar? && cur.value >= dur.value ==> b.filled == 20 && b.percent == 100
    ensures b.Bar? ==> b.current == FormatTimeForServer(cur) && b.duration == FormatTimeForServer(dur)
  {
    if cur.Some? && dur.Some? && dur.value > 0 then
      var d := dur.value;
      var p := Clamp(cur.value, 0, d);
      var filled := RoundDiv(20 * p, d);
      var percent := RoundDiv(100 * p, d);
      RoundDivBounds(20 * p, d, 20);
      RoundDivBounds(100 * p, d, 100);
      RoundDivBounds(20 * p, d, 0);
      RoundDivBounds(100 * p, d, 0);
      Bar(filled, 20 - filled, percent, FormatTimeForServer(cur), FormatTimeForServer(dur))
    else if titlesChanged then NoTimeData
    else NoBar
  }

  /** One call of `logVideoProgressOnServer`. */
  datatype ProgressLog = ProgressLog(titlesChanged: bool, bar: BarLine)

  /** `data.series || null`. */
  function SeriesOf(data: JVal): JVal
  {
    TruthyOr(Prop(data, Series), JNull)
  }

  /** `data.episode || ""`. */
  function EpisodeOf(data: JVal): JVal
  {
    TruthyOr(Prop(data, Episode), JStr(""))
  }

  /** The configuration `loadConfiguration` validates, before the addresses are set:
      the file spread over the defaults; the defaults when the file cannot be parsed
      or the first write fails; the previous configuration otherwise. */
  function LoadBase(file: Store, prev: Obj, isSea: bool, canWrite: bool): Obj
  {
    match file
    case Holds(v) => DefaultConfig() + SpreadOf(v)
    case Unparsable => DefaultConfig()
    case Missing => if !isSea && !canWrite then DefaultConfig() else prev
  }

  class RelayServer {
    var config: Obj
    var file: Store
    var lastKnownVideoData: JVal
    var lastLoggedSeries: JVal
    var lastLoggedEpisode: JVal
    const registry: Registry

    ghost predicate Valid()
      reads this`config, registry`clients, registry`connectedIPs
    {
      registry.Valid() && WellShaped(config)
    }

    /** The state before `loadConfiguration` runs: the defaults, the waiting snapshot,
        no sessions and nothing logged. */
    constructor (store: Store)
      ensures Valid() && fresh(registry)
      ensures config == DefaultConfig() && file == store && lastKnownVideoData == WaitingSnapshot()
      ensures lastLoggedSeries == JNull && lastLoggedEpisode == JNull
      ensures registry.clients == [] && registry.outbox == []
    {
      config := DefaultConfig();
      file := store;
      lastKnownVideoData := WaitingSnapshot();
      lastLoggedSeries, lastLoggedEpisode := JNull, JNull;
      registry := new Registry();
      assert PlatformCount(DefaultConfig()) == 3;
    }

    /** `saveConfig`: writes the persisted form when the disk accepts it; a failed write
        is only logged. */
    method SaveConfig(canWrite: bool)
      modifies this`file
      ensures file == if canWrite then Holds(JObj(PersistedForm(config))) else old(file)
    {
      var toSave := Persisted(config);
      assert toSave == PersistedForm(config);
      if canWrite {
        file := Holds(JObj(toSave));
      }
    }

    /** The file part of `loadConfiguration`: the parsed file spread over the defaults;
        the defaults, saved, when it cannot be parsed; when it is missing outside a
        single-executable build, the defaults are written and the configuration is
        kept, or, if that write fails, the defaults are taken and saved. */
    method ReadConfigFile(isSea: bool, canWrite: bool)
      modifies this`config, this`file
      ensures config == LoadBase(old(file), old(config), isSea, canWrite)
      ensures file == if old(file).Holds? || (old(file).Missing? && isSea) || !canWrite then old(file)
                      else Holds(JObj(DefaultConfig()))
    {
      match file {
        case Holds(v) =>
          config := DefaultConfig() + SpreadOf(v);
        case Unparsable =>
          config := DefaultConfig();
          SaveConfig(canWrite);
        case Missing =>
          if !isSea {
            if canWrite {
              file := Holds(JObj(DefaultConfig()));
            } else {
              config := DefaultConfig();
              SaveConfig(canWrite);
            }
          }
      }
      assert PersistedForm(DefaultConfig()) == DefaultConfig();
    }

    /** The validation part of `loadConfiguration`, statement by statement. */
    method ValidateLoaded()
      modifies this`config
      ensures config == Validate(old(config))
    {
      ghost var c := config;
      if !HasPlatforms(config) {
        config := config[Platforms := JArr(DefaultPlatforms)];
        config := config[CurrentPlatformIndex := JNum(0)];
      } else {
        UpdateSame(config, Platforms);
      }
      if !IndexInRange(config) {
        config := config[CurrentPlatformIndex := JNum(0)];
      } else {
        UpdateSame(config, CurrentPlatformIndex);
      }
      assert config == c[Platforms := ListOrDefault(c)][CurrentPlatformIndex := LoadIndex(c)];
      CheckTypes(c);
      assert config == LoadPrechecked(c);
      LoadChecksAgree(c);
      // the eleven colour checks, each touching its own field
      config := ColourChecks(config);
    }

    /** The background and font-size checks of `loadConfiguration`: a wrongly typed
        field gets its fixed default. */
    method CheckTypes(ghost c: Obj)
      requires Get(config, BackgroundColor) == Get(c, BackgroundColor)
      requires Get(config, FontSizeEpisode) == Get(c, FontSizeEpisode)
      requires Get(config, FontSizeSeries) == Get(c, FontSizeSeries)
      modifies this`config
      ensures config == old(config)[BackgroundColor := StringOr(c, BackgroundColor, LoadBackground)]
        [FontSizeEpisode := NumberOr(c, FontSizeEpisode, 32)][FontSizeSeries := NumberOr(c, FontSizeSeries, 24)]
    {
      if !IsStr(config, BackgroundColor) {
        config := config[BackgroundColor := JStr(LoadBackground)];
      } else {
        UpdateSame(config, BackgroundColor);
      }
      ghost var coloured := config;
      if !IsNum(config, FontSizeEpisode) {
        config := config[FontSizeEpisode := JNum(32)];
      } else {
        UpdateSame(config, FontSizeEpisode);
      }
      ghost var sized := config;
      if !IsNum(config, FontSizeSeries) {
        config := config[FontSizeSeries := JNum(24)];
      } else {
        UpdateSame(config, FontSizeSeries);
      }
      assert config == sized[FontSizeSeries := NumberOr(c, FontSizeSeries, 24)];
      assert sized == coloured[FontSizeEpisode := NumberOr(c, FontSizeEpisode, 32)];
    }

    /** `loadConfiguration`: merge what the file holds over the defaults, store the
        server's addresses, then validate field by field. */
    method LoadConfiguration(isSea: bool, canWrite: bool, ips: seq<string>)
      requires Valid()
      modifies this`config, this`file
      ensures Valid() && ColoursAreStrings(config)
      ensures config == Validate(LoadBase(old(file), old(config), isSea, canWrite)[ServerIPs := IpList(ips)])
      ensures Get(config, ServerIPs) == Some(IpList(ips))
      ensures file == if old(file).Holds? || (old(file).Missing? && isSea) || !canWrite then old(file)
                      else Holds(JObj(DefaultConfig()))
    {
      ReadConfigFile(isSea, canWrite);
      config := config[ServerIPs := IpList(ips)];
      ghost var c := config;
      ValidateLoaded();
      ValidateKeeps(c, ServerIPs);
      ValidateColoursAreStrings(c);
    }

    /** The validation part of a POST, statement by statement, over the merged
        configuration and the request fields. */
    method ValidatePosted(rest: Obj)
      modifies this`config
      ensures config == PostChecked(old(config), rest)
    {
      ghost var m := config;
      if !HasPlatforms(config) {
        config := config[Platforms := JArr(DefaultPlatforms)];
      } else {
        UpdateSame(config, Platforms);
      }
      assert config == m[Platforms := ListOrDefault(m)];
      assert Get(config, CurrentPlatformIndex) == Get(m, CurrentPlatformIndex);
      config := config[CurrentPlatformIndex :=
        JNum(Clamp(NumberOrZero(Get(config, CurrentPlatformIndex)), 0, PlatformCount(config) - 1))];
      assert config == m[Platforms := ListOrDefault(m)][CurrentPlatformIndex := PostIndex(m)];
      assert StringOr(config, BackgroundColor, PostBackground) == StringOr(m, BackgroundColor, PostBackground);
      config := config[BackgroundColor := StringOr(config, BackgroundColor, PostBackground)];
      assert NumberOr(config, FontSizeEpisode, 32) == NumberOr(m, FontSizeEpisode, 32);
      config := config[FontSizeEpisode := NumberOr(config, FontSizeEpisode, 32)];
      assert NumberOr(config, FontSizeSeries, 24) == NumberOr(m, FontSizeSeries, 24);
      config := config[FontSizeSeries := NumberOr(config, FontSizeSeries, 24)];
      assert config == PostPrechecked(m);
      PostChecksAgree(m, rest);
      // the eleven colour lines, each touching its own field
      config := PostColourLines(config, rest);
    }

    /** `POST /api/config`: a body that does not parse, or parses to null, is refused
        with 400 and changes nothing; any other body is merged, validated and saved, and
        no reply is written at all. */
    method PostConfig(body: Option<JVal>, ips: seq<string>, canWrite: bool) returns (reply: HttpReply)
      requires Valid()
      modifies this`config, this`file
      ensures Valid()
      ensures body.None? || body.value == JNull ==>
        reply == Reply(400, map[Message := JStr("Invalid configuration data")])
        && config == old(config) && file == old(file)
      ensures body.Some? && body.value != JNull ==>
        reply == NoReply
        && config == PostMerged(old(config), RequestRest(body.value).value, ips)
        && file == if canWrite then Holds(JObj(PersistedForm(config))) else old(file)
    {
      if body.None? || RequestRest(body.value).None? {
        return Reply(400, map[Message := JStr("Invalid configuration data")]);
      }
      var rest := RequestRest(body.value).value;
      config := MergeUpdate(config, rest, ips);
      ValidatePosted(rest);
      assert config == PostMerged(old(config), rest, ips);
      SaveConfig(canWrite);
      reply := NoReply;
    }

    /** `GET /api/config`: 200 with the whole configuration, addresses included. */
    method GetConfig() returns (reply: HttpReply)
      ensures reply == Reply(200, config)
      ensures Valid() ==> WellShaped(reply.body)
    {
      reply := Reply(200, config);
    }

    /** A new connection: registered, then sent the latest snapshot with the
        configuration. */
    method OnConnection(id: nat, ip: string)
      requires Valid() && id !in Ids(registry.clients)
      modifies registry
      ensures Valid()
      ensures registry.clients == old(registry.clients) + [Session(id, ip, Open)]
      ensures registry.connectedIPs == old(registry.connectedIPs) + {ip}
      ensures registry.outbox == old(registry.outbox) + [Delivery(id, VideoUpdate(lastKnownVideoData, config))]
    {
      registry.Register(id, ip, VideoUpdate(lastKnownVideoData, config));
    }

    /** `logVideoProgressOnServer`: remembers the titles last logged and reports
        whether they changed and which bar is drawn. */
    method LogProgress(data: JVal) returns (log: ProgressLog)
      modifies this`lastLoggedSeries, this`lastLoggedEpisode
      ensures log.titlesChanged
        == (!StrictEquals(SeriesOf(data), old(lastLoggedSeries)) || !StrictEquals(EpisodeOf(data), old(lastLoggedEpisode)))
      ensures log.titlesChanged ==> lastLoggedSeries == SeriesOf(data) && lastLoggedEpisode == EpisodeOf(data)
      ensures !log.titlesChanged ==> lastLoggedSeries == old(lastLoggedSeries) && lastLoggedEpisode == old(lastLoggedEpisode)
      ensures log.bar == BarFor(TimeOf(data, CurrentSeconds), TimeOf(data, DurationSeconds), log.titlesChanged)
    {
      var series := SeriesOf(data);
      var episode := EpisodeOf(data);
      var changed := !StrictEquals(series, lastLoggedSeries) || !StrictEquals(episode, lastLoggedEpisode);
      if changed {
        lastLoggedSeries := series;
        lastLoggedEpisode := episode;
      }
      log := ProgressLog(changed, BarFor(TimeOf(data, CurrentSeconds), TimeOf(data, DurationSeconds), changed));
    }

    /** A frame from a session: a `FROM_EXTENSION` message with truthy data is logged,
        becomes the snapshot and is broadcast; anything else, including a frame that
        does not parse, changes nothing. */
    method OnMessage(frame: Option<JVal>)
      requires Valid()
      modifies this`lastKnownVideoData, this`lastLoggedSeries, this`lastLoggedEpisode, registry`outbox
      ensures Valid()
      ensures Accepted(frame) ==>
        lastKnownVideoData == Prop(frame.value, Data).value
        && registry.outbox == old(registry.outbox) + OpenDeliveries(registry.clients, VideoUpdate(Prop(frame.value, Data).value, config))
      ensures Accepted(frame) ==>
        var d := Prop(frame.value, Data).value;
        var changed := !StrictEquals(SeriesOf(d), old(lastLoggedSeries)) || !StrictEquals(EpisodeOf(d), old(lastLoggedEpisode));
        (changed ==> lastLoggedSeries == SeriesOf(d) && lastLoggedEpisode == EpisodeOf(d))
        && (!changed ==> lastLoggedSeries == old(lastLoggedSeries) && lastLoggedEpisode == old(lastLoggedEpisode))
      ensures !Accepted(frame) ==>
        lastKnownVideoData == old(lastKnownVideoData) && registry.outbox == old(registry.outbox)
        && lastLoggedSeries == old(lastLoggedSeries) && lastLoggedEpisode == old(lastLoggedEpisode)
    {
      if Accepted(frame) {
        var data := Prop(frame.value, Data).value;
        var _ := LogProgress(data);
        ghost var series, episode := lastLoggedSeries, lastLoggedEpisode;
        assert Valid();
        lastKnownVideoData := data;
        assert Valid();
        registry.Broadcast(VideoUpdate(lastKnownVideoData, config));
        assert registry.Valid();
        assert lastLoggedSeries == series && lastLoggedEpisode == episode;
      }
    }

    /** A session closed. */
    method OnClose(id: nat)
      requires Valid() && id in Ids(registry.clients)
      modifies registry
      ensures Valid()
      ensures registry.clients == Without(old(registry.clients), id)
      ensures registry.connectedIPs
           == if exists c :: c in registry.clients && c.ip == IpOf(old(registry.clients), id)
              then old(registry.connectedIPs) else old(registry.connectedIPs) - {IpOf(old(registry.clients), id)}
      ensures registry.outbox == old(registry.outbox)
    {
      registry.Unregister(id);
    }
  }
}
