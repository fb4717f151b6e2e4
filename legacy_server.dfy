/** The earlier relay server (obs_timer_server/src/server.js): the same session
    registry and the same list and index rules as the current server, but a
    configuration of five display fields with font sizes `fontSizeMain` and
    `fontSizeSub`, a file that keeps every field but the addresses, and a POST that
    answers and tells every open display about the new configuration. */
module LegacyServer {
  import opened Base
  import opened Json
  import opened Registry
  import opened ConfigRules

  /** The background both validators fall back to: with spaces after loading,
      without spaces after a POST. */
  const LoadBackground: string := "rgba(0, 0, 0, 0.65)"
  const PostBackground: string := "rgba(0,0,0,0.65)"

  /** The configuration before anything is loaded. */
  function InitialConfig(): Obj
  {
    map[Platforms := JArr(DefaultPlatforms), CurrentPlatformIndex := JNum(0),
        BackgroundColor := JStr(LoadBackground), FontSizeMain := JNum(22), FontSizeSub := JNum(14),
        ServerIPs := JArr([])]
  }

  /** The snapshot sent before any producer has reported: "대기중..." ("waiting")
      for both titles and "--:--" for both times. */
  function WaitingSnapshot(): JVal
  {
    JObj(map[Main := JStr("\U{B300}\U{AE30}\U{C911}..."), Sub := JStr("\U{B300}\U{AE30}\U{C911}..."),
             Current := JStr("--:--"), Duration := JStr("--:--")])
  }

  /** The fields the validators assign. */
  predicate Repaired(k: Key)
  {
    k == Platforms || k == CurrentPlatformIndex || k == BackgroundColor || k == FontSizeMain || k == FontSizeSub
  }

  /** What every configuration the server holds satisfies: a non-empty platform list
      with the index in range, a string background and numeric font sizes. */
  predicate WellShaped(c: Obj)
  {
    IndexInRange(c) && IsStr(c, BackgroundColor) && IsNum(c, FontSizeMain) && IsNum(c, FontSizeSub)
  }

  /** The validation at the end of `loadConfiguration`. The result is well shaped. */
  function Validate(c: Obj): (r: Obj)
    ensures WellShaped(r)
  {
    c[Platforms := ListOrDefault(c)][CurrentPlatformIndex := LoadIndex(c)]
     [BackgroundColor := StringOr(c, BackgroundColor, LoadBackground)]
     [FontSizeMain := NumberOr(c, FontSizeMain, 22)][FontSizeSub := NumberOr(c, FontSizeSub, 14)]
  }

  /** The load-time validation keeps every field it does not assign, present or absent. */
  lemma ValidateKeeps(c: Obj, k: Key)
    requires !Repaired(k)
    ensures Get(Validate(c), k) == Get(c, k)
  {
  }

  /** What the load-time validation assigns: a missing, non-array or empty list
      becomes `["Default"]` and an index that does not name an element becomes 0; a
      wrongly typed background or font size gets its fixed default, a right-typed one
      is kept. */
  lemma ValidateRepairs(c: Obj)
    ensures var r := Validate(c);
      && (HasPlatforms(c) ==> r[Platforms] == c[Platforms])
      && (!HasPlatforms(c) ==> r[Platforms] == JArr(DefaultPlatforms))
      && r[CurrentPlatformIndex] == (if IndexInRange(c) then c[CurrentPlatformIndex] else JNum(0))
      && r[BackgroundColor] == (if IsStr(c, BackgroundColor) then c[BackgroundColor] else JStr(LoadBackground))
      && r[FontSizeMain] == (if IsNum(c, FontSizeMain) then c[FontSizeMain] else JNum(22))
      && r[FontSizeSub] == (if IsNum(c, FontSizeSub) then c[FontSizeSub] else JNum(14))
  {
  }

  /** A well-shaped configuration passes validation unchanged. */
  lemma ValidateFixesWellShaped(c: Obj)
    requires WellShaped(c)
    ensures Validate(c) == c
  {
    forall k ensures Get(Validate(c), k) == Get(c, k) {
      if !Repaired(k) {
        ValidateKeeps(c, k);
      } else {
        ValidateRepairs(c);
      }
    }
    SameProperties(Validate(c), c);
  }

  /** A validated configuration passes validation unchanged. */
  lemma ValidateIdempotent(c: Obj)
    ensures Validate(Validate(c)) == Validate(c)
  {
    ValidateFixesWellShaped(Validate(c));
  }

  /** The configuration `loadConfiguration` validates: the addresses are stored
      first, then the file is spread over the configuration with the addresses kept;
      a missing or unreadable file leaves the configuration as it is. */
  function LoadBase(file: Store, prev: Obj, ips: seq<string>): (r: Obj)
    ensures Get(r, ServerIPs) == Some(IpList(ips))
  {
    var withIps := prev[ServerIPs := IpList(ips)];
    match file
    case Holds(v) => (withIps + SpreadOf(v))[ServerIPs := withIps[ServerIPs]]
    case _ => withIps
  }

  /** The object written to `config.json`: everything but the addresses. */
  function Saved(c: Obj): (r: Obj)
    ensures ServerIPs !in r
  {
    c - {ServerIPs}
  }

  /** Saving keeps every field except the addresses. */
  lemma SavedKeeps(c: Obj, k: Key)
    requires k != ServerIPs
    ensures Get(Saved(c), k) == Get(c, k)
  {
  }

  /** Which addresses a configuration holds does not matter for what is saved. */
  lemma SavedIgnoresAddresses(c: Obj, v: JVal)
    ensures Saved(c[ServerIPs := v]) == Saved(c)
  {
    forall k ensures Get(Saved(c[ServerIPs := v]), k) == Get(Saved(c), k) {
      if k != ServerIPs {
        SavedKeeps(c, k);
        SavedKeeps(c[ServerIPs := v], k);
      }
    }
    SameProperties(Saved(c[ServerIPs := v]), Saved(c));
  }

  /** A configuration the server holds, saved and loaded back into a server whose
      configuration has no fields it lacks, with the same addresses, comes back whole. */
  lemma SaveThenLoad(prev: Obj, c: Obj, ips: seq<string>)
    requires WellShaped(c) && Get(c, ServerIPs) == Some(IpList(ips)) && prev.Keys <= c.Keys
    ensures Validate(LoadBase(Holds(JObj(Saved(c))), prev, ips)) == c
  {
    var l := LoadBase(Holds(JObj(Saved(c))), prev, ips);
    forall k ensures Get(l, k) == Get(c, k) {
      if k != ServerIPs {
        SavedKeeps(c, k);
      }
    }
    SameProperties(l, c);
    ValidateFixesWellShaped(c);
  }

  /** The POST validation of the merged configuration `m`: the list repair, the
      index clamp against the repaired list, and the type checks. */
  function PostChecked(m: Obj): Obj
  {
    m[Platforms := ListOrDefault(m)][CurrentPlatformIndex := PostIndex(m)]
     [BackgroundColor := StringOr(m, BackgroundColor, PostBackground)]
     [FontSizeMain := NumberOr(m, FontSizeMain, 22)][FontSizeSub := NumberOr(m, FontSizeSub, 14)]
  }

  /** The configuration after a POST whose body spread to `rest`: the request's fields
      override the current ones except `serverIPs`, which is always the server's, and
      the result is well shaped. */
  function PostMerged(cur: Obj, rest: Obj, ips: seq<string>): (r: Obj)
    requires ServerIPs !in rest
    ensures WellShaped(r)
  {
    PostChecked(MergeUpdate(cur, rest, ips))
  }

  /** A POST overrides the fields the validation does not assign with the request's,
      keeps the others, and sets the server's addresses. */
  lemma PostMergedKeeps(cur: Obj, rest: Obj, ips: seq<string>, k: Key)
    requires ServerIPs !in rest && !Repaired(k)
    ensures Get(PostMerged(cur, rest, ips), k)
         == if k == ServerIPs then Some(IpList(ips)) else if k in rest then Get(rest, k) else Get(cur, k)
  {
    if k != ServerIPs {
      MergeUpdateAt(cur, rest, ips, k);
    }
  }

  /** What the POST validation assigns, over the merged configuration `m`. */
  lemma PostRepairs(cur: Obj, rest: Obj, ips: seq<string>)
    requires ServerIPs !in rest
    ensures var m := MergeUpdate(cur, rest, ips); var r := PostMerged(cur, rest, ips);
      && (HasPlatforms(m) ==> r[Platforms] == m[Platforms])
      && (!HasPlatforms(m) ==> r[Platforms] == JArr(DefaultPlatforms))
      && r[CurrentPlatformIndex] == JNum(Clamp(NumberOrZero(Get(m, CurrentPlatformIndex)), 0, PlatformCount(r) - 1))
      && (IndexInRange(m) ==> r[CurrentPlatformIndex] == m[CurrentPlatformIndex])
      && r[BackgroundColor] == (if IsStr(m, BackgroundColor) then m[BackgroundColor] else JStr(PostBackground))
      && r[FontSizeMain] == (if IsNum(m, FontSizeMain) then m[FontSizeMain] else JNum(22))
      && r[FontSizeSub] == (if IsNum(m, FontSizeSub) then m[FontSizeSub] else JNum(14))
  {
  }

  /** A request that leaves the merged configuration well shaped is taken as sent. */
  lemma PostTakesWellShaped(cur: Obj, rest: Obj, ips: seq<string>)
    requires ServerIPs !in rest && WellShaped(MergeUpdate(cur, rest, ips))
    ensures PostMerged(cur, rest, ips) == MergeUpdate(cur, rest, ips)
  {
    var m := MergeUpdate(cur, rest, ips);
    forall k ensures Get(PostChecked(m), k) == Get(m, k) {
      if Repaired(k) {
        PostRepairs(cur, rest, ips);
      }
    }
    SameProperties(PostChecked(m), m);
  }

  class LegacyRelay {
    var config: Obj
    var file: Store
    var lastKnownVideoData: JVal
    const registry: Registry

    ghost predicate Valid()
      reads this`config, registry`clients, registry`connectedIPs
    {
      registry.Valid() && WellShaped(config)
    }

    /** The state before `loadConfiguration` runs. */
    constructor (store: Store)
      ensures Valid() && fresh(registry)
      ensures config == InitialConfig() && file == store && lastKnownVideoData == WaitingSnapshot()
      ensures registry.clients == [] && registry.outbox == []
    {
      config := InitialConfig();
      file := store;
      lastKnownVideoData := WaitingSnapshot();
      registry := new Registry();
    }

    /** `loadConfiguration`: store the addresses, spread the file over the
        configuration or, when it is missing outside a single-executable build, write
        the configuration without its addresses; then validate. A file that cannot
        be parsed, or a failed write, leaves the configuration as it is. */
    method LoadConfiguration(isSea: bool, canWrite: bool, ips: seq<string>)
      requires Valid()
      modifies this`config, this`file
      ensures Valid()
      ensures config == Validate(LoadBase(old(file), old(config), ips))
      ensures Get(config, ServerIPs) == Some(IpList(ips))
      ensures file == if old(file).Missing? && !isSea && canWrite then Holds(JObj(Saved(old(config)))) else old(file)
    {
      config := config[ServerIPs := IpList(ips)];
      match file {
        case Holds(v) =>
          config := (config + SpreadOf(v))[ServerIPs := config[ServerIPs]];
        case Unparsable =>
        case Missing =>
          if !isSea && canWrite {
            SavedIgnoresAddresses(old(config), IpList(ips));
            file := Holds(JObj(Saved(config)));
          }
      }
      ghost var c := config;
      ValidateLoaded();
      ValidateKeeps(c, ServerIPs);
    }

    /** The checks at the end of `loadConfiguration`, statement by statement. */
    method ValidateLoaded()
      modifies this`config
      ensures config == Validate(old(config))
    {
      ghost var c := config;
      if !HasPlatforms(config) {
        config := config[Platforms := JArr(DefaultPlatforms)];
        config := config[CurrentPlatformIndex := JNum(0)];
      } else {
        UpdateSame(config, Platforms);
      }
      if !IndexInRange(config) {
        config := config[CurrentPlatformIndex := JNum(0)];
      } else {
        UpdateSame(config, CurrentPlatformIndex);
      }
      assert config == c[Platforms := ListOrDefault(c)][CurrentPlatformIndex := LoadIndex(c)];
      if !IsStr(config, BackgroundColor) {
        config := config[BackgroundColor := JStr(LoadBackground)];
      } else {
        UpdateSame(config, BackgroundColor);
      }
      if !IsNum(config, FontSizeMain) {
        config := config[FontSizeMain := JNum(22)];
      } else {
        UpdateSame(config, FontSizeMain);
      }
      if !IsNum(config, FontSizeSub) {
        config := config[FontSizeSub := JNum(14)];
      } else {
        UpdateSame(config, FontSizeSub);
      }
    }

    /** The checks of a POST, statement by statement, over the merged configuration. */
    method ValidatePosted()
      modifies this`config
      ensures config == PostChecked(old(config))
    {
      ghost var m := config;
      if !HasPlatforms(config) {
        config := config[Platforms := JArr(DefaultPlatforms)];
      } else {
        UpdateSame(config, Platforms);
      }
      assert config == m[Platforms := ListOrDefault(m)];
      assert Get(config, CurrentPlatformIndex) == Get(m, CurrentPlatformIndex);
      config := config[CurrentPlatformIndex :=
        JNum(Clamp(NumberOrZero(Get(config, CurrentPlatformIndex)), 0, PlatformCount(config) - 1))];
      assert config == m[Platforms := ListOrDefault(m)][CurrentPlatformIndex := PostIndex(m)];
      assert StringOr(config, BackgroundColor, PostBackground) == StringOr(m, BackgroundColor, PostBackground);
      config := config[BackgroundColor := StringOr(config, BackgroundColor, PostBackground)];
      assert NumberOr(config, FontSizeMain, 22) == NumberOr(m, FontSizeMain, 22);
      config := config[FontSizeMain := NumberOr(config, FontSizeMain, 22)];
      assert NumberOr(config, FontSizeSub, 14) == NumberOr(m, FontSizeSub, 14);
      config := config[FontSizeSub := NumberOr(config, FontSizeSub, 14)];
    }

    /** `GET /api/config`: 200 with the whole configuration, addresses included. */
    method GetConfig() returns (reply: HttpReply)
      ensures reply == Reply(200, config)
      ensures Valid() ==> WellShaped(reply.body)
    {
      reply := Reply(200, config);
    }

    /** `POST /api/config`. A body that does not parse, or parses to null, is refused
        with 400 and changes nothing. Any other body is merged and validated in
        memory; when the write succeeds the server answers 200 with the new
        configuration and sends it to every open display, and when it fails the
        server answers 500, tells no display, and keeps the new configuration in
        memory all the same. */
    method PostConfig(body: Option<JVal>, ips: seq<string>, canWrite: bool) returns (reply: HttpReply)
      requires Valid()
      modifies this`config, this`file, registry`outbox
      ensures Valid()
      ensures body.None? || body.value == JNull ==>
        reply == Reply(400, map[Message := JStr("Invalid configuration data")])
        && config == old(config) && file == old(file) && registry.outbox == old(registry.outbox)
      ensures body.Some? && body.value != JNull ==>
        config == PostMerged(old(config), RequestRest(body.value).value, ips)
      ensures body.Some? && body.value != JNull && canWrite ==>
        file == Holds(JObj(Saved(config)))
        && reply == Reply(200, map[Message := JStr("Configuration saved successfully"), Config := JObj(config)])
        && registry.outbox == old(registry.outbox) + OpenDeliveries(registry.clients, ConfigUpdated(config))
      ensures body.Some? && body.value != JNull && !canWrite ==>
        file == old(file)
        && reply == Reply(500, map[Message := JStr("Error saving configuration")])
        && registry.outbox == old(registry.outbox)
    {
      if body.None? || RequestRest(body.value).None? {
        return Reply(400, map[Message := JStr("Invalid configuration data")]);
      }
      var rest := RequestRest(body.value).value;
      config := MergeUpdate(config, rest, ips);
      ValidatePosted();
      assert config == PostMerged(old(config), rest, ips);
      var toSave := config - {ServerIPs};
      if !canWrite {
        return Reply(500, map[Message := JStr("Error saving configuration")]);
      }
      file := Holds(JObj(toSave));
      reply := Reply(200, map[Message := JStr("Configuration saved successfully"), Config := JObj(config)]);
      registry.Broadcast(ConfigUpdated(config));
      assert registry.Valid();
    }

    /** A new connection: registered, then sent the latest snapshot with the
        configuration. */
    method OnConnection(id: nat, ip: string)
      requires Valid() && id !in Ids(registry.clients)
      modifies registry
      ensures Valid()
      ensures registry.clients == old(registry.clients) + [Session(id, ip, Open)]
      ensures registry.connectedIPs == old(registry.connectedIPs) + {ip}
      ensures registry.outbox == old(registry.outbox) + [Delivery(id, VideoUpdate(lastKnownVideoData, config))]
    {
      registry.Register(id, ip, VideoUpdate(lastKnownVideoData, config));
    }

    /** A frame from a session: a `FROM_EXTENSION` message with truthy data becomes the
        snapshot and is broadcast; anything else, including a frame that does not
        parse, changes nothing. */
    method OnMessage(frame: Option<JVal>)
      requires Valid()
      modifies this`lastKnownVideoData, registry`outbox
      ensures Valid()
      ensures Accepted(frame) ==>
        lastKnownVideoData == Prop(frame.value, Data).value
        && registry.outbox == old(registry.outbox) + OpenDeliveries(registry.clients, VideoUpdate(Prop(frame.value, Data).value, config))
      ensures !Accepted(frame) ==>
        lastKnownVideoData == old(lastKnownVideoData) && registry.outbox == old(registry.outbox)
    {
      if Accepted(frame) {
        lastKnownVideoData := Prop(frame.value, Data).value;
        registry.Broadcast(VideoUpdate(lastKnownVideoData, config));
        assert registry.Valid();
      }
    }

    /** A session closed. */
    method OnClose(id: nat)
      requires Valid() && id in Ids(registry.clients)
      modifies registry
      ensures Valid()
      ensures registry.clients == Without(old(registry.clients), id)
      ensures registry.connectedIPs
           == if exists c :: c in registry.clients && c.ip == IpOf(old(registry.clients), id)
              then old(registry.connectedIPs) else old(registry.connectedIPs) - {IpOf(old(registry.clients), id)}
      ensures registry.outbox == old(registry.outbox)
    {
      registry.Unregister(id);
    }
  }
}
