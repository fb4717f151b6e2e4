/** The configuration rules both relay servers share: the platform-list and
    platform-index checks that run after loading the file, the merge and index clamp
    that run on `POST /api/config`, and the type checks that replace a wrongly typed
    field by a fixed default. Each rule yields the value it assigns to one field. */
module ConfigRules {
  import opened Base
  import opened Json

  /** The file `config.json` as `loadConfiguration` finds it: missing, present but not
      readable as JSON, or holding a JSON value. */
  datatype Store = Missing | Unparsable | Holds(content: JVal)

  /** What a request to `/api/config` is answered with; `NoReply` leaves it open. */
  datatype HttpReply = NoReply | Reply(status: nat, body: Obj)

  /** The list the validators put in place of a missing, non-array or empty `platforms`. */
  const DefaultPlatforms: seq<JVal> := [JStr("Default")]

  /** `platforms` is a non-empty array. */
  predicate HasPlatforms(c: Obj)
  {
    IsArr(c, Platforms) && |c[Platforms].items| > 0
  }

  function PlatformCount(c: Obj): nat
    requires HasPlatforms(c)
  {
    |c[Platforms].items|
  }

  /** `currentPlatformIndex` is a number naming an element of `platforms`. */
  predicate IndexInRange(c: Obj)
  {
    HasPlatforms(c) && IsNum(c, CurrentPlatformIndex) && 0 <= c[CurrentPlatformIndex].n < PlatformCount(c)
  }

  /** `typeof c.k === 'string' ? c.k : d`. */
  function StringOr(c: Obj, k: Key, d: string): (v: JVal)
    ensures v.JStr?
    ensures IsStr(c, k) ==> v == c[k]
    ensures !IsStr(c, k) ==> v == JStr(d)
  {
    if IsStr(c, k) then c[k] else JStr(d)
  }

  /** `typeof c.k === 'number' ? c.k : d`. */
  function NumberOr(c: Obj, k: Key, d: int): (v: JVal)
    ensures v.JNum?
    ensures IsNum(c, k) ==> v == c[k]
    ensures !IsNum(c, k) ==> v == JNum(d)
  {
    if IsNum(c, k) then c[k] else JNum(d)
  }

  /** The list both validators leave: a missing, non-array or empty `platforms`
      becomes `["Default"]`, a good one is kept. */
  function ListOrDefault(c: Obj): (v: JVal)
    ensures v.JArr? && |v.items| > 0
    ensures HasPlatforms(c) ==> v == c[Platforms]
    ensures !HasPlatforms(c) ==> v == JArr(DefaultPlatforms)
  {
    if HasPlatforms(c) then c[Platforms] else JArr(DefaultPlatforms)
  }

  /** The index the load-time checks leave: the list repair sets it to 0, and then an
      index that is not a number naming an element becomes 0. The result names an
      element of the repaired list, and a good index is kept. */
  function LoadIndex(c: Obj): (v: JVal)
    ensures v.JNum? && 0 <= v.n < |ListOrDefault(c).items|
    ensures IndexInRange(c) ==> v == c[CurrentPlatformIndex]
    ensures !IndexInRange(c) ==> v == JNum(0)
  {
    if IndexInRange(c) then c[CurrentPlatformIndex] else JNum(0)
  }

  /** The index a POST leaves, `max(0, min(Number(index) || 0, platforms.length - 1))`
      over the repaired list: always a number naming an element, an in-range one is
      kept and an unreadable one becomes 0. */
  function PostIndex(c: Obj): (v: JVal)
    ensures v.JNum? && 0 <= v.n < |ListOrDefault(c).items|
    ensures v.n == Clamp(NumberOrZero(Get(c, CurrentPlatformIndex)), 0, |ListOrDefault(c).items| - 1)
    ensures IndexInRange(c) ==> v == c[CurrentPlatformIndex]
    ensures ToNumber(Get(c, CurrentPlatformIndex)).None? ==> v == JNum(0)
  {
    JNum(Clamp(NumberOrZero(Get(c, CurrentPlatformIndex)), 0, |ListOrDefault(c).items| - 1))
  }

  /** The address list as a JSON array. */
  function IpList(ips: seq<string>): JVal
  {
    JArr(seq(|ips|, i requires 0 <= i < |ips| => JStr(ips[i])))
  }

  /** `const { serverIPs, ...rest } = v`: destructuring null throws (None); otherwise
      every property `v` spreads except `serverIPs`. */
  function RequestRest(v: JVal): (r: Option<Obj>)
    ensures r.None? <==> v == JNull
    ensures r.Some? ==> ServerIPs !in r.value
    ensures r.Some? ==> forall k :: k != ServerIPs ==> Get(r.value, k) == Get(SpreadOf(v), k)
  {
    if v == JNull then None else Some(SpreadOf(v) - {ServerIPs})
  }

  /** `{ ...cur, ...rest, serverIPs: ips }`: the request's fields override the current
      ones, everything else is kept, and the address list is always the server's. */
  function MergeUpdate(cur: Obj, rest: Obj, ips: seq<string>): (r: Obj)
    ensures Get(r, ServerIPs) == Some(IpList(ips))
  {
    cur + rest + map[ServerIPs := IpList(ips)]
  }

  /** Each property of the merged object comes from the request when it has it, from
      the current configuration otherwise. */
  lemma MergeUpdateAt(cur: Obj, rest: Obj, ips: seq<string>, k: Key)
    requires k != ServerIPs
    ensures Get(MergeUpdate(cur, rest, ips), k) == if k in rest then Get(rest, k) else Get(cur, k)
  {
  }
}
