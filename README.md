# obs-watch-party, modelled in Dafny

obs-watch-party puts a "now watching" overlay into an OBS scene. A browser
extension reads the title and the playback position of the video a viewer is
watching on Laftel and sends them over a WebSocket to a small Node relay server.
The relay keeps the last snapshot and a configuration of colours, font sizes and
streaming platforms. It broadcasts both to every overlay page that OBS shows as a
browser source. A configuration page served by the relay edits that
configuration.

This project models the core of the system:

- **The current relay** (`obs-timer-server/src/server-main.js`), module
  `CurrentServer`:
  - `loadConfiguration`: the defaults, the file spread over them, the platform and
    index checks, and the type checks of the background, the font sizes and the
    eleven colours;
  - `saveConfig`: only the keys of `DEFAULT_CONFIG` are written;
  - `GET` and `POST /api/config`;
  - the session set, the first-connection greeting, `FROM_EXTENSION` frames and
    the progress log.
- **The earlier relay** (`obs_timer_server/src/server.js`), module `LegacyServer`,
  which answers a POST and broadcasts `CONFIG_UPDATED`.
- **The rules both relays share** (`ConfigRules`) and their session registry with
  `broadcast` (`Registry`).
- **The configuration page** (`config-page.js`), module `ConfigPage`:
  - colour conversion between hex and `rgba(...)` text;
  - reading the form;
  - the platform list editor.
- **The overlay page** (`obs-display.js`), module `Display`: applying a
  configuration, rendering a snapshot, and reconnecting.
- **The earlier producer page script** (`my-timer-extension/content.js`), module
  `Producer`: the connection supervisor with its retry counter, the send interval,
  duplicate suppression, and the clean-up on navigation.
- **The watch-party extension:**
  - the page script (`content-script.js`), module `TitleTracker`: title
    extraction and classification, and tracking on command;
  - the background script (`background-script.js`), module `Background`: the
    state, the icon, the socket life cycle, and forwarding snapshots.

Shared helpers live in `Base`, `Json` and `Clock`:

- `Base`: JavaScript numbers, digits and `trim`.
- `Json`: JSON values with JavaScript's truthiness, `Number`, `parseFloat`, `parseInt` and
  object spread.
- `Clock`: clock strings, with a parser that reads them back.

Mutable module state becomes a class whose methods change only what their
`modifies` clauses name. Timers, sockets, the runtime and the DOM become
counters, ready states and logs of what was sent. The data flow between the
programs is connected:

- The overlay's and the servers' configurations are the same `Obj` values.
- The page script's `Snapshot` is what the background stores and forwards.

Two behaviours of the code as written are shown by scenario methods. Both
come from the same pattern: a socket that is replaced while it is still
CLOSING keeps its `onclose` handler.

- **Producer retry counter** (`my-timer-extension/content.js:19-51,189-201`).
  `connectWebSocket` resets `attempt` to 0 on every call. `cleanupAndClose`
  detaches the handlers only from an OPEN or CONNECTING socket. The invariant
  `Producer.Supervisor.ConnectionValid` bounds `attempt` by one plus the number
  of close events from abandoned sockets, so without those the five-attempt
  limit is never reached. `Producer.LateCloseRaisesAttempt` shows a late close
  that takes the counter to 2.
- **Orphaned background socket** (`watch-party-extension/background-script.js:65-92`).
  `connectWebSocket` replaces a CLOSING socket without detaching its `onclose`,
  and that handler later clears `webSocket`. The new socket then opens with
  nothing referring to it. `Background.LateCloseOrphansSocket` ends with the
  green icon, the connected flag set, no socket held and no snapshot forwarded.
  `Background.Background.Tidy` is the invariant that rules this out, and
  `Background.Background.Connect` keeps it exactly when the replaced socket was
  not closing.

Some further as-written behaviours are stated as lemmas:

- The current relay's POST colour lines change nothing
  (`CurrentServer.PostColoursKept`), so a number posted for a colour stays
  (`CurrentServer.PostKeepsNonStringColour`).
- The load-time background fallback `"rgba(0, 0, 0, 0.65)"` is not
  `DEFAULT_CONFIG`'s value.
- The producer shows one second before zero as `"-1:-1"`
  (`Producer.DisplayClockNegative`).

## Model

| member | source | states |
|---|---|---|
| Json.ParseFloatReadsInteger | obs-timer-server/src/server-main.js:74-75 | `parseFloat` reads back a decimal integer, signed or not, after any white space and before anything that is not a digit |
| Json.ParseFloatNaN | obs-timer-server/src/server-main.js:74-75 | `parseFloat` of a string is NaN exactly when, after the white space, neither a digit nor a '.' and a digit starts it, alone or after a sign |
| Json.ParseFloatLeadingPoint | obs-timer-server/src/server-main.js:74-75 | a number written from its '.', such as ".5" or "-.5", is read by `parseFloat` with integer part 0, while `parseInt` finds no digit in it |
| Json.ParseIntReadsInteger | obs-timer-server/public/js/config-page.js:193-194 | `parseInt(text, 10)` reads back a decimal integer, signed or not, after any white space and before anything that is not a digit |
| Json.ParseIntNaN | obs-timer-server/public/js/config-page.js:193-194 | `parseInt(text, 10)` is NaN exactly when, after the white space, no digit starts the text, alone or after a sign |
| Json.ToNumberReadsInteger | obs-timer-server/src/server-main.js:227 | `Number` reads back a decimal integer and a number, and reads white space as 0 |
| ConfigRules.StringOr | obs-timer-server/src/server-main.js:162-172 | a string field is kept, anything else becomes the given default; the result is a string |
| ConfigRules.NumberOr | obs-timer-server/src/server-main.js:155-160 | a number field is kept, anything else becomes the given default; the result is a number |
| ConfigRules.ListOrDefault | obs-timer-server/src/server-main.js:143-147 | a missing, non-array or empty `platforms` becomes `["Default"]`, a good one is kept; the result is a non-empty array |
| ConfigRules.LoadIndex | obs-timer-server/src/server-main.js:143-151 | the load-time index names an element of the repaired list; an in-range number is kept, anything else becomes 0 |
| ConfigRules.PostIndex | obs-timer-server/src/server-main.js:226-227 | the POST index is `Number(index) \|\| 0` clamped into the repaired list; in range it is kept, unreadable it becomes 0 |
| ConfigRules.RequestRest | obs-timer-server/src/server-main.js:221-222 | destructuring null fails; otherwise every spread property except `serverIPs` |
| ConfigRules.MergeUpdate | obs-timer-server/src/server-main.js:223 | the merged object's addresses are always the server's |
| ConfigRules.MergeUpdateAt | obs-timer-server/src/server-main.js:223 | each other property comes from the request when it has it, else from the current configuration |
| Json.SpreadOf | obs-timer-server/src/server-main.js:121 | `{...v}`: an object's own fields; null, booleans and numbers add nothing |
| Json.DecimalPrefix | obs-timer-server/src/server-main.js:74-75 | the longest leading run of decimal digits, stopped by a non-digit: the digits `parseFloat` reads here and `parseInt` reads at config-page.js:193-194, and each `\d+` group of the colour pattern at config-page.js:70 |
| Registry.IpOf | obs-timer-server/src/server-main.js:326 | the address stored on the closing session belongs to that session |
| Registry.Without | obs-timer-server/src/server-main.js:328 | `clients.delete(ws)` keeps every other session, in order, and keeps identities distinct |
| Registry.WithState | obs-timer-server/src/server-main.js:355 | a ready-state change touches only that session |
| Registry.InboxAppend | obs-timer-server/src/server-main.js:353-359 | what a session receives over two runs of sends is what it receives in each, concatenated |
| Registry.BroadcastReachesOpenOnce | obs-timer-server/src/server-main.js:353-359 | a broadcast reaches each OPEN session exactly once and no other session |
| Registry.WithStateKeeps | obs-timer-server/src/server-main.js:353-359 | ready-state changes keep identities distinct and the set of addresses unchanged |
| Registry.Registry.constructor | obs-timer-server/src/server-main.js:278-279 | no sessions, no addresses, nothing sent |
| Registry.Registry.Register | obs-timer-server/src/server-main.js:282-299 | the session joins in order, its address is noted, and the greeting goes to it alone |
| Registry.Registry.Unregister | obs-timer-server/src/server-main.js:325-342 | the session leaves; its address leaves `connectedIPs` exactly when no remaining session shares it |
| Registry.Registry.Broadcast | obs-timer-server/src/server-main.js:353-359 | one frame to each OPEN session in set order, none to the others |
| Registry.Registry.SetReadyState | obs-timer-server/src/server-main.js:355 | the registry stays consistent across ready-state changes |
| CurrentServer.AllColourKeys | obs-timer-server/src/server-main.js:35-45 | the colour keys are exactly the eleven colour settings |
| CurrentServer.RepairedKeysAre | obs-timer-server/src/server-main.js:143-172 | the keys the load-time validator always assigns are the list, the index, the background, both font sizes and the colours |
| CurrentServer.Validate | obs-timer-server/src/server-main.js:143-172 | after the load-time checks the configuration is well shaped |
| CurrentServer.ValidateKeeps | obs-timer-server/src/server-main.js:143-172 | the load-time checks keep every field they do not assign, present or absent |
| CurrentServer.ValidateColoursAreStrings | obs-timer-server/src/server-main.js:162-172 | after loading every colour is a string |
| CurrentServer.ValidateRepairs | obs-timer-server/src/server-main.js:143-160 | the list repair, the index reset, and the background and font-size defaults: 32, 24 and `"rgba(0, 0, 0, 0.65)"` |
| CurrentServer.ValidateColours | obs-timer-server/src/server-main.js:162-172 | a string colour is kept, any other becomes its `DEFAULT_CONFIG` value |
| CurrentServer.ValidateFixesWellShaped | obs-timer-server/src/server-main.js:143-172 | a well-shaped configuration with string colours passes unchanged |
| CurrentServer.ValidateIdempotent | obs-timer-server/src/server-main.js:143-172 | validating twice is validating once |
| CurrentServer.OutOfRangeIndexResets | obs-timer-server/src/server-main.js:148-151 | index 99 over the three default platforms becomes 0 |
| CurrentServer.PersistedForm | obs-timer-server/src/server-main.js:180-186 | exactly the keys of `DEFAULT_CONFIG`, each with the current value when there is one |
| CurrentServer.PersistedOmitsAddresses | obs-timer-server/src/server-main.js:180-186 | neither the addresses nor an obsolete key is saved |
| CurrentServer.Persisted | obs-timer-server/src/server-main.js:180-186 | the copy loop yields exactly that object |
| CurrentServer.DefaultKeys | obs-timer-server/src/server-main.js:28-46 | the keys of `DEFAULT_CONFIG` are `port` and the validated keys |
| CurrentServer.PersistedOverDefaults | obs-timer-server/src/server-main.js:180-186 | spreading a saved configuration over the defaults, as loading does at line 121, gives it back |
| CurrentServer.PersistedKeepsShape | obs-timer-server/src/server-main.js:180-186 | saving keeps a held configuration well shaped and its colours strings |
| CurrentServer.PersistedKeeps | obs-timer-server/src/server-main.js:180-186 | a validated field the configuration holds survives saving |
| CurrentServer.SaveThenLoad | obs-timer-server/src/server-main.js:114-192 | a held configuration saved and loaded back with the same addresses returns as its persisted form |
| CurrentServer.PostMerged | obs-timer-server/src/server-main.js:219-243 | after a POST the configuration is well shaped |
| CurrentServer.PostMergedKeeps | obs-timer-server/src/server-main.js:222-223 | unvalidated fields come from the request, else from before; the addresses are the server's |
| CurrentServer.PostRepairs | obs-timer-server/src/server-main.js:226-230 | the list repair, the index clamp, and the background and font-size defaults `"rgba(0,0,0,0.65)"`, 32 and 24 |
| CurrentServer.PostColoursKept | obs-timer-server/src/server-main.js:233-243 | the colour lines change nothing after the merge: a sent colour stays whatever its type, an unsent one keeps its value |
| CurrentServer.PostFieldColour | obs-timer-server/src/server-main.js:233-243 | one colour line: the request's string, else the merged value |
| CurrentServer.PostCheckedAt | obs-timer-server/src/server-main.js:226-243 | each field after the POST checks, field by field |
| CurrentServer.PostKeepsNonStringColour | obs-timer-server/src/server-main.js:233-243 | a number posted for a colour stays in the configuration, so not every colour is a string |
| CurrentServer.LoadChecksAgree | obs-timer-server/src/server-main.js:143-172 | the statement order (five checks, then the colours) amounts to `Validate` |
| CurrentServer.LoadChecksAgreeAt | obs-timer-server/src/server-main.js:143-172 | the same, property by property |
| CurrentServer.ValidateAt | obs-timer-server/src/server-main.js:143-172 | each property after the load-time validation |
| CurrentServer.ColourChecksAt | obs-timer-server/src/server-main.js:162-172 | each property after the eleven colour checks |
| CurrentServer.PostChecksAgree | obs-timer-server/src/server-main.js:226-243 | the POST statements in order amount to the POST validation |
| CurrentServer.PostChecksAgreeAt | obs-timer-server/src/server-main.js:226-243 | the same, property by property |
| CurrentServer.PostColourLinesAt | obs-timer-server/src/server-main.js:233-243 | each property after the colour lines |
| CurrentServer.RoundDiv | obs-timer-server/src/server-main.js:99-105 | `Math.round(a / b)`: within half a unit of the ratio |
| CurrentServer.RoundDivBounds | obs-timer-server/src/server-main.js:98-105 | a ratio at most (at least) a whole number rounds to at most (at least) it |
| CurrentServer.FormatTimeForServer | obs-timer-server/src/server-main.js:58-65 | `--:--:--` exactly for NaN or a negative time; otherwise three fields that read back as the time, minutes and seconds two digits each and hours two digits or without a leading zero |
| CurrentServer.BarFor | obs-timer-server/src/server-main.js:96-110 | a bar exactly when both times are numbers and the duration is positive; 20 cells; filled cells and percent round the clamped ratio; 0 at or before the start, full at or after the end; the no-time line only when the titles changed |
| CurrentServer.RelayServer.constructor | obs-timer-server/src/server-main.js:48-56 | the defaults, the waiting snapshot (and the session set of line 280), nothing logged, no sessions |
| CurrentServer.RelayServer.SaveConfig | obs-timer-server/src/server-main.js:175-192 | writes the persisted form, or nothing when the write fails |
| CurrentServer.RelayServer.ReadConfigFile | obs-timer-server/src/server-main.js:116-138 | a readable file is spread over the defaults; a missing one is created outside a SEA bundle; an unreadable one gives the defaults and a save |
| CurrentServer.RelayServer.ValidateLoaded | obs-timer-server/src/server-main.js:143-172 | the statements compute `Validate` of the previous configuration |
| CurrentServer.RelayServer.CheckTypes | obs-timer-server/src/server-main.js:152-160 | the background and the two font sizes get their defaults when wrongly typed |
| CurrentServer.RelayServer.LoadConfiguration | obs-timer-server/src/server-main.js:114-173 | the validated merge with the current addresses; the colours are strings; the file is touched only to create or replace it |
| CurrentServer.RelayServer.ValidatePosted | obs-timer-server/src/server-main.js:226-243 | the statements compute the POST validation |
| CurrentServer.RelayServer.PostConfig | obs-timer-server/src/server-main.js:214-253 | a body that does not parse, or is null, gets 400 and changes nothing; any other is merged, validated and saved with no reply and no broadcast |
| CurrentServer.RelayServer.GetConfig | obs-timer-server/src/server-main.js:210-213 | 200 with the whole configuration, addresses included, which is well shaped |
| CurrentServer.RelayServer.OnConnection | obs-timer-server/src/server-main.js:282-299 | registered, and greeted with the last snapshot and the configuration |
| CurrentServer.RelayServer.LogProgress | obs-timer-server/src/server-main.js:67-111 | the titles last logged change exactly when the series or episode differs; the bar line is `BarFor` of the parsed times |
| CurrentServer.RelayServer.OnMessage | obs-timer-server/src/server-main.js:302-322 | truthy `FROM_EXTENSION` data becomes the snapshot and is broadcast to OPEN sessions, and the titles remembered for the log become the frame's exactly when its series or episode differs from them; anything else changes nothing |
| CurrentServer.RelayServer.OnClose | obs-timer-server/src/server-main.js:325-342 | the session leaves; its address goes when no other session shares it |
| LegacyServer.Validate | obs_timer_server/src/server.js:59-77 | after the load-time checks the configuration is well shaped |
| LegacyServer.ValidateKeeps | obs_timer_server/src/server.js:59-77 | fields it does not assign are kept, present or absent |
| LegacyServer.ValidateRepairs | obs_timer_server/src/server.js:60-77 | the list repair, the index reset, and the defaults `"rgba(0, 0, 0, 0.65)"`, 22 and 14 |
| LegacyServer.ValidateFixesWellShaped | obs_timer_server/src/server.js:59-77 | a well-shaped configuration passes unchanged |
| LegacyServer.ValidateIdempotent | obs_timer_server/src/server.js:59-77 | validating twice is validating once |
| LegacyServer.LoadBase | obs_timer_server/src/server.js:40-58 | the addresses are stored first and survive the file's spread |
| LegacyServer.Saved | obs_timer_server/src/server.js:111 | everything but the addresses is saved |
| LegacyServer.SavedKeeps | obs_timer_server/src/server.js:111 | every other field is saved as it is |
| LegacyServer.SavedIgnoresAddresses | obs_timer_server/src/server.js:111 | the addresses held do not affect what is saved |
| LegacyServer.SaveThenLoad | obs_timer_server/src/server.js:40-78 | a held configuration saved and loaded back with the same addresses returns whole |
| LegacyServer.PostMerged | obs_timer_server/src/server.js:99-108 | after a POST the configuration is well shaped |
| LegacyServer.PostMergedKeeps | obs_timer_server/src/server.js:100-101 | unvalidated fields come from the request, else from before; the addresses are the server's |
| LegacyServer.PostRepairs | obs_timer_server/src/server.js:104-108 | the list repair, the index clamp, and the defaults `"rgba(0,0,0,0.65)"`, 22 and 14 |
| LegacyServer.PostTakesWellShaped | obs_timer_server/src/server.js:101-108 | a request that merges into a well-shaped configuration is taken as sent |
| LegacyServer.LegacyRelay.constructor | obs_timer_server/src/server.js:12-20 | the initial configuration and the waiting snapshot of line 155, no sessions |
| LegacyServer.LegacyRelay.LoadConfiguration | obs_timer_server/src/server.js:40-78 | the validated merge with the current addresses; only a missing file outside a SEA bundle is written |
| LegacyServer.LegacyRelay.ValidateLoaded | obs_timer_server/src/server.js:59-77 | the statements compute `Validate` |
| LegacyServer.LegacyRelay.ValidatePosted | obs_timer_server/src/server.js:104-108 | the statements compute the POST validation |
| LegacyServer.LegacyRelay.GetConfig | obs_timer_server/src/server.js:88-91 | 200 with the whole configuration, which is well shaped |
| LegacyServer.LegacyRelay.PostConfig | obs_timer_server/src/server.js:92-128 | 400 and no change for a bad body; else merged in memory; a good write answers 200 and broadcasts `CONFIG_UPDATED` to OPEN sessions, a failed one answers 500 and tells no one |
| LegacyServer.LegacyRelay.OnConnection | obs_timer_server/src/server.js:157-174 | registered and greeted with the snapshot and the configuration |
| LegacyServer.LegacyRelay.OnMessage | obs_timer_server/src/server.js:177-196 | truthy `FROM_EXTENSION` data becomes the snapshot and is broadcast; anything else changes nothing |
| LegacyServer.LegacyRelay.OnClose | obs_timer_server/src/server.js:199-216 | the session leaves; its address goes when no other session shares it |
| ConfigPage.ComponentToHex | obs-timer-server/public/js/config-page.js:59-62 | hexadecimal digits with the component's value; two of them for a byte |
| ConfigPage.RgbToHex | obs-timer-server/public/js/config-page.js:58-64 | "#" followed only by hexadecimal digits; for bytes, seven characters whose three digit pairs read back as r, g and b |
| ConfigPage.HexPrefix | obs-timer-server/public/js/config-page.js:51 | the longest leading run of hexadecimal digits |
| ConfigPage.ToInt32 | obs-timer-server/public/js/config-page.js:52-54 | the 32-bit value the bitwise operators see: in the signed 32-bit range, equal to the input modulo 2^32, 0 for NaN; small non-negative values unchanged |
| ConfigPage.HexToRgb | obs-timer-server/public/js/config-page.js:50-56 | three components, each a byte. Its only caller is `hexAlphaToRgba`, which nothing in config-page.js calls |
| ConfigPage.HexRoundTrip | obs-timer-server/public/js/config-page.js:50-64 | `hexToRgb(rgbToHex(r, g, b))` is `(r, g, b)` for bytes |
| ConfigPage.ParseHexDigits | obs-timer-server/public/js/config-page.js:51 | `parseInt` of hexadecimal digits is their value |
| ConfigPage.AlphaPrefix | obs-timer-server/public/js/config-page.js:70 | the longest leading run of digits and dots |
| ConfigPage.RgbaToHexAlpha | obs-timer-server/public/js/config-page.js:66-79 | black with alpha 1 for a missing, empty or non-string value and for a string that matches nowhere; a "#" string is kept with alpha 1. The function is defined in config-page.js but nothing there calls it |
| ConfigPage.FirstMatchNone | obs-timer-server/public/js/config-page.js:70-71 | `match` finds nothing exactly when the pattern matches at no position |
| ConfigPage.NamedColourIsBlack | obs-timer-server/public/js/config-page.js:70-71 | a colour name such as "red" becomes black with alpha 1 |
| ConfigPage.RgbaTextMatches | obs-timer-server/public/js/config-page.js:66-79 | `"rgba(r,g,b,a)"` reads back as `rgbToHex(r, g, b)` and its alpha, for any alpha of digits and dots, ".5" included |
| ConfigPage.MatchedColour | obs-timer-server/public/js/config-page.js:70-78 | a matched non-"#" string converts from its groups |
| ConfigPage.LastGroupsOf | obs-timer-server/public/js/config-page.js:70 | the third component and the alpha group read back |
| ConfigPage.RgbaTextToHexAndBack | obs-timer-server/public/js/config-page.js:50-84 | an `rgba(...)` colour with byte components goes to hex and back to the same components. Both conversions are defined in config-page.js but nothing there calls them |
| ConfigPage.FormNumberReads | obs-timer-server/public/js/config-page.js:193-194 | `parseInt(text, 10) \|\| 0` reads a decimal integer after white space and before a non-digit such as "px" |
| ConfigPage.FormNumberNaN | obs-timer-server/public/js/config-page.js:193-194 | a field with no digit at its start, alone or after a sign, gives 0 |
| ConfigPage.PlatformsValue | obs-timer-server/public/js/config-page.js:207 | the list copied as an array of the same length, each item the name at its position as a string |
| ConfigPage.FormIndex | obs-timer-server/public/js/config-page.js:208-214 | within the list when it is non-empty; kept in range; clamped from either side; 0 for an empty list |
| ConfigPage.PickedAt | obs-timer-server/public/js/config-page.js:193-204 | a colour picker's value is written under its key; other keys keep the font sizes |
| ConfigPage.ReadForm | obs-timer-server/public/js/config-page.js:190-216 | the form's loop builds `FormConfig` |
| ConfigPage.FormMerged | obs-timer-server/public/js/config-page.js:207-214 | the posted list and index arrive in the merged configuration |
| ConfigPage.FormSurvivesPost | obs-timer-server/public/js/config-page.js:272-279 | after the current relay's POST checks, a saved form's non-empty list and its clamped index are kept; an empty list comes back as `["Default"]` with index 0. The editor's `Load` keeps a stored `[]`, because an empty array is truthy and the fallback to `["Default"]` does not apply, so the sent empty list only becomes the default on the server |
| ConfigPage.FormSurvivesLegacyPost | obs-timer-server/public/js/config-page.js:272-279 | the same for the earlier relay |
| ConfigPage.Splice1 | obs-timer-server/public/js/config-page.js:144 | `splice(i, 1)`: the element at i is removed, nothing past the end; the new length |
| ConfigPage.DeleteKeepsSelectedName | obs-timer-server/public/js/config-page.js:139-152 | deleting another platform keeps the same name selected |
| ConfigPage.DeleteKeepsSelectionInRange | obs-timer-server/public/js/config-page.js:139-152 | after deleting one of at least two platforms the selection is within the list |
| ConfigPage.SpliceKeepsDistinct | obs-timer-server/public/js/config-page.js:144 | deleting keeps the names distinct |
| ConfigPage.PlatformEditor.constructor | obs-timer-server/public/js/config-page.js:28-29 | an empty list, index 0, an empty draft |
| ConfigPage.PlatformEditor.Load | obs-timer-server/public/js/config-page.js:224-225 | the loaded list or `["Default"]`; the loaded index or 0 |
| ConfigPage.PlatformEditor.Select | obs-timer-server/public/js/config-page.js:117-120 | the index becomes the one clicked |
| ConfigPage.PlatformEditor.Add | obs-timer-server/public/js/config-page.js:122-137 | the trimmed draft is appended when non-empty and new, the first one selected; an error otherwise; names stay distinct |
| ConfigPage.PlatformEditor.Delete | obs-timer-server/public/js/config-page.js:139-152 | refused with at most one platform; otherwise spliced, and the selection adjusted; never empties the list; names stay distinct |
| Display.FormatTime | obs-timer-server/public/js/obs-display.js:121-136 | zeros for NaN; otherwise reads back as the time floored at 0, with hours when asked for or from an hour on, minutes and seconds two digits each |
| Display.Percentage | obs-timer-server/public/js/obs-display.js:109-117 | within 0 and 100; 0 unless both are numbers and the duration is positive; the exact ratio in between; 100 at or after the end |
| Display.RatioAgainstOne | obs-timer-server/public/js/obs-display.js:111 | the ratio is at most (at least) 100 % when the position is at most (at least) the duration |
| Display.Rounded | obs-timer-server/public/js/obs-display.js:118 | `Math.round`: the nearest whole number, halves up, within 0 and 100 |
| Display.Restyled | obs-timer-server/public/js/obs-display.js:53-74 | exactly the styles whose property is truthy are set, font sizes in points; the others keep their value |
| Display.PillsFor | obs-timer-server/public/js/obs-display.js:76-92 | one pill per platform of a non-empty array, none otherwise |
| Display.PillsActive | obs-timer-server/public/js/obs-display.js:76-92 | each pill carries its platform's name; a pill is active exactly when its position is `currentPlatformIndex`; at most one is |
| Display.Overlay.constructor | obs-timer-server/public/js/obs-display.js:1-2 | no socket, an empty configuration, overlay hidden, nothing styled |
| Display.Overlay.Connect | obs-timer-server/public/js/obs-display.js:13-19 | a new connecting socket |
| Display.Overlay.Opened | obs-timer-server/public/js/obs-display.js:21-25 | open, overlay shown |
| Display.Overlay.SocketClosed | obs-timer-server/public/js/obs-display.js:40-45 | closed, overlay hidden, one more reconnect scheduled, every time |
| Display.Overlay.ReconnectFires | obs-timer-server/public/js/obs-display.js:44 | a scheduled reconnect opens a new socket |
| Display.Overlay.ApplyConfig | obs-timer-server/public/js/obs-display.js:53-92 | the styles are `Restyled`, the pills `PillsFor`; it throws exactly when `platforms` is a non-empty string |
| Display.Overlay.UpdateDisplay | obs-timer-server/public/js/obs-display.js:95-119 | the overlay shows the data: titles or "", both times formatted, the percentage and its rounded label |
| Display.Overlay.OnMessage | obs-timer-server/public/js/obs-display.js:27-38 | a frame that is neither update type changes nothing; a config replaces the current one and is applied (styles, pills) before the data is shown in full; a throw skips the data; without config the styles and pills stay; without data every rendered field stays |
| TitleTracker.TrimmedOr | watch-party-extension/content-script.js:24-26 | a trimmed property, "" when it is not a string |
| TitleTracker.ElementText | watch-party-extension/content-script.js:22-29 | null for no element; else the first non-empty of innerText, textContent, title, trimmed; never "" |
| TitleTracker.Classify | watch-party-extension/content-script.js:39-67 | a movie wins; distinct series and episode stay apart; else the one title is the episode; a series only for series_episode; no episode only for none |
| TitleTracker.VideoInfo | watch-party-extension/content-script.js:31-84 | null exactly without a video or with a NaN time; else the classified titles and the raw times |
| TitleTracker.Tracker.constructor | watch-party-extension/content-script.js:7-8 | inactive, no interval |
| TitleTracker.Tracker.StartTracking | watch-party-extension/content-script.js:122-132 | the old interval cleared, exactly one new interval, tracking on |
| TitleTracker.Tracker.StopTracking | watch-party-extension/content-script.js:134-143 | no interval, tracking off |
| TitleTracker.Tracker.SendVideoDataUpdate | watch-party-extension/content-script.js:86-120 | nothing while inactive; else the snapshot or null is sent, and tracking stops when the background is gone |
| TitleTracker.Tracker.HandleVideoEnd | watch-party-extension/content-script.js:145-154 | tracking stops and null is sent |
| TitleTracker.Tracker.OnControl | watch-party-extension/content-script.js:157-168 | "start" starts tracking: one new interval, the next timer handle, and the `ended` listener added with a video; "stop" clears the interval and removes the listener with a video; both are acknowledged; another command changes nothing and gets no answer |
| Producer.DisplayClock | my-timer-extension/content.js:61-72 | `--:--` for 0 and non-numbers; a positive time reads back as itself, with hours from an hour on, every field two digits or hours without a leading zero |
| Producer.PositiveClock | my-timer-extension/content.js:61-72 | the JavaScript arithmetic equals the clock string for positive times |
| Producer.NegativeClock | my-timer-extension/content.js:61-72 | a negative time is not shown as `--:--` |
| Producer.DisplayClockNegative | my-timer-extension/content.js:61-72 | one second before zero shows as `-1:-1` |
| Producer.ChooseTitles | my-timer-extension/content.js:104-128 | the main line is non-empty exactly for distinct present titles; the sub line prefers series, episode, movie; both empty exactly without titles |
| Producer.ProgressOf | my-timer-extension/content.js:91-144 | null exactly without a video or with a NaN time; else the chosen titles and both times formatted |
| Producer.LastOf | my-timer-extension/content.js:146-161 | the last frame sent, none before the first |
| Producer.Supervisor.constructor | my-timer-extension/content.js:6-17 | no socket, counter 0, nothing scheduled or sent |
| Producer.Supervisor.Connect | my-timer-extension/content.js:19-26 | `ConnectStep`: no-op while OPEN or CONNECTING; else a new socket, the counter reset, a closing socket abandoned |
| Producer.Supervisor.StopSendingData | my-timer-extension/content.js:175-181 | the interval cleared |
| Producer.Supervisor.StartSendingData | my-timer-extension/content.js:163-173 | the old interval cleared, exactly one new one |
| Producer.Supervisor.SendVideoData | my-timer-extension/content.js:146-161 | a frame is sent exactly under `Sends`; the last-sent frame follows; no frame repeats the previous one |
| Producer.Supervisor.VideoEnded | my-timer-extension/content.js:183-187 | the interval stops |
| Producer.Supervisor.InitializeVideoTracking | my-timer-extension/content.js:203-213 | `TrackingStep`: nothing at all while closing; with a video it is remembered, one new interval runs and the `ended` listener is attached; without one a look-up is queued and nothing else changes |
| Producer.Supervisor.CheckFires | my-timer-extension/content.js:203-213 | a queued look-up is consumed and then `TrackingStep` holds from the remaining count: nothing else while closing; a found video starts one interval with the listener; none queues the next look-up |
| Producer.Supervisor.Opened | my-timer-extension/content.js:28-33 | the socket is OPEN, counter 0, "connected" reported, then `TrackingStep`: nothing more while `isClosing` is still set (a retry may reconnect during a cleanup), else tracking starts or a look-up is queued |
| Producer.Supervisor.StartsClosing | my-timer-extension/content.js:39 | the held socket is closing |
| Producer.Supervisor.Error | my-timer-extension/content.js:53-57 | "error" reported, nothing else |
| Producer.Supervisor.HandleClose | my-timer-extension/content.js:39-51 | "disconnected" reported, the socket dropped, sending stopped; a retry scheduled and counted only below five |
| Producer.Supervisor.SocketClosed | my-timer-extension/content.js:39-51 | the held socket's close runs that handler |
| Producer.Supervisor.AbandonedClosed | my-timer-extension/content.js:39-51 | an abandoned socket's close, left attached by lines 194-199, runs it too; the held socket it drops keeps its handlers and joins the abandoned ones, a connecting one among those that may still open |
| Producer.Supervisor.AbandonedOpened | my-timer-extension/content.js:28-33 | an abandoned connecting socket's open resets the counter, reports "connected" and then runs `TrackingStep`, doing nothing more while closing |
| Producer.Supervisor.AbandonedError | my-timer-extension/content.js:53-57 | an abandoned socket's error reports "error" and nothing else |
| Producer.Supervisor.RetryFires | my-timer-extension/content.js:47 | a scheduled retry is consumed and runs `connectWebSocket`, as `ConnectStep` states it in every case |
| Producer.Supervisor.CleanupAndClose | my-timer-extension/content.js:189-201 | a second call does nothing; the first stops sending, drops the socket, detaches an OPEN or CONNECTING one and reports "disconnected" |
| Producer.Supervisor.Navigated | my-timer-extension/content.js:219-226 | a reconnect is always scheduled a second later; a first cleanup drops the socket, stops the interval and reports "disconnected", while one during a cleanup leaves socket, interval, abandoned count and reports as they were; the URL-change path at lines 239-247 does the same |
| Producer.Supervisor.RestartFires | my-timer-extension/content.js:222-225 | closing cleared and `connectWebSocket` run, as `ConnectStep` states it in every case |
| Producer.OpenedThenClosing | my-timer-extension/content.js:19-39 | a connected socket that the server starts closing, nothing abandoned yet |
| Producer.AbandonWhileClosing | my-timer-extension/content.js:189-201 | a navigation while the socket is closing abandons it, still hooked to `onclose` |
| Producer.LateCloseRaisesAttempt | my-timer-extension/content.js:19-51 | a failed new socket and the abandoned socket's late close take the counter to 2 with two retries pending |
| Background.FormatTime | watch-party-extension/background-script.js:29-39 | `--:--` for NaN and negatives; a finite time reads back as itself, with hours from an hour on, minutes and seconds two digits each; infinity prints `Infinity:NaN:NaN`. The function is defined in this file but nothing in it calls it |
| Background.FloorClockIsShort | watch-party-extension/background-script.js:31-38 | the floored arithmetic equals the clock string |
| Background.IconFor | watch-party-extension/background-script.js:42-50 | green exactly when connected; red exactly when tracking and not connected; grey exactly when neither |
| Background.Background.constructor | watch-party-extension/background-script.js:1-6 | everything cleared, grey icon, as after the start-up call at line 210 |
| Background.Background.UpdateActionIcon | watch-party-extension/background-script.js:42-50 | the icon is `IconFor` of the state |
| Background.Background.SendStateToPopup | watch-party-extension/background-script.js:53-62 | the state is reported to the popup |
| Background.Background.Connect | watch-party-extension/background-script.js:65-71 | no-op while OPEN or CONNECTING; else a new connecting socket with `onclose`; tidiness kept exactly when the replaced socket was not closing |
| Background.Background.SocketOpened | watch-party-extension/background-script.js:74-82 | connected, icon and popup updated, the known tab told to start while tracking |
| Background.Background.SocketError | watch-party-extension/background-script.js:94-100 | the flag drops, the socket is kept |
| Background.Background.RemoteClosing | watch-party-extension/background-script.js:66 | the relay starts closing an open socket (the state the no-op test lets through) |
| Background.Background.SocketClosed | watch-party-extension/background-script.js:86-92 | with its handler attached: flag false, `webSocket` null, no reconnect; otherwise nothing |
| Background.Background.Disconnect | watch-party-extension/background-script.js:103-113 | `onclose` detached, socket closed, flag false and `webSocket` null in every case |
| Background.Background.PopupStart | watch-party-extension/background-script.js:117-142 | with a tab: remembered, icon shown, answer "active"; injected, the tab told to start and the socket connected; failed, tracking off with the icon stale; without a tab, tracking off |
| Background.Background.PopupStop | watch-party-extension/background-script.js:143-151 | tracking off, the tab told to stop, disconnected, the last snapshot cleared, the answer says so |
| Background.Background.InitialData | watch-party-extension/background-script.js:155-165 | a queried tab is remembered only while tracking with no tab known; the answer is the state |
| Background.Background.VideoInfoUpdate | watch-party-extension/background-script.js:167-178 | the snapshot is always stored; forwarded exactly under `Forwards`; icon and popup updated; acknowledged |
| Background.Background.ContentScriptReady | watch-party-extension/background-script.js:180-187 | the tab remembered; while tracking it is told to start and an unconnected socket is connected |
| Background.Background.InitializeExtensionState | watch-party-extension/background-script.js:191-198 | tracking, flag, snapshot and tab cleared, grey icon; the socket left as it is |
| Background.TrackingConnected | watch-party-extension/background-script.js:117-142 | a start in a tab and an open yield a tidy connected state |
| Background.ClosingSocketReplaced | watch-party-extension/background-script.js:65-71 | starting again while the socket closes replaces it and breaks tidiness |
| Background.LateCloseOrphansSocket | watch-party-extension/background-script.js:86-92 | the late close orphans the new socket: green icon, flag set, no socket held, nothing forwarded |

## Left out

- HTTP routing, static and SEA asset serving, and the 404 and asset 500 answers
  are not modelled. The model starts at the configuration API and the WebSocket
  handlers.
- Console and terminal output is not modelled beyond the values it is computed
  from. This covers the progress bar text, escape codes and the Korean status
  texts.
- JSON numbers are integers. Fractional seconds, the `"Infinity"` literal and the
  floor-versus-truncation difference of negative fractions are not modelled.
  `parseFloat` keeps the integer part, which is 0 for ".5" and for "-.5".
- `Producer.DisplayClock`, `Background.FormatTime`, `TitleTracker.VideoInfo`: a
  time is a `Num`, meaning an integer, NaN or an infinity. Fractional seconds are
  not modelled, so `Math.floor` of a fraction does not appear.
- `Display.Percentage`: the ratio is exact real arithmetic, not floating point.
- `CurrentServer.BarFor`, `CurrentServer.RoundDiv`: the percent and the filled
  cells round the exact ratio, not the floating-point product
  `progressRatio * 100` or `barWidth * progressRatio`. The two can differ by
  one: 23 s of 40 s is 57.49999999999999 in floating point, so the server
  prints 57 %, where the model gives 58 %. 57 s of 200 s likewise prints 28 %,
  where the model gives 29 %.
- `ConfigPage.RgbaToHexAlpha`: the alpha is kept as the matched text, and its
  `parseFloat` value is not computed. The matched path is stated by
  `ConfigPage.MatchedColour` and `ConfigPage.RgbaTextMatches`.
- `ConfigPage.HexToRgb`: the hexadecimal digits are read exactly. `parseInt(..., 16)` rounds to a double beyond 2^53, so for 14 or more digits the bytes can differ: `#ffffffffffffffff` is black in JavaScript and white here.
- `hexAlphaToRgba`'s `toFixed(2)` is not modelled, because it is floating-point
  formatting. The colour part of that round trip is covered by
  `ConfigPage.RgbaTextToHexAndBack`.
- An `undefined` property is modelled as an absent one.
- `JSON.stringify` equality, as in `lastSentData`, is modelled as equality of
  the values.
- Asynchronous steps take their outcome as parameters and happen at once. These
  are file writes, `fetch`, `chrome.tabs.query` and `executeScript`.
  Interleavings inside one handler are not modelled.
- Timers are counters of pending callbacks. The DOM, the Chrome runtime and the
  Coloris picker are parameters or logs.
- The MutationObserver paths of `my-timer-extension/content.js:228-238`, where
  the video appears or disappears, are not modelled. The URL-change path
  shares its handler with `Producer.Supervisor.Navigated`.
- `Display.Overlay.ApplyConfig`: a `platforms` object with a `length` property
  of its own is not modelled. Only arrays and strings reach the loop.
- `ConfigPage.PlatformEditor.Load`: non-string platform entries are not
  modelled.
- `Base.IsJsSpace`: white space is the ASCII set, the no-break space, the byte
  order mark and the two Unicode line terminators. The other Unicode space
  separators are not modelled. This affects every `trim()`: in
  `TitleTracker.ElementText` and in `ConfigPage.PlatformEditor.Add`. It also affects the `\s*` of the colour pattern in
  `ConfigPage.RgbaToHexAlpha`.
- `Json.ParseFloat`: exponents are not read, so `parseFloat("1e3")` is 1 here
  and 1000 in JavaScript. An array is NaN, while JavaScript reads its string
  form, so that `parseFloat([5])` is 5. A number written from its '.', such as
  ".5", is read with its integer part, 0. `ConfigPage.FormNumber` is `Json.ParseInt`,
  which reads no exponent either, so it is exact for integers.
- `Json.ToNumber`: only signed decimal integers are read. Hexadecimal, octal
  and binary literals and exponents are NaN here, so `Number("0x10")` and
  `Number("1e2")` are not 16 and 100. A nested one-element array such as
  `[[5]]` is NaN here, where JavaScript gives 5.
- `Json.Key`: a property whose name spells a known property is written with
  that property's constructor, never as `Other`. Objects are not checked for
  this, so a model object could hold the same name twice under two keys.
- `TitleTracker.ElementText`: a non-string `textContent` is not modelled.
- `Background.Background.SocketOpened`: orphaned sockets are modelled, but
  socket events after `close()` are limited to the error and close events.
- `Producer.Supervisor.AbandonedClosed`: which abandoned socket closes is not
  tracked by identity. Only the counts of abandoned sockets and of those still
  connecting are kept.
- The popup page (`popup.js`), `background.js`, `simple-background.js`, the
  icon generators and the build script are not part of this model.
