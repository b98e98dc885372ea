# foxbox core, modelled in Dafny

foxbox is a home-automation gateway. This project models and proves the
following parts of its core:

- **The flattening XML reader** (`src/util.rs`). It turns a UPnP device
  description into a map from element paths (`/root/device/modelName`) to
  the text found at them.
- **The UPnP manager** (`src/upnp.rs`). It handles the callback the native
  UPnP library calls for each discovery. It builds the `UpnpMsearchHeader`
  from the C record, fetches and flattens the description of a live
  device, and posts an `UpnpServiceDiscovered` event. It also starts the
  library and runs searches.
- **The controller's events** (`src/events.rs`, `src/controller.rs`). The
  controller handles each event posted to its loop. A discovered UPnP
  service is offered to the adapters until one claims it.
- **The dummy adapter** (`src/dummy_adapter.rs`). It announces itself and
  creates seven services, every third of which never stops. It claims the
  Philips Hue bridge simulator and then asks once for a second search.
- **The Philips Hue adapter** (`src/adapters/new_hue/`):
  - the bridge API, as requests and the conclusions drawn from the answers;
  - discovery of bridges through the vendor's nUPnP directory;
  - each hub's management loop: availability, pairing for at most 120
    attempts, then the lights in ascending id order;
  - the lights;
  - the adapter's ids and its answers to fetch, send and watch requests.
- **The WebPush subscription store** (`src/adapters/webpush/db.rs`). It is a
  table whose `push_uri` column is unique. The values stored in it have
  their quotes doubled.

How the model is built:

- **Pure code** becomes datatypes, functions and lemmas.
- **Code that updates state** becomes classes with `modifies` clauses:
  - the UPnP manager, the controller, the dummy adapter;
  - the Hue discovery and hubs;
  - the subscription table.
- **Loops of the source** become methods with loop invariants:
  - the XML event loop, `ParseSimpleXml`;
  - the pairing retries;
  - the walk over the light map (`LeastKey`, `GetLights`);
  - the dummy threads;
  - the row loop of `get_subscriptions`.
  Each of these methods is proved against a specification function, and
  the lemmas about that function state what the source promises.

The model treats the outside world as follows:

- **Parameters.**
  - Answers to HTTP requests: `Ok(body)` or `Err(reason)`.
  - Return codes of the native library.
  - Readings of the JSON decoder and of the XML tokenizer.
  - Random UUIDs and clock readings.
  - The iteration order of a `HashMap`.
- **Traces.** Sleeps, requests and notifications are recorded as a trace of
  steps, in order.
- **Aborts.** Code that can abort its thread (`panic!`, `unwrap`,
  `unimplemented!`) returns an `Outcome`, which is `Done(value)` or
  `Panic(message)`.

## Model

| member | source | states |
|---|---|---|
| Common.Contains | src/dummy_adapter.rs:139 | `str::contains`: true exactly when the pattern occurs at some position |
| Common.RFind | src/util.rs:24 | `str::rfind` for a character: `None` exactly when the character is absent; otherwise its last position |
| Common.ToLowerAscii | src/dummy_adapter.rs:148 | `to_lowercase` on ASCII: same length, each character lower-cased |
| Common.LexLessTransitive | src/adapters/new_hue/hub_api.rs:99-104 | the `BTreeMap` key order is transitive |
| Common.LexLessTotal | src/adapters/new_hue/hub_api.rs:99-104 | any two distinct keys are ordered one way or the other |
| Util.AppendAt | src/util.rs:31 | `entry(key).or_insert_with(String::new).push_str(x)`: the key is added, its text is extended by `x`, and every other key is unchanged |
| Util.Step | src/util.rs:11-36 | one turn of the loop fails exactly on a reader error or on an end tag when the key has no `/`; it only adds to the ignore set; the only key it can add a value under is the current one; a start tag extends the key by `/name`; an end tag cuts the key to a proper prefix of itself; every other event leaves the key and the ignore set alone |
| Util.Flatten | src/util.rs:5-39 | the result is an error exactly when the loop returned one; no ignored path holds a value; an empty document gives the empty map |
| Util.ParseSimpleXml | src/util.rs:5-39 | the in-place event loop returns exactly `Flatten(events)`, the fold of one loop turn over the events |
| Util.ErrorIsFinal | src/util.rs:26 | once the loop has returned an error, later events change nothing |
| Util.KeyIsOpenPath | src/util.rs:12-28 | the key is always `/`-joined names of the elements that are open |
| Util.StartThenEndRestoresKey | src/util.rs:13-14 | pushing `/name` and then truncating at the last `/` restores the key, whatever name the end tag carries |
| Util.LastEndFailsIff | src/util.rs:22-27 | an end tag fails exactly when no element is open |
| Util.LastStepFailsIff | src/util.rs:22-34 | the last event fails exactly when it is a reader error or an end tag with nothing open |
| Util.RunFailsIff | src/util.rs:10-37 | the parse fails exactly when some event is a reader error or an end tag with nothing open |
| Util.IgnoredHoldNoValue | src/util.rs:15-20 | no path is both ignored and holding a value |
| Util.IgnoreOnlyGrows | src/util.rs:15-20 | once a path is ignored, it stays ignored |
| Util.NoTextMeansEmpty | src/util.rs:29-33 | a path where no text arrived has the empty text |
| Util.ValueIsTextAt | src/util.rs:29-33 | a path that is not ignored has a value exactly when text arrived at it, and that value is all of that text, concatenated in order |
| Util.IgnoredIffReentered | src/util.rs:15-20 | a path is ignored exactly when it was entered again after text had been recorded at it |
| Util.FlattenMeaning | src/util.rs:5-39 | the result maps each path that received text and was never re-entered after receiving it to all of its text; no other path is in the result |
| Util.LeafElement | src/util.rs:12-33 | `<name>text</name>` records the text when its path is new, drops the path for good when it is seen again, and restores the key |
| Util.RepeatedSiblingExample | src/util.rs:15-20 | `<a><b>x</b><b>y</b><c>z</c></a>` flattens to `{"/a/c": "z"}` only |
| Upnp.CString | src/upnp.rs:110-117 | `CStr::from_ptr` on a NUL-terminated buffer gives its bytes up to the first NUL |
| Upnp.CStringUnique | src/upnp.rs:110-117 | a buffer holds exactly one C string |
| Upnp.HeaderOf | src/upnp.rs:108-120 | each text field of the header is the C string of the matching buffer; `expires` and `alive` are copied |
| Upnp.Classify | src/upnp.rs:174-187 | search results and alive advertisements are live, byebye is a departure, and every other kind is dropped |
| Upnp.FromReturnCode | src/upnp.rs:196-199 | `Ok` exactly when the code is 0; otherwise `Err` carrying that code |
| Upnp.SearchTarget | src/upnp.rs:203-206 | the given target or `ssdp:all`; an interior NUL aborts |
| UpnpManager.DescriptionEvent | src/upnp.rs:135-165 | an event is sent exactly when the body was read and flattened; it carries the header, the flattened map and the body |
| UpnpManager.MsearchCallback | src/upnp.rs:108-166 | a departure is sent at once with an empty description; a live device is fetched from its location and announced only when the fetch and the parse succeed, with the flattened description as its map and the fetched body as its raw text; at most one event is sent |
| UpnpManager.Callback | src/upnp.rs:168-191 | aborts exactly on a null cookie, or on a null record for a kind that carries one; dropped kinds have no effect; the other kinds run `msearch_callback` |
| UpnpManager.CallbackSends | src/upnp.rs:168-191 | a byebye sends exactly one event and fetches nothing; a live device whose fetch fails sends nothing |
| UpnpManager.Manager.constructor | src/upnp.rs:100-106 | handle 0, null cookie, no library calls |
| UpnpManager.Manager.Initialize | src/upnp.rs:193-200 | one `UpnpInit` call; the result is that call's return code read as a result |
| UpnpManager.Manager.Search | src/upnp.rs:202-216 | a bad target aborts before any library call; otherwise one `UpnpSearchAsync(handle, 1, target)` and its code as a result |
| UpnpManager.Manager.Start | src/upnp.rs:218-233 | init failure aborts; a register failure returns its code; otherwise the assigned handle is kept and every device is searched for |
| Events.EscapeChar | src/events.rs:24 | the `Debug` escape of one character: two characters exactly for the escaped ones, otherwise the character itself |
| Events.Escape | src/events.rs:24 | the `Debug` body of a string is never shorter than the string |
| Events.UnescapeEscape | src/events.rs:24 | the `Debug` rendering reads back as the original string |
| Events.DebugOptionRoundTrip | src/events.rs:24 | `{:?}` of an `Option<String>` reads back as that option |
| Events.Description | src/events.rs:19-30 | the name for `AdapterStart`, the id for `ServiceStart`/`ServiceStop`, the debug target for a search, the device id for a discovery |
| Events.SearchDescriptionNamesTarget | src/events.rs:24 | two searches with the same description have the same target |
| Events.DescriptionExamples | src/events.rs:38-53 | the source's three description cases, and a search with no target |
| Events.EscapePlain | src/events.rs:24 | text with nothing to escape is rendered as itself |
| ServiceRegistry.Context.constructor | src/controller.rs:30 | an empty registry with the given URL roots |
| ServiceRegistry.Context.AddService | src/dummy_adapter.rs:120 | the service is registered under its id |
| ServiceRegistry.Context.RemoveService | src/controller.rs:79 | the id is removed; nothing else changes |
| ServiceRegistry.Context.GetService | src/controller.rs:71 | `Some` exactly when the id is registered, with that service |
| Controller.OfferedCount | src/controller.rs:83-88 | the adapters offered a discovery are every adapter up to and including the first that claims it or aborts |
| Controller.StopsAtFirstClaim | src/controller.rs:83-88 | when adapter `k` is the first to claim, exactly `k + 1` adapters are offered the discovery |
| Controller.UnclaimedOfferedToAll | src/controller.rs:83-88 | a discovery nobody claims is offered to every adapter |
| Controller.Controller.constructor | src/controller.rs:30-38 | no adapters and a fresh UPnP manager |
| Controller.Controller.Start | src/controller.rs:40-54 | the dummy adapter is registered under its name; the call succeeds exactly when all three library codes are 0 |
| Controller.Controller.Notify | src/controller.rs:61-95 | `ServiceStart` aborts exactly when the service is missing; `ServiceStop` removes it; a discovery is offered in map order until one adapter claims or aborts; a search aborts on a bad target, otherwise it issues one search call; no other event calls the UPnP library, and only a discovery claimed by the first adapter walked changes an adapter (its rediscovery is disarmed) |
| Controller.Controller.Offer | src/controller.rs:82-89 | the adapters offered are the map-order prefix up to the first claim or abort; it aborts exactly when the first adapter aborts; only the first adapter, when it claims, has its rediscovery disarmed |
| DummyAdapter.NewService | src/dummy_adapter.rs:24-40 | the service has the fresh UUID and the registry's URLs for it; it is never stopped exactly when `id % 3 == 0` |
| DummyAdapter.Repeat | src/dummy_adapter.rs:57-64 | `n` copies of one action |
| DummyAdapter.ServiceThread | src/dummy_adapter.rs:50-67 | the thread's loop produces exactly `ServiceTrace`: a tick per second, and a stop report after three ticks when the service may be stopped |
| DummyAdapter.ServiceStopsOnce | src/dummy_adapter.rs:54-66 | a `ServiceStop` is sent, once and as the last action, exactly when the service may be stopped and three ticks have passed; a service that is never stopped only ticks |
| DummyAdapter.AdapterThread | src/dummy_adapter.rs:107-129 | the thread's loop yields the announced trace and registers the seven services |
| DummyAdapter.AdapterTraceShape | src/dummy_adapter.rs:111-127 | the announcement comes first, then four steps for each service |
| DummyAdapter.AddedBeforeAnnounced | src/dummy_adapter.rs:119-121 | every `ServiceStart` comes right after its service is added to the registry, and the `k`-th names the `k`-th UUID |
| DummyAdapter.RegisteredKeys | src/dummy_adapter.rs:113-127 | the registry gains exactly the UUIDs of the services created |
| DummyAdapter.Owns | src/dummy_adapter.rs:139-141 | claimed exactly when the device id, model name and model number all match the simulator; aborts exactly when a lookup the short-circuit reaches is missing |
| DummyAdapter.ForeignDeviceNotClaimed | src/dummy_adapter.rs:139 | a device id without the simulator's fragment is never claimed, and never aborts |
| DummyAdapter.RediscoveryTarget | src/dummy_adapter.rs:147-150 | the device type lower-cased, present exactly when the description has one |
| DummyAdapter.Adapter.constructor | src/dummy_adapter.rs:91-99 | name `DummyAdapter`, rediscovery armed |
| DummyAdapter.Adapter.UpnpDiscover | src/dummy_adapter.rs:135-159 | the answer is `Owns`; one rediscovery thread (sleep, then search) is spawned exactly on the first claim, and the flag is then cleared for good |
| ConfigStore.StoreDefaultKeeps | src/adapters/new_hue/hub.rs:30-33 | storing a default never changes a value already stored |
| ConfigStore.Config.constructor | src/adapters/new_hue/hub.rs:30 | an empty store |
| ConfigStore.Config.GetOrSetDefault | src/adapters/new_hue/hub.rs:30-33 | the stored value or the default, which is then stored |
| HueHubApi.ApiUrlUnderPairingEndpoint | src/adapters/new_hue/hub_api.rs:30-61 | authorised URLs are the pairing endpoint, then the token, then the command, and the command can be read back from the end |
| HueHubApi.ApiUrl | src/adapters/new_hue/hub_api.rs:31 | the authorised URL is the bridge's unauthorised URL of `api/{token}/{cmd}` |
| HueHubApi.UnauthUrl | src/adapters/new_hue/hub_api.rs:48 | `http://`, then the bridge's address, then `/`, then the command; the address and the command can be read back |
| HueHubApi.GetRequest | src/adapters/new_hue/hub_api.rs:30-36 | `get` sends a GET to the command under `api/{token}/` |
| HueHubApi.PostRequest | src/adapters/new_hue/hub_api.rs:39-45 | `post` sends the data in a POST to the command under `api/{token}/` |
| HueHubApi.PostUnauthRequest | src/adapters/new_hue/hub_api.rs:47-53 | `post_unauth` sends the data in a POST to the command at the bridge's root |
| HueHubApi.PutRequest | src/adapters/new_hue/hub_api.rs:55-61 | `put` sends the data in a PUT to the command under `api/{token}/` |
| HueHubApi.UnauthPostIsNotAuthPost | src/adapters/new_hue/hub_api.rs:39-53 | posting a command with and without authorisation gives two different requests |
| HueHubApi.AvailabilityRequest | src/adapters/new_hue/hub_api.rs:64-65 | the availability check is a GET of the bridge's root page, the unauthorised URL of the empty command |
| HueHubApi.IsAvailable | src/adapters/new_hue/hub_api.rs:63-74 | available exactly when the root page was fetched and names the product |
| HueHubApi.Settings | src/adapters/new_hue/hub_api.rs:76-79 | the body, or empty text when the request failed |
| HueHubApi.IsPaired | src/adapters/new_hue/hub_api.rs:81-84 | not paired exactly when the settings body says "unauthorized user" |
| HueHubApi.TransportErrorReadsAsPaired | src/adapters/new_hue/hub_api.rs:78-83 | a failed settings request reads as paired |
| HueHubApi.UnauthorizedAnswer | src/adapters/new_hue/hub_api.rs:77 | the documented unauthorised answer reads as not paired |
| HueHubApi.PairingRequest | src/adapters/new_hue/hub_api.rs:86-91 | an unauthorised POST to `/api` with the token as user name and the foxbox device type |
| HueHubApi.TryPairing | src/adapters/new_hue/hub_api.rs:86-93 | paired exactly when the answer was received and contains "success" |
| HueHubApi.PairingSuccessAnswer | src/adapters/new_hue/hub_api.rs:87 | the documented success answer is recognised whatever user name it carries |
| HueHubApi.LeastKey | src/adapters/new_hue/hub_api.rs:102 | the next key of a `BTreeMap` walk is the smallest key left |
| HueHubApi.GetLights | src/adapters/new_hue/hub_api.rs:95-107 | aborts exactly when the request or the decoding fails; otherwise the light ids, each once, in ascending order |
| HueHubApi.LightStatus | src/adapters/new_hue/hub_api.rs:109-113 | aborts exactly when the request or the decoding fails; otherwise the decoded status |
| HueHubApi.SetLightColor | src/adapters/new_hue/hub_api.rs:115-119 | one PUT to `lights/{id}/state` with hue, saturation, brightness and on |
| HueHub.RequestFor | src/adapters/new_hue/hub.rs:53-100 | the request each bridge call recorded in a trace sends: `GET http://{ip}/` for availability, the settings, the light list and a light's status under the authorised URL, and the unauthorised pairing `POST` |
| HueHub.CountNoticesConcat | src/adapters/new_hue/hub.rs:65-83 | notification counts add up over concatenated traces |
| HueHub.AttemptNotices | src/adapters/new_hue/hub.rs:65-67 | each pairing attempt sends exactly one `NeedsPairing` |
| HueHub.FailedAttemptsNotices | src/adapters/new_hue/hub.rs:64-72 | `k` failed attempts send `k` `NeedsPairing` and no other notification |
| HueHub.AttemptsNotices | src/adapters/new_hue/hub.rs:64-72 | one `NeedsPairing` per attempt and nothing else while pairing is tried |
| HueHub.PairingTailNotices | src/adapters/new_hue/hub.rs:74-88 | the result of pairing is announced once: success or timeout |
| HueHub.PairingAttempts | src/adapters/new_hue/hub.rs:64-72 | between 1 and 120 attempts, stopping at the first success; every earlier attempt failed |
| HueHub.PairingSection | src/adapters/new_hue/hub.rs:60-88 | the attempts, then a fresh `is_paired` check that alone decides between success and a timeout followed by an hour's pause; 1 to 120 `NeedsPairing` |
| HueHub.LightsSection | src/adapters/new_hue/hub.rs:93-106 | undecodable settings abort; otherwise the lights are listed and created in ascending id order, and the list holds exactly the decoded keys when all succeed |
| HueHub.PairingPhase | src/adapters/new_hue/hub.rs:60-89 | an already paired bridge sends no notification; otherwise exactly one of success or timeout is announced |
| HueHub.Round | src/adapters/new_hue/hub.rs:52-111 | unavailable exactly when the availability check fails, then a minute's pause; at most 120 `NeedsPairing`; a timed-out pass ends with the timeout and an hour's pause; a settled pass started all listed lights in ascending order |
| HueHub.InsertKeys | src/adapters/new_hue/hub.rs:105 | the light map's keys are the old keys plus the ids added |
| HueHub.InsertValues | src/adapters/new_hue/hub.rs:105 | each id added maps to its light; an old key not re-added keeps its light |
| HueHub.Hub.constructor | src/adapters/new_hue/hub.rs:28-41 | the token is the stored one or the fresh UUID, which is then stored; no lights |
| HueHub.Hub.Run | src/adapters/new_hue/hub.rs:43-113 | passes repeat only while the bridge is unavailable or pairing times out; once settled, the ids listed are exactly the keys of a light listing the bridge gave, in ascending order, one light is added per listed id, in that order, and each is inserted into the light map |
| HueHub.Hub.AddLights | src/adapters/new_hue/hub.rs:101-106 | each light created is inserted under its id, in order |
| HueHub.Hub.Stop | src/adapters/new_hue/hub.rs:115-122 | the light map is drained; the call aborts exactly when there was a light to stop |
| HueLight.Start | src/adapters/new_hue/light.rs:36-71 | aborts exactly when the status cannot be read; otherwise reports whether the light is an "Extended color light" |
| HueLight.Stop | src/adapters/new_hue/light.rs:73-75 | always aborts |
| HueDiscovery.ParseNupnpResponse | src/adapters/new_hue/discovery.rs:74-82 | an undecodable answer is an empty list; otherwise the decoded entries |
| HueDiscovery.NupnpQuery | src/adapters/new_hue/discovery.rs:62-72 | a failed request or an undecodable answer is an empty list |
| HueDiscovery.LastWith | src/adapters/new_hue/discovery.rs:44-46 | the position of the last entry carrying an id, or -1 when no entry carries it |
| HueDiscovery.PlacedKeys | src/adapters/new_hue/discovery.rs:41-47 | the hub map's keys are the old ids plus the entries' ids |
| HueDiscovery.PlacedValues | src/adapters/new_hue/discovery.rs:44-46 | each id maps to the hub of its last entry; an old hub no entry names is kept |
| HueDiscovery.Discovery.constructor | src/adapters/new_hue/discovery.rs:21-26 | no hubs |
| HueDiscovery.Discovery.Start | src/adapters/new_hue/discovery.rs:28-53 | the directory URL is configured or defaulted and stored; one fresh hub per entry; the hub map as in `PlacedKeys`/`PlacedValues`; every started hub's token is stored and no previously stored value changes |
| HueDiscovery.Discovery.Register | src/adapters/new_hue/discovery.rs:41-47 | the hubs are built from the entries in order and placed in the map; every token is stored; no stored value changes |
| HueDiscovery.Discovery.NewHub | src/adapters/new_hue/discovery.rs:42 | a hub for one entry; its token is stored and no stored value changes |
| HueAdapter.CreateServiceId | src/adapters/new_hue/mod.rs:60-62 | `service:` + id + the adapter's domain, and the id can be read back |
| HueAdapter.AdapterIdentity | src/adapters/new_hue/mod.rs:56-58 | the adapter id (also what `Adapter::id` answers, mod.rs:80-82) is "philips_hue@link.mozilla.org", which ends in the adapter's domain |
| HueAdapter.AdapterIdIsNoOtherId | src/adapters/new_hue/mod.rs:56-76 | the adapter id equals no service, getter or setter id the adapter builds |
| HueAdapter.AdapterDescription | src/adapters/new_hue/mod.rs:24-26 | the name "Philips Hue adapter (built-in)", the vendor "team@link.mozilla.org" and the version 0.0.0.0, which `name`, `vendor` and `version` (mod.rs:84-94) answer |
| HueAdapter.ServiceIdInjective | src/adapters/new_hue/mod.rs:60-62 | distinct services get distinct ids |
| HueAdapter.CreateIoMechanismId | src/adapters/new_hue/mod.rs:72-76 | `prefix:operation.service` + domain, read back in parts |
| HueAdapter.CreateSetterId | src/adapters/new_hue/mod.rs:64-66 | `setter:` + operation + `.` + service + domain; the operation and the service read back |
| HueAdapter.CreateGetterId | src/adapters/new_hue/mod.rs:68-70 | `getter:` + operation + `.` + service + domain; the operation and the service read back |
| HueAdapter.GetterIsNotSetter | src/adapters/new_hue/mod.rs:64-70 | no getter id equals a setter id |
| HueAdapter.ChannelIdsAmbiguous | src/adapters/new_hue/mod.rs:75 | the unescaped `.` lets two different operation/service pairs share a channel id |
| HueAdapter.BuiltInGetterIds | src/adapters/new_hue/mod.rs:46-47 | the two getter ids of `init` are those `create_getter_id` gives, and they differ |
| HueAdapter.FetchValues | src/adapters/new_hue/mod.rs:96-105 | every requested getter is answered; only the timestamp getter has a value, and every other getter is `NoSuchGetter` |
| HueAdapter.TimestampIsLastReading | src/adapters/new_hue/mod.rs:96-105 | the timestamp getter's value is the clock's reading when its last request was answered |
| HueAdapter.TimeOfDayHasNoValue | src/adapters/new_hue/mod.rs:96-105 | the time-of-day getter the adapter names answers `NoSuchGetter` |
| HueAdapter.SendValues | src/adapters/new_hue/mod.rs:107-113 | every setter answers `NoSuchSetter` |
| HueAdapter.RegisterWatch | src/adapters/new_hue/mod.rs:115-122 | every requested getter answers `GetterDoesNotSupportWatching` |
| WebPushStore.Escape | src/adapters/webpush/db.rs:25-28 | one extra character for each quote |
| WebPushStore.UnescapeEscape | src/adapters/webpush/db.rs:25-28 | escaped text reads back as the original |
| WebPushStore.EscapeInjective | src/adapters/webpush/db.rs:25-28 | distinct texts are stored distinctly |
| WebPushStore.EscapePlain | src/adapters/webpush/db.rs:25-28 | text without quotes is stored as it is |
| WebPushStore.EscapeOption | src/adapters/webpush/db.rs:30-35 | `None` stays `None`; `Some` is escaped |
| WebPushStore.Inserted | src/adapters/webpush/db.rs:45-62 | `INSERT` fails exactly when the escaped `push_uri` is stored; otherwise it appends one row and keeps the unique constraint |
| WebPushStore.Without | src/adapters/webpush/db.rs:65-69 | `DELETE` keeps exactly the rows with a different `push_uri` |
| WebPushStore.Selected | src/adapters/webpush/db.rs:72-96 | the query returns exactly the rows of the user, or all rows, read back as stored |
| WebPushStore.SelectAll | src/adapters/webpush/db.rs:80-83 | with no user given, every row is returned |
| WebPushStore.WithoutKeepsUnique | src/adapters/webpush/db.rs:65-69 | deleting keeps the unique constraint |
| WebPushStore.PlainReadsBack | src/adapters/webpush/db.rs:89-93 | a subscription without quotes reads back as given |
| WebPushStore.QuotedReadsBackEscaped | src/adapters/webpush/db.rs:89-93 | a `push_uri` with a quote reads back escaped, not as given |
| WebPushStore.SubscribeThenListed | src/adapters/webpush/db.rs:136-140 | after subscribing, the user's list gains that subscription as stored, at the end |
| WebPushStore.SubscribeTwiceFails | src/adapters/webpush/db.rs:47 | a second subscription with the same `push_uri` fails, whoever makes it |
| WebPushStore.UnsubscribeThenGone | src/adapters/webpush/db.rs:65-69 | after unsubscribing, no listed entry has that `push_uri`, and exactly its rows are gone |
| WebPushStore.UriCount | src/adapters/webpush/db.rs:65-69 | the number of rows deleted; 0 exactly when the `push_uri` is not stored |
| WebPushStore.UniqueUriCount | src/adapters/webpush/db.rs:47 | under the constraint, at most one row is deleted |
| WebPushStore.CallsOf | src/adapters/webpush/db.rs:151-170 | the number of subscribe calls made for a user |
| WebPushStore.StoredRows | src/adapters/webpush/db.rs:151-170 | one stored row per call |
| WebPushStore.StoredRowAt | src/adapters/webpush/db.rs:151-170 | the `i`-th row is the one the `i`-th call asked for |
| WebPushStore.SubscribeDistinct | src/adapters/webpush/db.rs:151-170 | subscribing distinct `push_uri`s to an empty table all succeed, in call order |
| WebPushStore.StoredRowsSelected | src/adapters/webpush/db.rs:172-179 | each user then has as many subscriptions as calls made for them |
| WebPushStore.MultipleUsers | src/adapters/webpush/db.rs:148-183 | the multi-user scenario gives 2, 1, 1 and 4 subscriptions |
| WebPushStore.SubscribeUnsubscribe | src/adapters/webpush/db.rs:125-146 | the single-user scenario: none, then the subscription as given, then none |
| WebPushStore.WebPushDb.constructor | src/adapters/webpush/db.rs:43-55 | a new table is empty |
| WebPushStore.WebPushDb.Subscribe | src/adapters/webpush/db.rs:58-62 | the table becomes `Inserted`, or is unchanged with `UniqueConstraintFailed`; the constraint is kept |
| WebPushStore.WebPushDb.Unsubscribe | src/adapters/webpush/db.rs:65-69 | the rows with the escaped `push_uri` are deleted, whoever owns them; the result counts them |
| WebPushStore.WebPushDb.GetSubscriptions | src/adapters/webpush/db.rs:72-96 | the loop returns exactly `Selected(rows, user)` |

## Left out

- **Bytes read as text.** `to_string_lossy` is not modelled: each byte of a
  C buffer is read as one character. Invalid UTF-8 is not replaced.
- **The native UPnP library.** The library (`UpnpInit`,
  `UpnpRegisterClient`, `UpnpSearchAsync`) is outside the model. Its
  return codes and the handle it assigns are parameters, and the calls
  made to it are recorded. Freeing the cookie is not modelled.
- **Threads and sleeps.** Threads are not run concurrently. Each thread's
  actions, sleeps included, are a trace.
- **Concurrency and locks.** Concurrency between `Hub::stop` and the
  management thread is not modelled. Neither are lock poisoning or the
  shared `Arc`s.
- **HTTP, JSON and XML.** The hyper client and the HTTP helpers are outside
  the model: answers are parameters. So are the JSON decoder (`serde_json`,
  `structs::parse_json`) and the XML tokenizer. Request bodies are records
  of their fields, not JSON text.
- **Events.EscapeChar.** It covers the escapes that Rust's `Debug` writes
  for `"`, `\`, `\n`, `\r`, `\t` and `\0`. Rust's `\u{…}` escapes are not
  modelled: those for other control characters, for other non-printable
  characters, and for grapheme-extending marks. `EscapeChar` passes all of
  these through unchanged. The description is only logged
  (`src/controller.rs:64`), so nothing else depends on it.
- **Common.ToLowerAscii.** Only ASCII letters are lower-cased. Non-ASCII
  lower-casing is not modelled.
- **Out of scope in the controller.** The HTTP server that
  `Controller::start` starts is not part of this model.
- **Out of scope in the Hue adapter.**
  - The adapter's registration in `PhilipsHue::init` (`add_adapter`) and
    its watch timer.
  - `Display`/`Debug` formatting and logging.
  - The `Subscription` type.
- **Sending events.** The event channel (`EventSender`,
  `src/events.rs:33`) is not a class of the model. Each sender returns the
  events it sends, in order: `UpnpManager.MsearchCallback` as its effect,
  and the dummy threads as their traces. A failing `send(...).unwrap()` is
  not modelled: the receiving loop is assumed alive.
- **Controller.Controller.Start.** It states the registered adapter and
  which return codes succeed. It does not state the UPnP manager's handle
  or its calls; `UpnpManager.Manager.Start` states those. The dummy
  adapter's thread is modelled on its own by `DummyAdapter.AdapterThread`,
  not run from here.
- **Controller.Controller.Notify.** Every registered adapter is taken to be
  a dummy adapter, since that is the only adapter the controller registers.
  So all of them answer a discovery alike. The rediscovery threads that
  adapters spawn are not run from here; `DummyAdapter.Adapter.UpnpDiscover`
  states what each one does.
- **Loops that never end.** They are followed for a bounded number of
  steps:
  - a dummy service that is never stopped, for `horizon` ticks;
  - the hub loop, for `rounds` passes;
  - the final sleep-forever loops of the hub and the discovery thread,
    which are not followed at all.
- **HueHub.Hub.Run.** It states the light map, the lights listed and added,
  the number of passes and which pass ends the loop. It does not state the
  trace of each pass; `HueHub.Round` states that. It does not say which
  request number gave the light listing, only that one did.
- **The order of inserting lights.** In the source, starting a light and
  inserting it alternate. In the model, a pass's lights are inserted after
  they have all been started. Nothing reads the map in between, so the
  resulting map is the same.
- **Hub::get_light_status and Hub::set_light_color.** These are
  `src/adapters/new_hue/hub.rs:124-134`. They send the same requests as
  the `HubApi` methods of the same names, and are modelled by
  `HueHubApi.LightStatus` and `HueHubApi.SetLightColor`.
- **The hub's thread.** `Discovery::start` starts a management thread for
  each hub. That thread is modelled by `HueHub.Hub.Run`, not run from
  `HueDiscovery.Discovery.Start`.
- **HueHub.Hub.Stop.** The source stops the first light it drains, and that
  call always aborts. So the model stops only the first light, because the
  thread never reaches the rest.
- **Files not in this model.** The configuration store and the service
  registry (`src/context.rs`) are not part of this model. `ConfigStore` and
  `ServiceRegistry` give only the operations the core calls, with the
  behaviour their call sites imply.
- **SQLite.**
  - The engine, the database file and its path are not modelled. The table
    is a sequence of rows in insertion order, which is the order the
    queries return.
  - User ids (`i32` in the source) are unbounded integers.
  - Only the `subscriptions` table is modelled.
  - No database error other than the unique constraint is modelled.
- **Iteration orders.** The iteration order of a `HashMap` is a parameter.
  The order of a `BTreeMap` walk is modelled by `HueHubApi.LeastKey`.
- **Random values and the clock.** UUIDs and clock readings are parameters.
