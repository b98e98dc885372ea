/** `UpnpManager`: the callback the native library calls for every discovery
    notification, the emit policy of `msearch_callback`, and the start-up and
    search calls into the library. The library itself is outside the model:
    its return codes are parameters and the calls made to it are recorded. */
module UpnpManager {
  import opened Common
  import opened Upnp
  import opened Events
  import opened Util

  /** What fetching a description document gave: the request could not be
      sent, the body could not be read, or the body. */
  datatype Fetch = RequestFailed(reason: string) | ReadFailed(reason: string) | Body(text: string)

  /** What one callback did: the URLs it fetched and the events it sent to the
      controller. */
  datatype Effect = Effect(fetched: seq<string>, sent: seq<EventData>)

  const NoEffect := Effect([], [])

  /** The event the spawned fetch thread sends for a live device, if any:
      `http` gives the outcome of fetching a URL and `tokenize` the XML events
      the reader produces for a body. */
  function DescriptionEvent(header: MsearchHeader, fetch: Fetch, tokenize: string -> seq<XmlEvent>): (r: Option<EventData>)
    ensures r.Some? <==> fetch.Body? && Flatten(tokenize(fetch.text)).Ok?
    ensures r.Some? ==> r.value.UpnpServiceDiscovered? && r.value.service.msearch == header
    ensures r.Some? ==> r.value.service.descriptionData == fetch.text
    ensures r.Some? ==> r.value.service.description == Flatten(tokenize(fetch.text)).value
  {
    match fetch
    case RequestFailed(_) => None
    case ReadFailed(_) => None
    case Body(body) =>
      match Flatten(tokenize(body))
      case Err(_) => None
      case Ok(values) => Some(UpnpServiceDiscovered(UpnpService(header, values, body)))
  }

  /** `msearch_callback`: a departing device is announced at once with an empty
      description; a live one only once its description has been fetched,
      read and parsed. */
  function MsearchCallback(d: Discovery, alive: bool, http: string -> Fetch, tokenize: string -> seq<XmlEvent>): (r: Effect)
    requires WellFormed(d)
    ensures |r.sent| <= 1
    ensures forall e :: e in r.sent ==> e.UpnpServiceDiscovered? && e.service.msearch == HeaderOf(d, alive)
    ensures !alive ==> r.fetched == [] && r.sent == [UpnpServiceDiscovered(UpnpService(HeaderOf(d, false), map[], ""))]
    ensures alive ==> r.fetched == [HeaderOf(d, true).location]
    ensures alive ==> (|r.sent| == 1 <==> http(r.fetched[0]).Body? && Flatten(tokenize(http(r.fetched[0]).text)).Ok?)
    ensures alive && |r.sent| == 1 ==>
      && r.sent[0].UpnpServiceDiscovered?
      && r.sent[0].service.descriptionData == http(r.fetched[0]).text
      && r.sent[0].service.description == Flatten(tokenize(http(r.fetched[0]).text)).value
  {
    var header := HeaderOf(d, alive);
    if !alive then
      Effect([], [UpnpServiceDiscovered(UpnpService(header, map[], ""))])
    else
      match DescriptionEvent(header, http(header.location), tokenize)
      case None => Effect([header.location], [])
      case Some(e) => Effect([header.location], [e])
  }

  /** `UpnpManager::callback`: `payload` is the discovery record the event
      points to (`None` for a null pointer), `cookieIsNull` whether the cookie
      pointer is null. */
  function Callback(t: EventType, payload: Option<Discovery>, cookieIsNull: bool,
                    http: string -> Fetch, tokenize: string -> seq<XmlEvent>): (r: Outcome<Effect>)
    requires payload.Some? ==> WellFormed(payload.value)
    ensures r.Panic? <==> cookieIsNull || (Classify(t).Some? && payload.None?)
    ensures cookieIsNull ==> r == Panic("invalid cookie")
    ensures r.Done? && Classify(t).None? ==> r.value == NoEffect
    ensures r.Done? && Classify(t).Some? ==> r.value == MsearchCallback(payload.value, Classify(t).value, http, tokenize)
  {
    if cookieIsNull then Panic("invalid cookie")
    else
      match Classify(t)
      case None => Done(NoEffect)
      case Some(alive) =>
        match payload
        case None => Panic("null discovery")
        case Some(d) => Done(MsearchCallback(d, alive, http, tokenize))
  }

  /** A search result or a live advertisement for which the description could
      not be fetched sends nothing; a byebye always sends exactly one event. */
  lemma {:induction false} CallbackSends(t: EventType, d: Discovery, http: string -> Fetch, tokenize: string -> seq<XmlEvent>)
    requires WellFormed(d)
    ensures var r := Callback(t, Some(d), false, http, tokenize);
      && r.Done?
      && (t == DiscoveryAdvertisementByebye ==> |r.value.sent| == 1 && r.value.fetched == [])
      && (Classify(t) == Some(true) && !http(HeaderOf(d, true).location).Body? ==> r.value.sent == [])
      && (Classify(t).None? ==> r.value == NoEffect)
  {
    var r := Callback(t, Some(d), false, http, tokenize);
    if Classify(t) == Some(true) {
      assert r.value == MsearchCallback(d, true, http, tokenize);
    }
  }

  /** A call made into the native library. */
  datatype NativeCall = Init | RegisterClient | SearchAsync(handle: int, maxAttempts: int, target: string)

  /** `UpnpManager`: the client handle the library assigned, whether the cookie
      (the boxed event sender handed to the library) has been allocated, and
      the calls made so far. */
  class Manager {
    var handle: int
    var hasCookie: bool
    var calls: seq<NativeCall>

    /** `UpnpManager::new`: handle 0, null cookie. */
    constructor ()
      ensures handle == 0 && !hasCookie && calls == []
    {
      handle := 0;
      hasCookie := false;
      calls := [];
    }

    /** `initialize`: `UpnpInit` with its return code `code`. */
    method Initialize(code: int) returns (r: Result<(), int>)
      modifies this`calls
      ensures calls == old(calls) + [Init]
      ensures r == FromReturnCode(code)
    {
      calls := calls + [Init];
      r := FromReturnCode(code);
    }

    /** `search`: one `UpnpSearchAsync` with one attempt and the chosen target,
      whose return code is `code`. */
    method Search(target: Option<string>, code: int) returns (r: Outcome<Result<(), int>>)
      modifies this`calls
      ensures SearchTarget(target).Panic? ==> r.Panic? && calls == old(calls)
      ensures SearchTarget(target).Done? ==>
        calls == old(calls) + [SearchAsync(handle, 1, SearchTarget(target).value)] && r == Done(FromReturnCode(code))
    {
      match SearchTarget(target)
      case Panic(m) =>
        r := Panic(m);
      case Done(t) =>
        calls := calls + [SearchAsync(handle, 1, t)];
        r := Done(FromReturnCode(code));
    }

    /** `start`: initialise (aborting on failure), allocate the cookie, register
      the callback (the library then stores `assignedHandle`), and search for
      every device. The three return codes are those of the three library calls. */
    method Start(initCode: int, registerCode: int, assignedHandle: int, searchCode: int) returns (r: Outcome<Result<(), int>>)
      modifies this
      ensures initCode != 0 ==> r.Panic? && calls == old(calls) + [Init] && handle == old(handle) && hasCookie == old(hasCookie)
      ensures initCode == 0 ==> hasCookie
      ensures initCode == 0 && registerCode != 0 ==>
        r == Done(Err(registerCode)) && calls == old(calls) + [Init, RegisterClient] && handle == old(handle)
      ensures initCode == 0 && registerCode == 0 ==>
        handle == assignedHandle && r == Done(FromReturnCode(searchCode))
        && calls == old(calls) + [Init, RegisterClient, SearchAsync(assignedHandle, 1, AllTargets)]
    {
      var init := Initialize(initCode);
      if init.Err? {
        r := Panic("called `Result::unwrap()` on an `Err` value");
        return;
      }
      hasCookie := true;
      calls := calls + [RegisterClient];
      if registerCode != 0 {
        r := Done(Err(registerCode));
        return;
      }
      handle := assignedHandle;
      r := Search(None, searchCode);
    }
  }
}
