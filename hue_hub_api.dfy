/** `HubApi`: the requests the Hue adapter sends to a bridge and the
    conclusions it draws from the answers. The HTTP transport is outside the
    model: each request is returned as a value and each answer is a
    parameter, `Ok(body)` or `Err(reason)`. */
module HueHubApi {
  import opened Common

  /** A bridge: its id, its address and the user name the adapter uses with it. */
  datatype HubApi = HubApi(id: string, ip: string, token: string)

  /** A request body; its JSON text is not modelled, only its fields. */
  datatype Body =
    | PairingBody(username: string, devicetype: string)
    | LightStateBody(hue: nat, sat: nat, bri: nat, on: bool)

  datatype Request = Get(url: string) | Post(url: string, body: Body) | Put(url: string, body: Body)

  /** What an HTTP request gave: the body, or the transport error. */
  type Response = Result<string, string>

  /** The URL of an authorised command: the one `get`, `post` and `put` use. */
  function ApiUrl(api: HubApi, cmd: string): (r: string)
    ensures r == UnauthUrl(api, "api/" + api.token + "/" + cmd)
  {
    "http://" + api.ip + "/api/" + api.token + "/" + cmd
  }

  /** The URL of an unauthorised command, used by `post_unauth`: the bridge's
      address and the command read back from it. */
  function UnauthUrl(api: HubApi, cmd: string): (r: string)
    ensures |r| == 8 + |api.ip| + |cmd|
    ensures r[..7] == "http://" && r[7..7 + |api.ip|] == api.ip
    ensures r[7 + |api.ip|] == '/' && r[8 + |api.ip|..] == cmd
  {
    "http://" + api.ip + "/" + cmd
  }

  /** Authorised commands live under the pairing endpoint followed by the
      token, and the command can be read back from the end of the URL. */
  lemma ApiUrlUnderPairingEndpoint(api: HubApi, cmd: string)
    ensures ApiUrl(api, cmd) == UnauthUrl(api, "api") + "/" + api.token + "/" + cmd
    ensures var url := ApiUrl(api, cmd); url[|url| - |cmd|..] == cmd
  {
  }

  /** `get`, `post` and `put` send the command under `api/{token}/`;
      `post_unauth` sends it at the root. */
  function GetRequest(api: HubApi, cmd: string): (r: Request)
    ensures r.Get? && r.url == UnauthUrl(api, "api/" + api.token + "/" + cmd)
  {
    Get(ApiUrl(api, cmd))
  }

  function PostRequest(api: HubApi, cmd: string, data: Body): (r: Request)
    ensures r.Post? && r.body == data && r.url == UnauthUrl(api, "api/" + api.token + "/" + cmd)
  {
    Post(ApiUrl(api, cmd), data)
  }

  function PostUnauthRequest(api: HubApi, cmd: string, data: Body): (r: Request)
    ensures r.Post? && r.body == data && |r.url| == 8 + |api.ip| + |cmd|
    ensures r.url[..8 + |api.ip|] == "http://" + api.ip + "/" && r.url[8 + |api.ip|..] == cmd
  {
    Post(UnauthUrl(api, cmd), data)
  }

  function PutRequest(api: HubApi, cmd: string, data: Body): (r: Request)
    ensures r.Put? && r.body == data && r.url == UnauthUrl(api, "api/" + api.token + "/" + cmd)
  {
    Put(ApiUrl(api, cmd), data)
  }

  /** The same command posted with and without authorisation goes to two
      different URLs. */
  lemma UnauthPostIsNotAuthPost(api: HubApi, cmd: string, data: Body)
    ensures PostUnauthRequest(api, cmd, data) != PostRequest(api, cmd, data)
  {
    assert |PostRequest(api, cmd, data).url| == |PostUnauthRequest(api, cmd, data).url| + 5 + |api.token|;
  }

  /** The page a bridge serves at its root names the product. */
  const ProductName: string := "hue personal wireless lighting"

  /** The availability check: `GET http://{ip}/`. */
  function AvailabilityRequest(api: HubApi): (r: Request)
    ensures r == Get(UnauthUrl(api, ""))
  {
    assert "http://" + api.ip + "/" + "" == "http://" + api.ip + "/";
    Get("http://" + api.ip + "/")
  }

  /** `is_available`, given the answer to `AvailabilityRequest`. */
  function IsAvailable(response: Response): (r: bool)
    ensures r <==> response.Ok? && exists i :: OccursAt(response.value, ProductName, i)
  {
    response.Ok? && Contains(response.value, ProductName)
  }

  /** `get_settings`, given the answer to `GetRequest(api, "")`: the body, or
      the empty text when the request failed. */
  function Settings(response: Response): (r: string)
    ensures response.Ok? ==> r == response.value
    ensures response.Err? ==> r == ""
  {
    match response
    case Ok(body) => body
    case Err(_) => ""
  }

  const UnauthorizedUser: string := "unauthorized user"

  /** `is_paired`, given the answer to `GetRequest(api, "")`: paired unless the
      bridge says the user is unauthorised. */
  function IsPaired(response: Response): (r: bool)
    ensures !r <==> response.Ok? && exists i :: OccursAt(response.value, UnauthorizedUser, i)
  {
    !Contains(Settings(response), UnauthorizedUser)
  }

  /** A failed settings request counts as paired: nothing in the empty
      fallback text says otherwise. */
  lemma TransportErrorReadsAsPaired(reason: string)
    ensures IsPaired(Err(reason))
  {
    assert !OccursAt("", UnauthorizedUser, 0);
  }

  /** The device type the adapter registers itself under. */
  const DeviceType: string := "foxbox_hub"

  /** `try_pairing`'s request: an unauthorised `POST` to `api` asking for the
      hub's token as user name. */
  function PairingRequest(api: HubApi): (r: Request)
    ensures r.Post? && r.url == "http://" + api.ip + "/api"
    ensures r.body == PairingBody(api.token, DeviceType)
  {
    PostUnauthRequest(api, "api", PairingBody(api.token, DeviceType))
  }

  /** `try_pairing`, given the answer to `PairingRequest`. */
  function TryPairing(response: Response): (r: bool)
    ensures r <==> response.Ok? && exists i :: OccursAt(response.value, "success", i)
  {
    match response
    case Ok(body) => Contains(body, "success")
    case Err(_) => Contains("", "success")
  }

  /** The bridge's answer to a successful pairing, in the shape the source
      documents, is recognised as a success whatever user name it carries. */
  lemma PairingSuccessAnswer(user: string)
    ensures TryPairing(Ok("[{\"success\":" + "{\"username\":\"" + user + "\"}}]"))
  {
    var head := "[{\"success\":";
    var body := head + "{\"username\":\"" + user + "\"}}]";
    assert body[3..10] == head[3..10] == "success";
    assert OccursAt(body, "success", 3);
  }

  /** The bridge's answer to a settings request from an unpaired user, as
      documented in the source, reads as not paired. */
  lemma UnauthorizedAnswer()
    ensures !IsPaired(Ok("[{\"error\":{\"type\":1,\"address\":\"/\",\"description\":\"unauthorized user\"}}]"))
  {
    var body := "[{\"error\":{\"type\":1,\"address\":\"/\",\"description\":\"unauthorized user\"}}]";
    assert body[49..66] == UnauthorizedUser;
    assert OccursAt(body, UnauthorizedUser, 49);
  }

  /** The first key of a non-empty set of keys, in the order of a `BTreeMap`:
      the step by which iterating the decoded map advances. */
  method LeastKey(keys: set<string>) returns (m: string)
    requires keys != {}
    ensures m in keys
    ensures forall k :: k in keys && k != m ==> LexLess(m, k)
  {
    var rest := keys;
    m :| m in rest;
    rest := rest - {m};
    while rest != {}
      invariant rest <= keys && m in keys && m !in rest
      invariant forall k :: k in keys && k !in rest && k != m ==> LexLess(m, k)
      decreases |rest|
    {
      var k :| k in rest;
      LexLessTotal(m, k);
      if LexLess(k, m) {
        forall j | j in keys && j !in rest && j != m
          ensures LexLess(k, j)
        {
          LexLessTransitive(k, m, j);
        }
        m := k;
      }
      rest := rest - {k};
    }
  }

  /** `get_lights`, given the answer to `GetRequest(api, "lights")` and the
      JSON decoder's reading of a body as a map, of which only the key set
      matters: the light ids in ascending order, each once. A failed request
      or an undecodable body aborts. */
  method GetLights(response: Response, decode: string -> Result<set<string>, string>) returns (r: Outcome<seq<string>>)
    ensures r.Panic? <==> response.Err? || decode(response.value).Err?
    ensures r.Done? ==> StrictlyAscending(r.value)
    ensures r.Done? ==> forall k :: k in r.value <==> k in decode(response.value).value
  {
    if response.Err? {
      return Panic("called `Result::unwrap()` on an `Err` value");
    }
    var json := decode(response.value);
    if json.Err? {
      return Panic("called `Result::unwrap()` on an `Err` value");
    }
    var keys := json.value;
    var lights: seq<string> := [];
    var rest := keys;
    while rest != {}
      invariant rest <= keys
      invariant forall k :: k in keys <==> k in lights || k in rest
      invariant forall k :: k in lights ==> k !in rest
      invariant StrictlyAscending(lights)
      invariant forall i, k :: 0 <= i < |lights| && k in rest ==> LexLess(lights[i], k)
      decreases |rest|
    {
      var key := LeastKey(rest);
      lights := lights + [key];
      rest := rest - {key};
    }
    r := Done(lights);
  }

  /** A light's status as the bridge reports it (the fields the adapter reads). */
  datatype LightEntry = LightEntry(lighttype: string, uniqueid: string)

  /** `get_light_status`'s request. */
  function LightStatusRequest(api: HubApi, id: string): Request { GetRequest(api, "lights/" + id) }

  /** `get_light_status`, given the answer to `LightStatusRequest` and the
      decoder: a failed request or an undecodable body aborts. */
  function LightStatus(response: Response, decode: string -> Result<LightEntry, string>): (r: Outcome<LightEntry>)
    ensures r.Panic? <==> response.Err? || decode(response.value).Err?
    ensures r.Done? ==> r.value == decode(response.value).value
  {
    match response
    case Err(_) => Panic("called `Result::unwrap()` on an `Err` value")
    case Ok(body) =>
      match decode(body)
      case Err(_) => Panic("called `Result::unwrap()` on an `Err` value")
      case Ok(entry) => Done(entry)
  }

  /** `set_light_color`: the one request it sends. Its answer is dropped, so
      nothing the bridge says can make it fail. */
  function SetLightColor(api: HubApi, lightId: string, hue: nat, sat: nat, val: nat, on: bool): (r: Request)
    ensures r.Put? && r.url == ApiUrl(api, "lights/" + lightId + "/state")
    ensures r.body == LightStateBody(hue, sat, val, on)
  {
    PutRequest(api, "lights/" + lightId + "/state", LightStateBody(hue, sat, val, on))
  }
}
