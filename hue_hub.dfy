/** A Hue bridge and the thread that manages it: wait until the bridge
    answers, pair with it (asking the user to press the link button, for at
    most 120 attempts), then create and start its lights. The thread's
    requests, sleeps and notifications are recorded as a trace; the answer to
    the `k`-th request it sends is `net(k)`. The passes of the loop read the
    answers through a `Readers` record; the hub itself uses `IsAvailable`,
    `IsPaired` and `TryPairing` for the checks. */
module HueHub {
  import opened Common
  import opened HueHubApi
  import opened HueLight
  import opened ConfigStore

  /** The configuration namespace of the adapter. */
  const ConfigNamespace: string := "philips_hue"

  /** The configuration key of a bridge's token. */
  function TokenKey(id: string): string { "token_" + id }

  /** The messages of the adapter's notifications; each notification also
      names the adapter, `philips_hue`, and the bridge. */
  datatype Notice = NeedsPairing | PairingSuccess | PairingTimeout

  /** The bridge calls the management thread makes. */
  datatype ApiCall = Availability | SettingsCall | Pairing | LightList | LightStatusCall(id: string)

  /** The HTTP request each call recorded in a trace sends; `is_paired` and
      `get_settings` both read the settings. */
  function RequestFor(api: HubApi, call: ApiCall): (r: Request)
    ensures call == Availability ==> r == Get("http://" + api.ip + "/")
    ensures call == SettingsCall ==> r == Get(ApiUrl(api, ""))
    ensures call == LightList ==> r == Get(ApiUrl(api, "lights"))
    ensures call.LightStatusCall? ==> r == Get(ApiUrl(api, "lights/" + call.id))
    ensures call == Pairing ==> r.Post? && r.url == UnauthUrl(api, "api") && r.body == PairingBody(api.token, DeviceType)
  {
    match call
    case Availability => AvailabilityRequest(api)
    case SettingsCall => GetRequest(api, "")
    case Pairing => PairingRequest(api)
    case LightList => GetRequest(api, "lights")
    case LightStatusCall(id) => LightStatusRequest(api, id)
  }

  /** One step of the management thread. `LightAdded` marks a light that was
      started and inserted into the hub's light map. */
  datatype HubStep =
    | Http(call: ApiCall)
    | Sleep(ms: nat)
    | Notify(notice: Notice, hub: string)
    | LightAdded(id: string)

  const AvailabilityRetryMs: nat := 60 * 1000
  const PairingRetryMs: nat := 1000
  const PairingGiveUpMs: nat := 60 * 60 * 1000
  const PairingAttemptLimit: nat := 120

  /** How the thread reads the bridge's answers: the availability, pairing
      and pairing-attempt checks, whether a settings body decodes, the key set
      of a light map, a light's status. */
  datatype Readers = Readers(
    available: Response -> bool,
    paired: Response -> bool,
    accepted: Response -> bool,
    settings: string -> bool,
    lights: string -> Result<set<string>, string>,
    status: string -> Result<LightEntry, string>)

  /** The readers the hub uses: the bridge checks of `HubApi` and the JSON
      decoders. */
  function BridgeReaders(settings: string -> bool, lights: string -> Result<set<string>, string>,
                         status: string -> Result<LightEntry, string>): Readers {
    Readers(IsAvailable, IsPaired, TryPairing, settings, lights, status)
  }

  /** How many steps of `trace` are the notification `notice`. */
  function CountNotices(trace: seq<HubStep>, notice: Notice): nat {
    if |trace| == 0 then 0
    else CountNotices(trace[..|trace| - 1], notice) + (if trace[|trace| - 1].Notify? && trace[|trace| - 1].notice == notice then 1 else 0)
  }

  lemma {:induction false} CountNoticesConcat(a: seq<HubStep>, b: seq<HubStep>, notice: Notice)
    ensures CountNotices(a + b, notice) == CountNotices(a, notice) + CountNotices(b, notice)
    decreases |b|
  {
    if |b| > 0 {
      assert (a + b)[..|a + b| - 1] == a + b[..|b| - 1];
      CountNoticesConcat(a, b[..|b| - 1], notice);
    } else {
      assert a + b == a;
    }
  }

  /** One pairing attempt: the notification, the request, and the pause that
      follows a failure. */
  function Attempt(api: HubApi, failed: bool): seq<HubStep> {
    [Notify(NeedsPairing, api.id), Http(Pairing)] + (if failed then [Sleep(PairingRetryMs)] else [])
  }

  /** `k` failed attempts in a row. */
  function FailedAttempts(api: HubApi, k: nat): seq<HubStep> {
    if k == 0 then [] else FailedAttempts(api, k - 1) + Attempt(api, true)
  }

  /** One attempt carries exactly one notification, `NeedsPairing`. */
  lemma AttemptNotices(api: HubApi, failed: bool)
    ensures var a := Attempt(api, failed);
      && CountNotices(a, NeedsPairing) == 1
      && CountNotices(a, PairingSuccess) == 0 && CountNotices(a, PairingTimeout) == 0
  {
    var a := Attempt(api, failed);
    assert a == [Notify(NeedsPairing, api.id)] + a[1..];
    NoNotices(a[1..]);
    CountNoticesConcat([Notify(NeedsPairing, api.id)], a[1..], NeedsPairing);
    CountNoticesConcat([Notify(NeedsPairing, api.id)], a[1..], PairingSuccess);
    CountNoticesConcat([Notify(NeedsPairing, api.id)], a[1..], PairingTimeout);
  }

  lemma {:induction false} FailedAttemptsNotices(api: HubApi, k: nat)
    ensures var t := FailedAttempts(api, k);
      && CountNotices(t, NeedsPairing) == k
      && CountNotices(t, PairingSuccess) == 0 && CountNotices(t, PairingTimeout) == 0
  {
    if k > 0 {
      FailedAttemptsNotices(api, k - 1);
      AttemptNotices(api, true);
      CountNoticesConcat(FailedAttempts(api, k - 1), Attempt(api, true), NeedsPairing);
      CountNoticesConcat(FailedAttempts(api, k - 1), Attempt(api, true), PairingSuccess);
      CountNoticesConcat(FailedAttempts(api, k - 1), Attempt(api, true), PairingTimeout);
    }
  }

  /** Every attempt is announced by exactly one `NeedsPairing`, and no other
      notification is sent while pairing is tried. */
  lemma AttemptsNotices(api: HubApi, k: nat, failed: bool)
    ensures var t := FailedAttempts(api, k) + Attempt(api, failed);
      && CountNotices(t, NeedsPairing) == k + 1
      && CountNotices(t, PairingSuccess) == 0 && CountNotices(t, PairingTimeout) == 0
  {
    FailedAttemptsNotices(api, k);
    AttemptNotices(api, failed);
    CountNoticesConcat(FailedAttempts(api, k), Attempt(api, failed), NeedsPairing);
    CountNoticesConcat(FailedAttempts(api, k), Attempt(api, failed), PairingSuccess);
    CountNoticesConcat(FailedAttempts(api, k), Attempt(api, failed), PairingTimeout);
  }

  lemma {:induction false} NoNotices(t: seq<HubStep>)
    requires forall i :: 0 <= i < |t| ==> !t[i].Notify?
    ensures forall notice :: CountNotices(t, notice) == 0
  {
    if |t| > 0 {
      NoNotices(t[..|t| - 1]);
    }
  }

  /** The retry loop of the pairing section, from the `n0`-th request on: at
      most 120 attempts, stopping at the first that succeeds; `n` is the
      number of the next request. */
  method PairingAttempts(api: HubApi, net: nat -> Response, n0: nat, rd: Readers) returns (trace: seq<HubStep>, n: nat)
    ensures n0 < n <= n0 + PairingAttemptLimit
    ensures forall j :: n0 <= j < n - 1 ==> !rd.accepted(net(j))
    ensures n < n0 + PairingAttemptLimit ==> rd.accepted(net(n - 1))
    ensures trace == FailedAttempts(api, n - n0 - 1) + Attempt(api, !rd.accepted(net(n - 1)))
  {
    trace := [];
    n := n0;
    var attempt := 0;
    while attempt < PairingAttemptLimit
      invariant attempt <= PairingAttemptLimit && n == n0 + attempt
      invariant trace == FailedAttempts(api, attempt)
      invariant forall j :: n0 <= j < n ==> !rd.accepted(net(j))
    {
      trace := trace + [Notify(NeedsPairing, api.id), Http(Pairing)];
      var paired := rd.accepted(net(n));
      n := n + 1;
      if paired {
        assert trace == FailedAttempts(api, attempt) + Attempt(api, false);
        return;
      }
      trace := trace + [Sleep(PairingRetryMs)];
      attempt := attempt + 1;
    }
  }

  /** How one pass of the management loop ended. */
  datatype RoundEnd =
    /** The bridge did not answer; retried after a minute. */
    | Unavailable
    /** Pairing failed; retried after an hour. */
    | TimedOut
    /** The lights were created; the thread then sleeps forever. */
    | Settled
    /** An `unwrap` failed and the thread ended. */
    | Aborted(message: string)

  predicate Retries(end: RoundEnd) {
    end == Unavailable || end == TimedOut
  }

  /** What follows the attempts: the fresh `is_paired` check, then the
      success notification, or the timeout notification and an hour's pause. */
  function PairingTail(api: HubApi, paired: bool): seq<HubStep> {
    [Http(SettingsCall)]
    + if paired then [Notify(PairingSuccess, api.id)] else [Notify(PairingTimeout, api.id), Sleep(PairingGiveUpMs)]
  }

  /** Appending one step counts it when it is the notification. */
  lemma CountNoticesSnoc(t: seq<HubStep>, x: HubStep, notice: Notice)
    ensures CountNotices(t + [x], notice) == CountNotices(t, notice) + if x.Notify? && x.notice == notice then 1 else 0
  {
    assert (t + [x])[..|t|] == t;
  }

  /** The tail announces the outcome, and nothing else. */
  lemma PairingTailNotices(api: HubApi, paired: bool)
    ensures var t := PairingTail(api, paired);
      && CountNotices(t, NeedsPairing) == 0
      && CountNotices(t, PairingSuccess) == (if paired then 1 else 0)
      && CountNotices(t, PairingTimeout) == (if paired then 0 else 1)
  {
    var check := [Http(SettingsCall)];
    NoNotices(check);
    forall notice: Notice
      ensures CountNotices(PairingTail(api, paired), notice)
              == if notice == PairingSuccess then (if paired then 1 else 0)
                 else if notice == PairingTimeout then (if paired then 0 else 1) else 0
    {
      if paired {
        assert PairingTail(api, paired) == check + [Notify(PairingSuccess, api.id)];
        CountNoticesSnoc(check, Notify(PairingSuccess, api.id), notice);
      } else {
        var timeout := check + [Notify(PairingTimeout, api.id)];
        assert PairingTail(api, paired) == timeout + [Sleep(PairingGiveUpMs)];
        CountNoticesSnoc(check, Notify(PairingTimeout, api.id), notice);
        CountNoticesSnoc(timeout, Sleep(PairingGiveUpMs), notice);
      }
    }
  }

  /** The pairing section, entered when the first `is_paired` check failed,
      from the `n0`-th request on: the attempts, then a fresh `is_paired`
      check whose answer alone decides between success and an hour's pause. */
  method PairingSection(api: HubApi, net: nat -> Response, n0: nat, rd: Readers) returns (trace: seq<HubStep>, n: nat, paired: bool)
    ensures n0 + 2 <= n <= n0 + PairingAttemptLimit + 1
    ensures paired == rd.paired(net(n - 1))
    ensures trace == FailedAttempts(api, n - n0 - 2) + Attempt(api, !rd.accepted(net(n - 2))) + PairingTail(api, paired)
    ensures !paired ==> trace[|trace| - 2] == Notify(PairingTimeout, api.id) && trace[|trace| - 1] == Sleep(PairingGiveUpMs)
    ensures 1 <= CountNotices(trace, NeedsPairing) <= PairingAttemptLimit
    ensures CountNotices(trace, PairingSuccess) == (if paired then 1 else 0)
    ensures CountNotices(trace, PairingTimeout) == (if paired then 0 else 1)
  {
    var attempts, next := PairingAttempts(api, net, n0, rd);
    AttemptsNotices(api, next - n0 - 1, !rd.accepted(net(next - 1)));
    paired := rd.paired(net(next));
    n := next + 1;
    PairingTailNotices(api, paired);
    CountNoticesConcat(attempts, PairingTail(api, paired), NeedsPairing);
    CountNoticesConcat(attempts, PairingTail(api, paired), PairingSuccess);
    CountNoticesConcat(attempts, PairingTail(api, paired), PairingTimeout);
    trace := attempts + PairingTail(api, paired);
  }

  /** The section after pairing, from the `n0`-th request on: read the
      settings (an undecodable body aborts), list the lights, and create and
      start each in ascending id order until one fails. */
  method LightsSection(api: HubApi, net: nat -> Response, n0: nat, rd: Readers)
    returns (trace: seq<HubStep>, n: nat, lightIds: seq<string>, created: seq<Light>, end: RoundEnd)
    ensures n0 < n
    ensures end.Settled? || end.Aborted?
    ensures forall k :: 0 <= k < |trace| ==> !trace[k].Notify?
    ensures !rd.settings(Settings(net(n0))) ==> end.Aborted? && trace == [Http(SettingsCall)] && lightIds == []
    ensures rd.settings(Settings(net(n0))) ==>
      |trace| >= 2 && trace[..2] == [Http(SettingsCall), Http(LightList)]
    ensures |created| <= |lightIds| && forall j :: 0 <= j < |created| ==> created[j] == Light(lightIds[j], api)
    ensures StrictlyAscending(lightIds)
    ensures end.Settled? ==> |created| == |lightIds| && n == n0 + 2 + |lightIds|
    ensures end.Settled? ==>
      net(n0 + 1).Ok? && rd.lights(net(n0 + 1).value).Ok?
      && forall k :: k in lightIds <==> k in rd.lights(net(n0 + 1).value).value
  {
    trace := [Http(SettingsCall)];
    n := n0 + 1;
    lightIds := [];
    created := [];
    var settings := Settings(net(n0));
    if !rd.settings(settings) {
      end := Aborted("called `Result::unwrap()` on an `Err` value");
      return;
    }
    trace := trace + [Http(LightList)];
    var listing := GetLights(net(n), rd.lights);
    n := n + 1;
    if listing.Panic? {
      end := Aborted(listing.message);
      return;
    }
    lightIds := listing.value;
    var i := 0;
    while i < |lightIds|
      invariant i <= |lightIds| && |created| == i && n == n0 + 2 + i
      invariant forall j :: 0 <= j < i ==> created[j] == Light(lightIds[j], api)
      invariant |trace| >= 2 && trace[..2] == [Http(SettingsCall), Http(LightList)]
      invariant forall k :: 0 <= k < |trace| ==> !trace[k].Notify?
    {
      var light := Light(lightIds[i], api);
      trace := trace + [Http(LightStatusCall(light.id))];
      var started := HueLight.Start(light, net(n), rd.status);
      n := n + 1;
      if started.Panic? {
        end := Aborted(started.message);
        return;
      }
      created := created + [light];
      trace := trace + [LightAdded(light.id)];
      i := i + 1;
    }
    end := Settled;
  }

  /** The pairing phase, once the bridge has answered: the `is_paired` check
      (the `n0`-th request), and the pairing section when it failed. */
  method PairingPhase(api: HubApi, net: nat -> Response, n0: nat, rd: Readers) returns (trace: seq<HubStep>, n: nat, paired: bool)
    ensures n0 < n && |trace| >= 1 && trace[0] == Http(SettingsCall)
    ensures rd.paired(net(n0)) ==> paired && trace == [Http(SettingsCall)] && n == n0 + 1
    ensures !rd.paired(net(n0)) ==> paired == rd.paired(net(n - 1))
    ensures CountNotices(trace, NeedsPairing) <= PairingAttemptLimit
    ensures CountNotices(trace, PairingSuccess) + CountNotices(trace, PairingTimeout) == if rd.paired(net(n0)) then 0 else 1
    ensures CountNotices(trace, PairingTimeout) == if paired then 0 else 1
    ensures !paired ==> |trace| >= 2 && trace[|trace| - 2] == Notify(PairingTimeout, api.id) && trace[|trace| - 1] == Sleep(PairingGiveUpMs)
  {
    trace := [Http(SettingsCall)];
    NoNotices(trace);
    n := n0 + 1;
    paired := true;
    if !rd.paired(net(n0)) {
      var pairing, next;
      pairing, next, paired := PairingSection(api, net, n, rd);
      CountNoticesConcat(trace, pairing, NeedsPairing);
      CountNoticesConcat(trace, pairing, PairingSuccess);
      CountNoticesConcat(trace, pairing, PairingTimeout);
      trace := trace + pairing;
      n := next;
      assert trace[|trace| - 2] == pairing[|pairing| - 2] && trace[|trace| - 1] == pairing[|pairing| - 1];
      assert paired == rd.paired(net(n - 1));
    }
  }

  /** One pass of the management loop from the `n0`-th request on: the
      availability check, then, when the bridge answered, the pairing phase,
      then, when it is paired, the lights. */
  method Round(api: HubApi, net: nat -> Response, n0: nat, rd: Readers)
    returns (trace: seq<HubStep>, n: nat, lightIds: seq<string>, created: seq<Light>, end: RoundEnd)
    ensures n0 < n
    ensures end == Unavailable <==> !rd.available(net(n0))
    ensures end == Unavailable ==> trace == [Http(Availability), Sleep(AvailabilityRetryMs)]
    ensures end != Unavailable ==> |trace| >= 2 && trace[..2] == [Http(Availability), Http(SettingsCall)]
    ensures rd.available(net(n0)) && rd.paired(net(n0 + 1)) ==> CountNotices(trace, NeedsPairing) == 0 && !end.TimedOut?
    ensures CountNotices(trace, NeedsPairing) <= PairingAttemptLimit
    ensures CountNotices(trace, PairingSuccess) + CountNotices(trace, PairingTimeout)
            == if rd.available(net(n0)) && !rd.paired(net(n0 + 1)) then 1 else 0
    ensures end == TimedOut <==> CountNotices(trace, PairingTimeout) == 1
    ensures end == TimedOut ==>
      && !rd.paired(net(n - 1)) && |trace| >= 2
      && trace[|trace| - 2] == Notify(PairingTimeout, api.id) && trace[|trace| - 1] == Sleep(PairingGiveUpMs)
    ensures |created| <= |lightIds| && forall j :: 0 <= j < |created| ==> created[j] == Light(lightIds[j], api)
    ensures StrictlyAscending(lightIds)
    ensures end.Settled? ==> |created| == |lightIds| && n >= 2 + |lightIds|
    ensures end.Settled? ==> var listing := net(n - 1 - |lightIds|);
      listing.Ok? && rd.lights(listing.value).Ok?
      && forall k :: k in lightIds <==> k in rd.lights(listing.value).value
    ensures Retries(end) ==> created == []
  {
    var probe := [Http(Availability)];
    NoNotices(probe);
    n, lightIds, created := n0 + 1, [], [];
    if !rd.available(net(n0)) {
      trace := probe + [Sleep(AvailabilityRetryMs)];
      NoNotices(trace);
      end := Unavailable;
      return;
    }
    var pairing, paired;
    pairing, n, paired := PairingPhase(api, net, n, rd);
    CountNoticesConcat(probe, pairing, NeedsPairing);
    CountNoticesConcat(probe, pairing, PairingSuccess);
    CountNoticesConcat(probe, pairing, PairingTimeout);
    trace := probe + pairing;
    assert trace[..2] == [Http(Availability), Http(SettingsCall)];
    if !paired {
      assert trace[|trace| - 2] == pairing[|pairing| - 2] && trace[|trace| - 1] == pairing[|pairing| - 1];
      end := TimedOut;
      return;
    }
    var before := trace;
    var lights;
    lights, n, lightIds, created, end := LightsSection(api, net, n, rd);
    NoNotices(lights);
    CountNoticesConcat(before, lights, NeedsPairing);
    CountNoticesConcat(before, lights, PairingSuccess);
    CountNoticesConcat(before, lights, PairingTimeout);
    trace := before + lights;
    assert trace[..2] == before[..2];
  }

  /** The light map after inserting `added` in order, a later light replacing
      an earlier one with the same id. */
  function Insert(m: map<string, Light>, added: seq<Light>): map<string, Light> {
    if |added| == 0 then m else Insert(m, added[..|added| - 1])[added[|added| - 1].id := added[|added| - 1]]
  }

  /** The keys after insertion are the old keys and the ids added. */
  lemma {:induction false} InsertKeys(m: map<string, Light>, added: seq<Light>)
    ensures forall id :: id in Insert(m, added) <==> id in m || exists j :: 0 <= j < |added| && added[j].id == id
  {
    if |added| > 0 {
      var init := added[..|added| - 1];
      InsertKeys(m, init);
      forall id | exists j :: 0 <= j < |added| && added[j].id == id
        ensures id in Insert(m, added)
      {
        var j :| 0 <= j < |added| && added[j].id == id;
        if j < |added| - 1 {
          assert init[j].id == id;
        }
      }
      forall id | id in Insert(m, added) && id !in m && id != added[|added| - 1].id
        ensures exists j :: 0 <= j < |added| && added[j].id == id
      {
        var j :| 0 <= j < |init| && init[j].id == id;
        assert added[j].id == id;
      }
    }
  }

  /** When the ids added are distinct, each maps to its light, and an old key
      that is not re-added keeps its light. */
  lemma {:induction false} InsertValues(m: map<string, Light>, added: seq<Light>)
    requires forall j, k :: 0 <= j < k < |added| ==> added[j].id != added[k].id
    ensures forall j :: 0 <= j < |added| ==> added[j].id in Insert(m, added) && Insert(m, added)[added[j].id] == added[j]
    ensures forall id :: id in m ==> id in Insert(m, added)
    ensures forall id :: id in m && (forall j :: 0 <= j < |added| ==> added[j].id != id) ==> Insert(m, added)[id] == m[id]
  {
    InsertKeys(m, added);
    if |added| > 0 {
      var init := added[..|added| - 1];
      InsertValues(m, init);
      InsertKeys(m, init);
      forall j | 0 <= j < |added| - 1
        ensures added[j].id in Insert(m, added) && Insert(m, added)[added[j].id] == added[j]
      {
        assert init[j] == added[j];
      }
      forall id | id in m && (forall j :: 0 <= j < |added| ==> added[j].id != id)
        ensures Insert(m, added)[id] == m[id]
      {
        assert forall j :: 0 <= j < |init| ==> init[j].id != id;
      }
    }
  }

  /** `response` is a light listing the bridge gave, whose keys are exactly
      `ids`. */
  ghost predicate Listing(response: Response, lightMap: string -> Result<set<string>, string>, ids: seq<string>) {
    response.Ok? && lightMap(response.value).Ok?
    && forall k :: k in ids <==> k in lightMap(response.value).value
  }

  class Hub {
    const id: string
    const ip: string
    const api: HubApi
    var lights: map<string, Light>

    /** `Hub::new`: the token is the one stored under `token_{id}` in the
      adapter's configuration namespace; on first use `uuid`, a fresh random
      id, is stored and used. No lights yet. */
    constructor (id: string, ip: string, config: Config, uuid: string)
      modifies config
      ensures this.id == id && this.ip == ip && lights == map[]
      ensures api == HubApi(id, ip, Lookup(old(config.entries), ConfigNamespace, TokenKey(id), uuid))
      ensures config.entries == old(config.entries)[(ConfigNamespace, TokenKey(id)) := api.token]
    {
      var token := config.GetOrSetDefault(ConfigNamespace, TokenKey(id), uuid);
      this.id := id;
      this.ip := ip;
      api := HubApi(id, ip, token);
      lights := map[];
    }

    /** `start`'s management thread for at most `rounds` passes of its loop:
      it goes on while the bridge is unavailable or pairing times out; the
      pass that reaches the lights is the last one, whether it settles into
      sleeping forever or aborts. `listed` are the light ids that pass read
      from the bridge, in ascending order, and `added` the lights it started,
      one per listed id in that order, each inserted into the light map. */
    method Run(net: nat -> Response, settings: string -> bool, lightMap: string -> Result<set<string>, string>,
               status: string -> Result<LightEntry, string>, rounds: nat)
      returns (trace: seq<HubStep>, used: nat, listed: seq<string>, added: seq<Light>, end: RoundEnd)
      modifies this`lights
      ensures used <= rounds && (rounds > 0 ==> 0 < used)
      ensures used < rounds ==> !Retries(end)
      ensures Retries(end) ==> listed == [] && added == []
      ensures StrictlyAscending(listed)
      ensures |added| <= |listed| && forall j :: 0 <= j < |added| ==> added[j] == Light(listed[j], api)
      ensures end.Settled? ==> |added| == |listed|
      ensures end.Settled? ==> exists m :: Listing(net(m), lightMap, listed)
      ensures lights == Insert(old(lights), added)
    {
      var rd := BridgeReaders(settings, lightMap, status);
      trace, used, listed, added, end := [], 0, [], [], Unavailable;
      var n := 0;
      while used < rounds
        invariant used <= rounds && (rounds > 0 ==> 0 < used || (used == 0 && end == Unavailable))
        invariant Retries(end) && listed == [] && added == [] && lights == old(lights)
      {
        var pass, next, lightIds, created, passEnd := Round(api, net, n, rd);
        trace, n, used, end := trace + pass, next, used + 1, passEnd;
        if !Retries(passEnd) {
          if end.Settled? {
            assert Listing(net(n - 1 - |lightIds|), lightMap, lightIds);
          }
          AddLights(created);
          listed, added := lightIds, created;
          return;
        }
      }
    }

    /** The lights a pass started, inserted one by one into the light map
      under their ids. */
    method AddLights(created: seq<Light>)
      modifies this`lights
      ensures lights == Insert(old(lights), created)
    {
      var i := 0;
      while i < |created|
        invariant i <= |created| && lights == Insert(old(lights), created[..i])
      {
        assert created[..i + 1][..i] == created[..i];
        lights := lights[created[i].id := created[i]];
        i := i + 1;
      }
      assert created[..|created|] == created;
    }

    /** `stop`: the light map is drained, and stopping the first light
      drained aborts, since lights cannot be stopped; the map is empty either
      way. */
    method Stop() returns (r: Outcome<()>)
      modifies this`lights
      ensures lights == map[]
      ensures r.Panic? <==> old(lights) != map[]
    {
      var drained := lights;
      lights := map[];
      r := Done(());
      if drained != map[] {
        var key :| key in drained;
        r := HueLight.Stop(drained[key]);
      }
    }
  }
}
