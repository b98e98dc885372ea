/** The dummy adapter: it announces itself, creates seven services one by one
    (every third of which never stops), and claims the Philips Hue bridge
    simulator when UPnP discovers it, asking once for a second search. */
module DummyAdapter {
  import opened Common
  import opened Upnp
  import opened Events
  import opened ServiceRegistry

  /** One step of an adapter or service thread, in the order it happens. */
  datatype Action =
    | Sleep(ms: nat)
    | Send(event: EventData)
    /** `service.start()`: the service's own thread is spawned. */
    | StartService(id: string)
    /** `ctx.add_service(...)` for the service with this id. */
    | AddService(id: string)

  /** `DummyService`. */
  datatype DummyService = DummyService(properties: ServiceProperties, dontKill: bool)

  /** `DummyService::new` for the `id`-th service, whose fresh UUID is `uuid`. */
  function NewService(ctx: Context, uuid: string, id: nat): (s: DummyService)
    ensures s.dontKill <==> id % 3 == 0
    ensures s.properties.id == uuid
    ensures s.properties.httpUrl == ctx.httpRootFor(uuid) && s.properties.wsUrl == ctx.wsRootFor(uuid)
  {
    DummyService(ServiceProperties(uuid, "dummy service", "really nothing to see",
                                   ctx.httpRootFor(uuid), ctx.wsRootFor(uuid)),
                 id % 3 == 0)
  }

  /** `n` copies of `a`. */
  function Repeat(a: Action, n: nat): (r: seq<Action>)
    ensures |r| == n && forall i :: 0 <= i < n ==> r[i] == a
  {
    if n == 0 then [] else Repeat(a, n - 1) + [a]
  }

  /** The ticks a service makes before it ends: three when it may be killed. */
  const TicksBeforeStop: nat := 3

  /** What a service thread does within its first `horizon` ticks: it ticks
      once a second, and a killable one reports that it stopped after its
      third tick. */
  function ServiceTrace(id: string, canKill: bool, horizon: nat): seq<Action> {
    if canKill && horizon >= TicksBeforeStop then Repeat(Sleep(1000), TicksBeforeStop) + [Send(ServiceStop(id))]
    else Repeat(Sleep(1000), horizon)
  }

  /** The thread that `DummyService::start` spawns, followed for at most
      `horizon` ticks of its loop. */
  method ServiceThread(s: DummyService, horizon: nat) returns (trace: seq<Action>)
    ensures trace == ServiceTrace(s.properties.id, !s.dontKill, horizon)
  {
    var canKill := !s.dontKill;
    var i := 0;
    trace := [];
    while i < horizon
      invariant i <= horizon
      invariant canKill ==> i < TicksBeforeStop
      invariant trace == Repeat(Sleep(1000), i)
    {
      trace := trace + [Sleep(1000)];
      i := i + 1;
      if i == TicksBeforeStop && canKill {
        break;
      }
    }
    if i == TicksBeforeStop && canKill {
      trace := trace + [Send(ServiceStop(s.properties.id))];
    }
  }

  /** A service sends one `ServiceStop`, as its last action, exactly when it
      may be killed and has been followed for three ticks; one that may not
      be killed sends nothing however long it runs. */
  lemma ServiceStopsOnce(id: string, canKill: bool, horizon: nat)
    ensures var t := ServiceTrace(id, canKill, horizon);
      && (Send(ServiceStop(id)) in t <==> canKill && horizon >= TicksBeforeStop)
      && (forall i :: 0 <= i < |t| && t[i].Send? ==> i == |t| - 1 && i == TicksBeforeStop)
      && (!canKill ==> forall a :: a in t ==> a == Sleep(1000))
  {
  }

  /** The name the adapter announces itself with. */
  const AnnouncedName: string := "Dummy Service Adapter"
  /** How many services the adapter creates. */
  const MaxServices: nat := 7

  /** One turn of the creation loop, for the `id`-th service with id `sid`:
      the service is added to the registry before it is announced. */
  function CreationRound(sid: string): seq<Action> {
    [Sleep(2000), StartService(sid), AddService(sid), Send(ServiceStart(sid))]
  }

  /** What the adapter thread has done after creating `n` services, the `k`-th
      with UUID `uuids(k)`. */
  function AdapterTrace(uuids: nat -> string, n: nat): seq<Action> {
    if n == 0 then [Send(AdapterStart(AnnouncedName))]
    else AdapterTrace(uuids, n - 1) + CreationRound(uuids(n))
  }

  /** The registry after the first `n` services have been added to `base`. */
  function Registered(base: map<string, ServiceProperties>, ctx: Context, uuids: nat -> string, n: nat): map<string, ServiceProperties> {
    if n == 0 then base
    else Registered(base, ctx, uuids, n - 1)[uuids(n) := NewService(ctx, uuids(n), n).properties]
  }

  /** The thread that `DummyAdapter::start` spawns, where the `k`-th service
      created gets the UUID `uuids(k)`. */
  method AdapterThread(ctx: Context, uuids: nat -> string) returns (trace: seq<Action>)
    modifies ctx
    ensures trace == AdapterTrace(uuids, MaxServices)
    ensures ctx.services == Registered(old(ctx.services), ctx, uuids, MaxServices)
  {
    trace := [Send(AdapterStart(AnnouncedName))];
    var id := 0;
    while true
      invariant id < MaxServices
      invariant trace == AdapterTrace(uuids, id)
      invariant ctx.services == Registered(old(ctx.services), ctx, uuids, id)
      decreases MaxServices - id
    {
      ghost var before := trace;
      trace := trace + [Sleep(2000)];
      id := id + 1;
      var service := NewService(ctx, uuids(id), id);
      var sid := service.properties.id;
      trace := trace + [StartService(sid)];
      ctx.AddService(service.properties);
      trace := trace + [AddService(sid)] + [Send(ServiceStart(sid))];
      assert trace == before + CreationRound(uuids(id));
      assert ctx.services == Registered(old(ctx.services), ctx, uuids, id - 1)[uuids(id) := service.properties];
      if id == MaxServices {
        break;
      }
    }
  }

  /** The shape of the adapter thread's actions: it first announces itself,
      then the `k`-th turn takes positions `4k-3` to `4k`. */
  lemma {:induction false} AdapterTraceShape(uuids: nat -> string, n: nat, k: nat)
    requires 1 <= k <= n
    ensures |AdapterTrace(uuids, n)| == 4 * n + 1
    ensures AdapterTrace(uuids, n)[0] == Send(AdapterStart(AnnouncedName))
    ensures AdapterTrace(uuids, n)[4 * k - 3..4 * k + 1] == CreationRound(uuids(k))
  {
    var prev := AdapterTrace(uuids, n - 1);
    if n > 1 {
      AdapterTraceShape(uuids, n - 1, if k < n then k else 1);
    }
    assert |prev| == 4 * n - 3 && prev[0] == Send(AdapterStart(AnnouncedName));
    var round := CreationRound(uuids(n));
    assert AdapterTrace(uuids, n) == prev + round;
    if k < n {
      assert (prev + round)[4 * k - 3..4 * k + 1] == prev[4 * k - 3..4 * k + 1];
    } else {
      assert (prev + round)[4 * k - 3..4 * k + 1] == round;
    }
  }

  /** Every `ServiceStart` the adapter sends comes right after the same
      service was added to the registry, and the `k`-th service is announced
      with the `k`-th UUID. */
  lemma {:induction false} AddedBeforeAnnounced(uuids: nat -> string, n: nat, i: nat)
    requires i < |AdapterTrace(uuids, n)|
    requires AdapterTrace(uuids, n)[i].Send? && AdapterTrace(uuids, n)[i].event.ServiceStart?
    ensures i > 0 && i % 4 == 0
    ensures AdapterTrace(uuids, n)[i] == Send(ServiceStart(uuids(i / 4)))
    ensures AdapterTrace(uuids, n)[i - 1] == AddService(AdapterTrace(uuids, n)[i].event.id)
  {
    if n > 0 {
      var prev := AdapterTrace(uuids, n - 1);
      if i < |prev| {
        AddedBeforeAnnounced(uuids, n - 1, i);
      } else {
        if n > 1 {
          AdapterTraceShape(uuids, n - 1, 1);
        }
        assert |prev| == 4 * n - 3;
        assert i == 4 * n;
      }
    }
  }

  /** The registry gains exactly the created services' UUIDs. */
  lemma {:induction false} RegisteredKeys(base: map<string, ServiceProperties>, ctx: Context, uuids: nat -> string, n: nat)
    ensures Registered(base, ctx, uuids, n).Keys == base.Keys + set k | 1 <= k <= n :: uuids(k)
  {
    if n > 0 {
      RegisteredKeys(base, ctx, uuids, n - 1);
      assert (set k | 1 <= k <= n :: uuids(k)) == (set k | 1 <= k <= n - 1 :: uuids(k)) + {uuids(n)};
    }
  }

  /** The id fragment the Hue bridge simulator's UPnP device id carries. */
  const SimulatorId: string := "uuid:2f402f80-da50-11e1-9b23-"
  const ModelNameKey: string := "/root/device/modelName"
  const ModelNumberKey: string := "/root/device/modelNumber"
  const DeviceTypeKey: string := "/root/device/deviceType"
  const SimulatorModelName: string := "Philips hue bridge 2012"
  const SimulatorModelNumber: string := "929000226503"

  /** The `owns` test of `upnp_discover`: a short-circuit conjunction whose two
      description lookups `unwrap`, so a missing key aborts once it is looked up. */
  function Owns(service: UpnpService): (r: Outcome<bool>)
    ensures var desc := service.description;
      r == Done(true) <==>
        Contains(service.msearch.deviceId, SimulatorId)
        && ModelNameKey in desc && desc[ModelNameKey] == SimulatorModelName
        && ModelNumberKey in desc && desc[ModelNumberKey] == SimulatorModelNumber
    ensures var desc := service.description;
      r.Panic? <==>
        Contains(service.msearch.deviceId, SimulatorId)
        && (ModelNameKey !in desc || (desc[ModelNameKey] == SimulatorModelName && ModelNumberKey !in desc))
  {
    var desc := service.description;
    if !Contains(service.msearch.deviceId, SimulatorId) then Done(false)
    else if ModelNameKey !in desc then Panic("called `Option::unwrap()` on a `None` value")
    else if desc[ModelNameKey] != SimulatorModelName then Done(false)
    else if ModelNumberKey !in desc then Panic("called `Option::unwrap()` on a `None` value")
    else Done(desc[ModelNumberKey] == SimulatorModelNumber)
  }

  /** A device whose id does not carry the simulator's fragment is not claimed,
      whatever its description holds. */
  lemma ForeignDeviceNotClaimed(service: UpnpService)
    requires !Contains(service.msearch.deviceId, SimulatorId)
    ensures Owns(service) == Done(false)
  {
  }

  /** The target of the rediscovery search: the device type, lower-cased, or
      none when the description has no device type. */
  function RediscoveryTarget(desc: map<string, string>): (r: Option<string>)
    ensures r.Some? <==> DeviceTypeKey in desc
    ensures r.Some? ==> |r.value| == |desc[DeviceTypeKey]|
    ensures r.Some? ==> forall i :: 0 <= i < |r.value| ==> r.value[i] == LowerChar(desc[DeviceTypeKey][i])
  {
    if DeviceTypeKey in desc then Some(ToLowerAscii(desc[DeviceTypeKey])) else None
  }

  /** `DummyAdapter`. */
  class Adapter {
    const name: string
    var rediscover: bool

    /** `DummyAdapter::new`. */
    constructor ()
      ensures name == "DummyAdapter" && rediscover
    {
      name := "DummyAdapter";
      rediscover := true;
    }

    /** `upnp_discover`: whether the adapter claims `service`, and the actions
      of the rediscovery thread it spawns, if it spawns one. Scheduling needs
      `rediscover` and clears it, and nothing sets it again, so at most one
      rediscovery is ever scheduled. */
    method UpnpDiscover(service: UpnpService) returns (r: Outcome<bool>, rediscovery: seq<Action>)
      modifies this
      ensures r == Owns(service)
      ensures rediscover == (old(rediscover) && r != Done(true))
      ensures rediscovery != [] <==> old(rediscover) && r == Done(true)
      ensures rediscovery != [] ==>
        rediscovery == [Sleep(10000), Send(UpnpSearch(RediscoveryTarget(service.description)))]
    {
      r := Owns(service);
      rediscovery := [];
      if r == Done(true) && rediscover {
        rediscover := false;
        rediscovery := [Sleep(10000), Send(UpnpSearch(RediscoveryTarget(service.description)))];
      }
    }
  }
}
