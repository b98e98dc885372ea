/** The controller: it owns the adapters and the UPnP manager and handles the
    events posted to its loop, offering each discovered UPnP service to the
    adapters until one claims it. */
module Controller {
  import opened Common
  import opened Upnp
  import opened Events
  import opened ServiceRegistry
  import opened DummyAdapter
  import opened UpnpManager

  /** How many adapters are offered a discovery when their replies, in the
      order they are asked, would be `answers`: everyone up to and including
      the first that claims it or aborts. */
  function OfferedCount(answers: seq<Outcome<bool>>): (n: nat)
    ensures n <= |answers|
    ensures forall j :: 0 <= j < n - 1 ==> answers[j] == Done(false)
    ensures n < |answers| ==> 0 < n && answers[n - 1] != Done(false)
  {
    if |answers| == 0 then 0
    else if answers[0] != Done(false) then 1
    else 1 + OfferedCount(answers[1..])
  }

  /** Dispatch stops at the first adapter that claims the discovery: it was
      offered it, and no adapter after it was. */
  lemma {:induction false} StopsAtFirstClaim(answers: seq<Outcome<bool>>, k: nat)
    requires k < |answers| && answers[k] == Done(true)
    requires forall j :: 0 <= j < k ==> answers[j] == Done(false)
    ensures OfferedCount(answers) == k + 1
  {
    if k > 0 {
      StopsAtFirstClaim(answers[1..], k - 1);
    }
  }

  /** A discovery nobody claims is offered to every adapter, each once. */
  lemma {:induction false} UnclaimedOfferedToAll(answers: seq<Outcome<bool>>)
    requires forall j :: 0 <= j < |answers| ==> answers[j] == Done(false)
    ensures OfferedCount(answers) == |answers|
  {
    if |answers| > 0 {
      UnclaimedOfferedToAll(answers[1..]);
    }
  }

  /** The replies of `n` dummy adapters to `service`: each decides by the
      service alone. */
  function DummyAnswers(service: UpnpService, n: nat): seq<Outcome<bool>> {
    seq(n, _ => Owns(service))
  }

  /** `order` lists every key of `adapters` exactly once: an iteration order
      of the map, which the source leaves unspecified. */
  ghost predicate EnumeratesKeys<V>(order: seq<string>, adapters: map<string, V>) {
    (forall k :: k in adapters <==> k in order)
    && forall i, j :: 0 <= i < j < |order| ==> order[i] != order[j]
  }

  /** The name the controller registers the dummy adapter under. */
  const DummyAdapterName: string := "DummyAdapter"

  class Controller {
    var adapters: map<string, Adapter>
    const context: Context
    const upnp: Manager

    /** `Controller::new`: no adapters, a fresh UPnP manager. */
    constructor (context: Context)
      ensures adapters == map[] && this.context == context
      ensures fresh(upnp) && upnp.handle == 0 && !upnp.hasCookie && upnp.calls == []
    {
      adapters := map[];
      this.context := context;
      upnp := new Manager();
    }

    /** `start`: the dummy adapter is created, started and registered under its
      name, then UPnP discovery is started and any failure of it aborts. The
      return codes are those of the UPnP library calls. */
    method Start(initCode: int, registerCode: int, assignedHandle: int, searchCode: int)
      returns (r: Outcome<()>, dummy: Adapter)
      modifies this, upnp
      ensures fresh(dummy) && dummy.name == DummyAdapterName && dummy.rediscover
      ensures adapters == old(adapters)[DummyAdapterName := dummy]
      ensures r.Done? <==> initCode == 0 && registerCode == 0 && searchCode == 0
    {
      dummy := new Adapter();
      adapters := adapters[dummy.name := dummy];
      var started := upnp.Start(initCode, registerCode, assignedHandle, searchCode);
      if started == Done(Ok(())) {
        r := Done(());
      } else {
        r := Panic("called `Result::unwrap()` on an `Err` value");
      }
    }

    /** `notify` for one event; `order` is the order in which the adapters map
      is walked, `searchCode` the return code of a search it starts.
      `offered` lists the adapters a discovery was offered to. Only a search
      that goes ahead calls into the UPnP library, and only a discovery
      claimed by the first adapter walked changes an adapter: it disarms
      that adapter's rediscovery. */
    method Notify(data: EventData, order: seq<string>, searchCode: int) returns (r: Outcome<()>, offered: seq<string>)
      requires EnumeratesKeys(order, adapters)
      modifies context, upnp`calls, adapters.Values
      ensures !data.UpnpServiceDiscovered? ==> offered == []
      ensures data.ServiceStart? ==>
        (r.Panic? <==> data.id !in old(context.services)) && context.services == old(context.services)
      ensures data.ServiceStop? ==> r.Done? && context.services == old(context.services) - {data.id}
      ensures data.UpnpServiceDiscovered? ==>
        && offered == order[..OfferedCount(DummyAnswers(data.service, |order|))]
        && (r.Panic? <==> |order| > 0 && Owns(data.service).Panic?)
        && context.services == old(context.services)
      ensures data.UpnpSearch? ==>
        && (r.Panic? <==> SearchTarget(data.target).Panic?)
        && (r.Done? ==> upnp.calls == old(upnp.calls) + [SearchAsync(upnp.handle, 1, SearchTarget(data.target).value)])
        && context.services == old(context.services)
      ensures data.AdapterStart? ==> r.Done? && context.services == old(context.services)
      ensures !(data.UpnpSearch? && r.Done?) ==> upnp.calls == old(upnp.calls)
      ensures forall a :: a in adapters.Values ==>
        a.rediscover == (old(a.rediscover) && !(data.UpnpServiceDiscovered? && |order| > 0 && a == adapters[order[0]] && Owns(data.service) == Done(true)))
    {
      offered := [];
      r := Done(());
      match data {
        case ServiceStart(id) =>
          if context.GetService(id).None? {
            r := Panic("Missing service with id " + id);
          }
        case ServiceStop(id) =>
          context.RemoveService(id);
        case UpnpServiceDiscovered(service) =>
          r, offered := Offer(service, order);
        case UpnpSearch(target) =>
          var searched := upnp.Search(target, searchCode);
          if searched.Panic? {
            r := Panic(searched.message);
          }
        case AdapterStart(_) =>
      }
    }

    /** The `for … break` of `notify` on a discovery: each adapter in turn is
      offered `service` until one claims it or aborts. */
    method Offer(service: UpnpService, order: seq<string>) returns (r: Outcome<()>, offered: seq<string>)
      requires EnumeratesKeys(order, adapters)
      modifies adapters.Values
      ensures offered == order[..OfferedCount(DummyAnswers(service, |order|))]
      ensures r.Panic? <==> |order| > 0 && Owns(service).Panic?
      ensures forall a :: a in adapters.Values ==>
        a.rediscover == (old(a.rediscover) && !(|order| > 0 && a == adapters[order[0]] && Owns(service) == Done(true)))
    {
      offered := [];
      r := Done(());
      ghost var answers := DummyAnswers(service, |order|);
      var i := 0;
      while i < |order|
        invariant i <= |order|
        invariant offered == order[..i]
        invariant forall j :: 0 <= j < i ==> answers[j] == Done(false)
        invariant r == Done(())
        invariant forall a :: a in adapters.Values ==> a.rediscover == old(a.rediscover)
      {
        var claim, _ := adapters[order[i]].UpnpDiscover(service);
        offered := offered + [order[i]];
        if claim != Done(false) {
          assert answers[i] == claim;
          if claim.Panic? {
            r := Panic(claim.message);
          }
          break;
        }
        i := i + 1;
      }
    }
  }
}
