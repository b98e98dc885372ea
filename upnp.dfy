/** The data that the native UPnP library hands to foxbox, and the pure
    decisions taken on it: which callback kinds describe a device, how a
    discovery record becomes an `UpnpMsearchHeader`, which search target is
    used, and how the library's integer return codes become results. */
module Upnp {
  import opened Common

  /** The callback kinds of libupnp's client API, in declaration order. */
  datatype EventType =
    | ControlActionRequest
    | ControlActionComplete
    | ControlGetVarRequest
    | ControlGetVarComplete
    | DiscoveryAdvertisementAlive
    | DiscoveryAdvertisementByebye
    | DiscoverySearchResult
    | DiscoverySearchTimeout
    | SubscriptionRequest
    | Received
    | RenewalComplete
    | SubscribeComplete
    | UnsubscribeComplete
    | AutorenewalFailed
    | SubscriptionExpired

  /** The size of every text buffer in a discovery record. */
  const LineSize: nat := 180

  /** The C `Discovery` record: two integers and eight fixed-size text buffers
      (the destination address is not read by foxbox). */
  datatype Discovery = Discovery(
    errCode: int,
    expires: int,
    deviceId: seq<byte>,
    deviceType: seq<byte>,
    serviceType: seq<byte>,
    serviceVer: seq<byte>,
    location: seq<byte>,
    os: seq<byte>,
    date: seq<byte>,
    ext: seq<byte>)

  /** A buffer the native library may hand over: `LineSize` bytes holding a
      NUL terminator, which reading it as a C string relies on. */
  predicate IsLine(buf: seq<byte>) {
    |buf| == LineSize && 0 in buf
  }

  predicate WellFormed(d: Discovery) {
    IsLine(d.deviceId) && IsLine(d.deviceType) && IsLine(d.serviceType) && IsLine(d.serviceVer)
    && IsLine(d.location) && IsLine(d.os) && IsLine(d.date) && IsLine(d.ext)
  }

  /** `s` is the text stored in `buf`: its bytes, one character each, up to and
      excluding the first NUL. */
  predicate IsCString(buf: seq<byte>, s: string) {
    |s| < |buf| && buf[|s|] == 0
    && forall i :: 0 <= i < |s| ==> buf[i] != 0 && s[i] as int == buf[i]
  }

  /** `CStr::from_ptr(&buf[0])`, read byte by byte. */
  function CString(buf: seq<byte>): (s: string)
    requires 0 in buf
    ensures IsCString(buf, s)
  {
    if buf[0] == 0 then ""
    else [buf[0] as char] + CString(buf[1..])
  }

  /** The text stored in a buffer is determined by the buffer. */
  lemma CStringUnique(buf: seq<byte>, s: string, t: string)
    requires IsCString(buf, s) && IsCString(buf, t)
    ensures s == t
  {
    if |s| != |t| {
      assert false;
    }
    assert forall i :: 0 <= i < |s| ==> s[i] == t[i];
  }

  /** `UpnpMsearchHeader`. */
  datatype MsearchHeader = MsearchHeader(
    deviceId: string,
    deviceType: string,
    serviceType: string,
    serviceVer: string,
    location: string,
    os: string,
    date: string,
    ext: string,
    expires: int,
    alive: bool)

  /** `UpnpService`: the header, the flattened description document and its text. */
  datatype UpnpService = UpnpService(msearch: MsearchHeader, description: map<string, string>, descriptionData: string)

  /** The header built at the top of `msearch_callback`. */
  function HeaderOf(d: Discovery, alive: bool): (h: MsearchHeader)
    requires WellFormed(d)
    ensures IsCString(d.deviceId, h.deviceId) && IsCString(d.deviceType, h.deviceType)
    ensures IsCString(d.serviceType, h.serviceType) && IsCString(d.serviceVer, h.serviceVer)
    ensures IsCString(d.location, h.location) && IsCString(d.os, h.os)
    ensures IsCString(d.date, h.date) && IsCString(d.ext, h.ext)
    ensures h.expires == d.expires && h.alive == alive
  {
    MsearchHeader(CString(d.deviceId), CString(d.deviceType), CString(d.serviceType),
                  CString(d.serviceVer), CString(d.location), CString(d.os),
                  CString(d.date), CString(d.ext), d.expires, alive)
  }

  /** What the callback makes of an event kind: `Some(alive)` for the kinds that
      carry a discovery record, `None` for those it drops. */
  function Classify(t: EventType): (r: Option<bool>)
    ensures r == Some(true) <==> t == DiscoverySearchResult || t == DiscoveryAdvertisementAlive
    ensures r == Some(false) <==> t == DiscoveryAdvertisementByebye
  {
    match t
    case DiscoverySearchResult => Some(true)
    case DiscoveryAdvertisementAlive => Some(true)
    case DiscoveryAdvertisementByebye => Some(false)
    case _ => None
  }

  /** The `match err { 0 => Ok(()), _ => Err(err) }` of `initialize` and `search`. */
  function FromReturnCode(err: int): (r: Result<(), int>)
    ensures r.Ok? <==> err == 0
    ensures r.Err? ==> r.error == err
  {
    if err == 0 then Ok(()) else Err(err)
  }

  /** The search target used when none is given: every device and service. */
  const AllTargets: string := "ssdp:all"

  /** The target `search` hands to the library: the given one or `ssdp:all`,
      made into a C string. `CString::new` refuses an interior NUL, and the
      `unwrap` on it then aborts. */
  function SearchTarget(target: Option<string>): (r: Outcome<string>)
    ensures r.Panic? <==> target.Some? && '\0' in target.value
    ensures r.Done? ==> r.value == (if target.Some? then target.value else "ssdp:all")
  {
    var t := target.GetOr(AllTargets);
    if '\0' in t then Panic("nul byte found in provided data") else Done(t)
  }
}
