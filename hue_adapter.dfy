/** The Philips Hue adapter as the gateway sees it: its identity, the ids it
    builds for services and channels, and its answers to value requests. Of
    its channels only the timestamp getter answers. */
module HueAdapter {
  import opened Common

  const AdapterName: string := "Philips Hue adapter (built-in)"
  const AdapterVendor: string := "team@link.mozilla.org"
  const AdapterVersion: seq<nat> := [0, 0, 0, 0]

  /** The domain every id of the adapter ends with. */
  const Domain: string := "@link.mozilla.org"

  /** `PhilipsHue::id`. */
  const AdapterId: string := "philips_hue" + Domain

  /** `create_service_id`. */
  function CreateServiceId(serviceId: string): (r: string)
    ensures |r| == 8 + |serviceId| + |Domain|
    ensures r[..8] == "service:" && r[|r| - |Domain|..] == Domain
    ensures r[8..|r| - |Domain|] == serviceId
  {
    "service:" + serviceId + Domain
  }

  /** Service ids determine the service they were built from. */
  lemma ServiceIdInjective(a: string, b: string)
    requires CreateServiceId(a) == CreateServiceId(b)
    ensures a == b
  {
    var r := CreateServiceId(a);
    assert a == r[8..|r| - |Domain|];
  }

  /** `create_io_mechanism_id`: `{prefix}:{operation}.{service_id}` in the
      adapter's domain. */
  function CreateIoMechanismId(prefix: string, operation: string, serviceId: string): (r: string)
    ensures |r| == |prefix| + |operation| + |serviceId| + 2 + |Domain|
    ensures r[..|prefix| + 1] == prefix + ":" && r[|r| - |Domain|..] == Domain
    ensures r[|prefix| + 1..|r| - |Domain|] == operation + "." + serviceId
  {
    prefix + ":" + operation + "." + serviceId + Domain
  }

  /** `create_getter_id`: the operation and the service read back from the id. */
  function CreateGetterId(operation: string, serviceId: string): (r: string)
    ensures |r| == 8 + |operation| + |serviceId| + |Domain|
    ensures r[..7] == "getter:" && r[|r| - |Domain|..] == Domain
    ensures r[7..|r| - |Domain|] == operation + "." + serviceId
  {
    CreateIoMechanismId("getter", operation, serviceId)
  }

  /** `create_setter_id`: the operation and the service read back from the id. */
  function CreateSetterId(operation: string, serviceId: string): (r: string)
    ensures |r| == 8 + |operation| + |serviceId| + |Domain|
    ensures r[..7] == "setter:" && r[|r| - |Domain|..] == Domain
    ensures r[7..|r| - |Domain|] == operation + "." + serviceId
  {
    CreateIoMechanismId("setter", operation, serviceId)
  }

  /** `PhilipsHue::id`: the adapter's id, in its domain. */
  lemma AdapterIdentity()
    ensures AdapterId == "philips_hue@link.mozilla.org"
    ensures AdapterId[|AdapterId| - |Domain|..] == Domain
  {
  }

  /** The adapter's id is no service, getter or setter id, whatever they are
      built from. */
  lemma AdapterIdIsNoOtherId(operation: string, serviceId: string)
    ensures AdapterId != CreateServiceId(serviceId)
    ensures AdapterId != CreateGetterId(operation, serviceId) && AdapterId != CreateSetterId(operation, serviceId)
  {
    assert AdapterId[..8] == "philips_" && AdapterId[..7] == "philips";
  }

  /** What `name`, `vendor` and `version` answer. */
  lemma AdapterDescription()
    ensures AdapterName == "Philips Hue adapter (built-in)"
    ensures AdapterVendor == "team@link.mozilla.org"
    ensures AdapterVersion == [0, 0, 0, 0]
  {
  }

  /** No getter id is a setter id. */
  lemma GetterIsNotSetter(op: string, sid: string, op2: string, sid2: string)
    ensures CreateGetterId(op, sid) != CreateSetterId(op2, sid2)
  {
    assert CreateGetterId(op, sid)[0] == 'g';
    assert CreateSetterId(op2, sid2)[0] == 's';
  }

  /** The `.` between operation and service is not escaped, so an operation
      containing a dot and a service id can share a channel id. */
  lemma ChannelIdsAmbiguous(a: string, b: string, c: string)
    ensures CreateGetterId(a + "." + b, c) == CreateGetterId(a, b + "." + c)
  {
  }

  /** The ids of the adapter's two getters, as `init` spells them out. */
  const TimestampGetterId: string := "getter:" + "timestamp." + "philips_hue" + Domain
  const TimeOfDayGetterId: string := "getter:" + "time_of_day." + "philips_hue" + Domain

  /** Both are the ids `create_getter_id` gives for the adapter's own service,
      and they differ. */
  lemma BuiltInGetterIds()
    ensures TimestampGetterId == CreateGetterId("timestamp", "philips_hue")
    ensures TimeOfDayGetterId == CreateGetterId("time_of_day", "philips_hue")
    ensures TimestampGetterId != TimeOfDayGetterId
  {
    assert TimestampGetterId[11] == 's';
    assert TimeOfDayGetterId[11] == '_';
  }

  /** A channel value; the adapter only produces time stamps. */
  datatype Value = TimeStamp(time: int)

  datatype AdapterError =
    | NoSuchGetter(getter: string)
    | NoSuchSetter(setter: string)
    | GetterDoesNotSupportWatching(getter: string)

  /** The answer to fetching one getter, `now` being the clock's reading. */
  function FetchOne(id: string, now: int): Result<Option<Value>, AdapterError> {
    if id == TimestampGetterId then Ok(Some(TimeStamp(now))) else Err(NoSuchGetter(id))
  }

  /** `fetch_values`: each requested getter mapped to its answer, `now(i)` being
      the clock's reading when the `i`-th is answered; a getter requested
      twice keeps its last answer. */
  function FetchValues(ids: seq<string>, now: nat -> int): (r: map<string, Result<Option<Value>, AdapterError>>)
    ensures forall id :: id in r <==> id in ids
    ensures forall id :: id in r && id != TimestampGetterId ==> r[id] == Err(NoSuchGetter(id))
    ensures TimestampGetterId in r ==> r[TimestampGetterId].Ok? && r[TimestampGetterId].value.Some?
  {
    if |ids| == 0 then map[]
    else
      var i := |ids| - 1;
      FetchValues(ids[..i], now)[ids[i] := FetchOne(ids[i], now(i))]
  }

  /** `j` is the last request for the timestamp getter in `ids`. */
  predicate LastTimestampRequest(ids: seq<string>, j: int) {
    0 <= j < |ids| && ids[j] == TimestampGetterId && forall k :: j < k < |ids| ==> ids[k] != TimestampGetterId
  }

  /** The timestamp getter's value is the clock's reading when its last
      request was answered. */
  lemma {:induction false} TimestampIsLastReading(ids: seq<string>, now: nat -> int)
    requires TimestampGetterId in ids
    ensures exists j :: LastTimestampRequest(ids, j) && FetchValues(ids, now)[TimestampGetterId] == Ok(Some(TimeStamp(now(j))))
  {
    var i := |ids| - 1;
    if ids[i] == TimestampGetterId {
      assert LastTimestampRequest(ids, i);
    } else {
      var prefix := ids[..i];
      assert ids == prefix + [ids[i]];
      assert TimestampGetterId in prefix;
      TimestampIsLastReading(prefix, now);
      var j :| LastTimestampRequest(prefix, j) && FetchValues(prefix, now)[TimestampGetterId] == Ok(Some(TimeStamp(now(j))));
      assert FetchValues(ids, now) == FetchValues(prefix, now)[ids[i] := FetchOne(ids[i], now(i))];
      assert LastTimestampRequest(ids, j);
    }
  }

  /** The time-of-day getter, although the adapter names it, has no value. */
  lemma TimeOfDayHasNoValue(ids: seq<string>, now: nat -> int)
    requires TimeOfDayGetterId in ids
    ensures FetchValues(ids, now)[TimeOfDayGetterId] == Err(NoSuchGetter(TimeOfDayGetterId))
  {
    BuiltInGetterIds();
  }

  /** `send_values`: no setter exists. */
  function SendValues(values: map<string, Value>): (r: map<string, Result<(), AdapterError>>)
    ensures r.Keys == values.Keys
    ensures forall id :: id in r ==> r[id].Err? && r[id].error == NoSuchSetter(id)
  {
    map id | id in values :: Err(NoSuchSetter(id))
  }

  /** `register_watch`: no getter can be watched, whatever the filter; each
      requested getter maps to that error. */
  function RegisterWatch<F>(watch: seq<(string, F)>): (r: map<string, Result<(), AdapterError>>)
    ensures forall id :: id in r <==> exists i :: 0 <= i < |watch| && watch[i].0 == id
    ensures forall id :: id in r ==> r[id] == Err(GetterDoesNotSupportWatching(id))
  {
    map i | 0 <= i < |watch| :: watch[i].0 := Err(GetterDoesNotSupportWatching(watch[i].0))
  }
}
