/** A light on a Hue bridge. Starting it reads its status and recognises the
    one light type the adapter supports; stopping it is not implemented. */
module HueLight {
  import opened Common
  import opened HueHubApi

  /** `Light`: `new` stores the light id and the bridge it belongs to. */
  datatype Light = Light(id: string, api: HubApi)

  /** The only light type `start` handles. */
  const ExtendedColorLight: string := "Extended color light"

  /** The request `start` sends: the light's status. */
  function StartRequest(light: Light): Request {
    LightStatusRequest(light.api, light.id)
  }

  /** `start`, given the answer to `StartRequest(light)` and the decoder:
      whether the light took the supported branch. Any other type is only
      logged; a failed request or an undecodable status aborts. */
  function Start(light: Light, response: Response, decode: string -> Result<LightEntry, string>): (r: Outcome<bool>)
    ensures r.Panic? <==> response.Err? || decode(response.value).Err?
    ensures r.Done? ==> (r.value <==> decode(response.value).value.lighttype == ExtendedColorLight)
  {
    match LightStatus(response, decode)
    case Panic(m) => Panic(m)
    case Done(status) => Done(status.lighttype == ExtendedColorLight)
  }

  /** `stop`: `unimplemented!()`, so it always aborts. */
  function Stop(light: Light): (r: Outcome<()>)
    ensures r.Panic?
  {
    Panic("not yet implemented")
  }
}
