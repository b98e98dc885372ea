/** The shared service registry that adapters add their services to and the
    controller consults. Its source file (src/context.rs) is not part of this
    model: only the operations the core calls are given here, with the
    behaviour their names and call sites imply. */
module ServiceRegistry {
  import opened Common

  /** `ServiceProperties`. */
  datatype ServiceProperties = ServiceProperties(id: string, name: string, description: string, httpUrl: string, wsUrl: string)

  class Context {
    /** The registered services, by id. */
    var services: map<string, ServiceProperties>
    /** `get_http_root_for_service` and `get_ws_root_for_service`; their URL
        layout is not part of this model. */
    const httpRootFor: string -> string
    const wsRootFor: string -> string

    constructor (httpRootFor: string -> string, wsRootFor: string -> string)
      ensures services == map[] && this.httpRootFor == httpRootFor && this.wsRootFor == wsRootFor
    {
      services := map[];
      this.httpRootFor := httpRootFor;
      this.wsRootFor := wsRootFor;
    }

    method AddService(s: ServiceProperties)
      modifies this
      ensures services == old(services)[s.id := s]
    {
      services := services[s.id := s];
    }

    method RemoveService(id: string)
      modifies this
      ensures services == old(services) - {id}
    {
      services := services - {id};
    }

    function GetService(id: string): (r: Option<ServiceProperties>)
      reads this
      ensures r.Some? <==> id in services
      ensures r.Some? ==> r.value == services[id]
    {
      if id in services then Some(services[id]) else None
    }
  }
}
