/** The records the core passes around: the control plane's service and
    session descriptors, intercept rules, and router connections. Only the
    fields the core reads are kept. */
module Types {
  import opened Wrappers

  /** rest_model.DialBind: the direction a session grants. */
  datatype SessionType = Dial | Bind

  /** The string value of a rest_model.DialBind. */
  function TypeName(t: SessionType): (name: string)
    ensures |name| == 4
  {
    match t
    case Dial => "Dial"
    case Bind => "Bind"
  }

  /** rest_model.SessionEdgeRouter: a router the session may use, with its
      ingress URLs in the order a range loop visits them. */
  datatype EdgeRouter = EdgeRouter(name: string, urls: seq<string>)

  /** rest_model.SessionDetail. `token` is absent in a refreshed payload. */
  datatype SessionDetail = SessionDetail(
    id: string,
    serviceId: string,
    sessionType: SessionType,
    token: Option<string>,
    edgeRouters: seq<EdgeRouter>)

  /** A control-plane reply to CreateSession or GetSession: the session, or
      the kind of error (a "not found" or "unauthorized" error type, or any
      other error). */
  datatype SessionReply = Found(session: SessionDetail) | NotFound | Unauthorized | Failed

  /** rest_model.ServiceDetail; `configs` maps a config type to its raw
      JSON, and `rest` holds every other field of the descriptor
      (permissions, posture queries, encryption flag, timestamps, tags, ...)
      by field name with its value rendered as text. With every field kept,
      equality of these values is Go's reflect.DeepEqual. */
  datatype ServiceDetail = ServiceDetail(id: string, name: string, configs: map<string, string>, rest: map<string, string>)

  datatype PortRange = PortRange(low: int, high: int)

  /** edge.InterceptV1Config without its Service back-pointer. */
  datatype InterceptConfig = InterceptConfig(
    protocols: seq<string>,
    addresses: seq<string>,
    portRanges: seq<PortRange>)

  /** edge.ClientConfig (config type ziti-tunneler-client.v1). */
  datatype ClientConfig = ClientConfig(hostname: string, port: int)

  /** An intercept rule as stored in the catalog: the parsed config and the
      service it belongs to (InterceptV1Config.Service). */
  datatype Intercept = Intercept(config: InterceptConfig, service: ServiceDetail)

  /** The two results of edge.ParseServiceConfig: an error, or found/not found. */
  datatype Parsed<T> = ParseError | NotPresent | Present(value: T)

  /** The configuration parsers the catalog relies on, none of which is part
      of this model: ParseServiceConfig for the two config types, and
      ClientConfig.ToInterceptV1Config. */
  datatype ConfigParsers = ConfigParsers(
    intercept: ServiceDetail -> Parsed<InterceptConfig>,
    client: ServiceDetail -> Parsed<ClientConfig>,
    convert: ClientConfig -> InterceptConfig)

  /** An edge.RouterConn: a channel to one router ingress URL. Key() is the
      URL. Whether the channel is closed changes over time. */
  class RouterConn {
    const name: string
    const url: string
    var closed: bool

    constructor (name: string, url: string)
      ensures this.name == name && this.url == url && !closed
    {
      this.name := name;
      this.url := url;
      closed := false;
    }

    method Close()
      modifies this
      ensures closed
    {
      closed := true;
    }
  }
}
