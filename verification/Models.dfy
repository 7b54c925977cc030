/** The routed entities: models and their deployments. */
module Models {
  datatype Deployment = Deployment(name: string, baseUrl: string, weight: int, priority: int)

  /** The strategy string after lower-casing and stripping; an unknown one picks the first. */
  datatype Strategy = LeastBusy | Weighted | Priority | RoundRobin | First

  /** A model as the request path sees it. `timeout` is in seconds, 0 when unset. */
  datatype Model = Model(
    name: string,
    baseUrl: string,
    aliases: seq<string>,
    strategy: Strategy,
    maxRetries: int,
    fallback: string,
    timeout: real,
    deployments: seq<Deployment>)
}
