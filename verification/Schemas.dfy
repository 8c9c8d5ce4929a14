/** The record types of src/autosiem/schemas.py that the other modules share.
    Times are whole seconds; severities and risk points are integers. */
module Schemas {
  import opened Common

  const INFORMATIONAL: int := 0
  const LOW: int := 25
  const MEDIUM: int := 50
  const HIGH: int := 75

  datatype Finding = Finding(
    findingId: string,
    ruleId: string,
    eventId: string,
    timestamp: int,
    severity: int,
    riskPoints: int,
    entities: seq<string>,
    techniques: seq<string>)

  datatype Kind = User | Host | Ip | CloudAccount

  /** An entity key such as `user:alice`: its kind and the rest. */
  datatype Entity = Entity(kind: Kind, name: string)

  datatype Event = Event(
    timestamp: int,
    hour: nat,
    action: string,
    user: Option<string>,
    host: Option<string>,
    srcIp: Option<string>,
    cloudAccount: Option<string>)

  /** An absent or empty attribute names no entity. */
  function KeyOf(kind: Kind, name: Option<string>): seq<Entity> {
    if name.Some? && name.value != "" then [Entity(kind, name.value)] else []
  }

  function EntityKeys(event: Event): seq<Entity> {
    KeyOf(User, event.user) + KeyOf(Host, event.host) + KeyOf(Ip, event.srcIp)
    + KeyOf(CloudAccount, event.cloudAccount)
  }
}
