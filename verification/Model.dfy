/** The desired state the panel sends, as in internal/model.  Free-form JSON is kept as a decoded value. */
module Model {
  datatype Json =
    | Null
    | Scalar(text: string)
    | Arr(items: seq<Json>)
    | Obj(fields: map<string, Json>)

  type Fields = map<string, Json>

  /** A Go `map[string]any`, which can be nil; `reflect.DeepEqual` tells nil from empty. */
  datatype Object = Nil | Made(fields: Fields)

  /** A `json.RawMessage`: no bytes, bytes that do not parse, or bytes that parse. */
  datatype Raw = Empty | Malformed(text: string) | Document(text: string, value: Json)

  datatype Result<+T> = Ok(value: T) | Err(message: string)

  datatype UserLimits = UserLimits(
    trafficBytes: int, trafficUsedBytes: int, uploadBps: int, downloadBps: int,
    ipLimit: int, deviceLimit: int, connectionLimit: int, expiresAt: int)

  datatype ManagedUser = ManagedUser(
    id: string, accountId: string, enabled: bool, email: string, outboundTag: string,
    sessionGeneration: int, level: int, credential: Object, limits: UserLimits)

  datatype ManagedInbound = ManagedInbound(
    id: string, tag: string, listen: string, port: Json, protocol: string, ipLimitMode: string,
    settings: Object, streamSettings: Object, sniffing: Object, users: seq<ManagedUser>, metadata: Object)

  datatype NodePolicy = NodePolicy(trafficThresholdBytes: int, trafficUsedBytes: int, drainTargetOnline: int)

  datatype DesiredState = DesiredState(
    version: string, enabled: bool, mode: string, node: NodePolicy, inbounds: seq<ManagedInbound>,
    outbounds: seq<Raw>, routing: Raw, dns: Raw)

  datatype TrafficRecord = TrafficRecord(name: string, value: int, userId: string, inboundId: string, direction: string)

  datatype TrafficBatch = TrafficBatch(eventId: string, nodeId: string, collectedAt: int, records: seq<TrafficRecord>)

  datatype SessionRecord = SessionRecord(
    userId: string, inboundId: string, ips: seq<string>, lastSeen: int, recentConnections: nat, source: string)

  datatype PolicyViolation = PolicyViolation(userId: string, inboundId: string, reason: string, observed: int, limit: int)

  /** `inboundByID` and `userByID`: a later entry with the same ID wins. */
  function InboundsById(inbounds: seq<ManagedInbound>, n: nat): map<string, ManagedInbound>
    requires n <= |inbounds|
  {
    if n == 0 then map[] else InboundsById(inbounds, n - 1)[inbounds[n - 1].id := inbounds[n - 1]]
  }

  function UsersById(users: seq<ManagedUser>, n: nat): map<string, ManagedUser>
    requires n <= |users|
  {
    if n == 0 then map[] else UsersById(users, n - 1)[users[n - 1].id := users[n - 1]]
  }

  function UserIds(users: seq<ManagedUser>): set<string>
  {
    set u | u in users :: u.id
  }

  ghost predicate UniqueIds(inbounds: seq<ManagedInbound>)
  {
    forall i, j :: 0 <= i < j < |inbounds| ==> inbounds[i].id != inbounds[j].id
  }

  ghost predicate UniqueTags(inbounds: seq<ManagedInbound>)
  {
    forall i, j :: 0 <= i < j < |inbounds| ==> inbounds[i].tag != inbounds[j].tag
  }

  ghost predicate UniqueUserIds(users: seq<ManagedUser>)
  {
    forall i, j :: 0 <= i < j < |users| ==> users[i].id != users[j].id
  }

  lemma {:induction false} InboundsByIdKeys(inbounds: seq<ManagedInbound>, n: nat)
    requires n <= |inbounds|
    ensures forall id :: id in InboundsById(inbounds, n) ==>
                           exists i :: 0 <= i < n && inbounds[i] == InboundsById(inbounds, n)[id] && inbounds[i].id == id
    ensures forall i :: 0 <= i < n ==> inbounds[i].id in InboundsById(inbounds, n)
    ensures UniqueIds(inbounds) ==> forall i :: 0 <= i < n ==> InboundsById(inbounds, n)[inbounds[i].id] == inbounds[i]
  {
    if n > 0 {
      InboundsByIdKeys(inbounds, n - 1);
    }
  }

  lemma {:induction false} UsersByIdKeys(users: seq<ManagedUser>, n: nat)
    requires n <= |users|
    ensures forall id :: id in UsersById(users, n) ==>
                           exists i :: 0 <= i < n && users[i] == UsersById(users, n)[id] && users[i].id == id
    ensures forall i :: 0 <= i < n ==> users[i].id in UsersById(users, n)
    ensures UniqueUserIds(users) ==> forall i :: 0 <= i < n ==> UsersById(users, n)[users[i].id] == users[i]
  {
    if n > 0 {
      UsersByIdKeys(users, n - 1);
    }
  }

  method CollectInboundsById(inbounds: seq<ManagedInbound>) returns (byId: map<string, ManagedInbound>)
    ensures byId == InboundsById(inbounds, |inbounds|)
  {
    byId := map[];
    for i := 0 to |inbounds|
      invariant byId == InboundsById(inbounds, i)
    {
      byId := byId[inbounds[i].id := inbounds[i]];
    }
  }

  method CollectUsersById(users: seq<ManagedUser>) returns (byId: map<string, ManagedUser>)
    ensures byId == UsersById(users, |users|)
  {
    byId := map[];
    for i := 0 to |users|
      invariant byId == UsersById(users, i)
    {
      byId := byId[users[i].id := users[i]];
    }
  }
}
