/** The full Xray configuration built from a desired state (internal/xray/builder.go). */
module Builder {
  import opened Model
  import opened Text
  import opened Accounting

  /** One entry of `settings.clients` or `settings.peers`; `fields` is the credential without the two overwritten keys. */
  datatype Client = Client(email: string, level: int, fields: Fields)

  datatype Accounts = NoAccounts | Clients(clients: seq<Client>) | Peers(clients: seq<Client>)

  datatype InboundConfig = InboundConfig(
    tag: string, protocol: string, port: Json, listen: string, settings: Fields,
    streamSettings: Object, sniffing: Object, accounts: Accounts)

  /** A rule `buildRouting` adds for a user with its own outbound. */
  datatype UserRule = UserRule(ruleTag: string, email: string, outboundTag: string)

  /** The `rules` of the routing object: untouched, or managed rules in front of the panel's list. */
  datatype Rules = Untouched(value: Option<Json>) | Prepended(managed: seq<UserRule>, existing: seq<Json>)

  datatype Routing = Routing(other: Fields, rules: Rules)

  datatype Config = Config(
    levels: set<int>, inbounds: seq<InboundConfig>, outbounds: seq<Json>, routing: Option<Routing>, dns: Option<Json>)

  predicate SupportsHotUsers(protocol: string)
  {
    ToLower(protocol) in {"vless", "vmess", "trojan", "shadowsocks"}
  }

  function CloneMap(src: Object): Fields
  {
    match src
    case Nil => map[]
    case Made(fields) => fields
  }

  function ClientOf(inboundId: string, u: ManagedUser): Client
  {
    Client(AccountingEmail(u.id, inboundId), u.level, CloneMap(u.credential) - {"email", "level"})
  }

  function Active(users: seq<ManagedUser>, n: nat): seq<ManagedUser>
    requires n <= |users|
  {
    if n == 0 then [] else Active(users, n - 1) + (if users[n - 1].enabled then [users[n - 1]] else [])
  }

  function ClientsOf(inboundId: string, users: seq<ManagedUser>, n: nat): seq<Client>
    requires n <= |users|
  {
    if n == 0 then [] else
    ClientsOf(inboundId, users, n - 1) + (if users[n - 1].enabled then [ClientOf(inboundId, users[n - 1])] else [])
  }

  lemma {:induction false} ClientsOfActive(inboundId: string, users: seq<ManagedUser>, n: nat)
    requires n <= |users|
    ensures var active := Active(users, n);
            ClientsOf(inboundId, active, |active|) == ClientsOf(inboundId, users, n)
  {
    if n > 0 {
      ClientsOfActive(inboundId, users, n - 1);
      var before := Active(users, n - 1);
      if users[n - 1].enabled {
        ClientsOfPrefix(inboundId, before, [users[n - 1]], |before|);
        var active := before + [users[n - 1]];
        assert active == Active(users, n) && active[|active| - 1] == users[n - 1];
        assert ClientsOf(inboundId, active, |active|) ==
               ClientsOf(inboundId, active, |before|) + [ClientOf(inboundId, users[n - 1])];
      } else {
        assert Active(users, n) == before;
      }
    }
  }

  lemma {:induction false} ClientsOfPrefix(inboundId: string, users: seq<ManagedUser>, more: seq<ManagedUser>, n: nat)
    requires n <= |users|
    ensures ClientsOf(inboundId, users + more, n) == ClientsOf(inboundId, users, n)
  {
    if n > 0 {
      ClientsOfPrefix(inboundId, users, more, n - 1);
    }
  }

  function AccountsOf(input: ManagedInbound): Accounts
  {
    var clients := ClientsOf(input.id, input.users, |input.users|);
    if SupportsHotUsers(input.protocol) then Clients(clients)
    else if ToLower(input.protocol) == "wireguard" && clients != [] then Peers(clients)
    else NoAccounts
  }

  /** The object `buildInbound` returns when the required fields are there. */
  function InboundBody(input: ManagedInbound): InboundConfig
  {
    var accounts := AccountsOf(input);
    var settings := CloneMap(input.settings) -
                    (match accounts case NoAccounts => {} case Clients(_) => {"clients"} case Peers(_) => {"peers"});
    InboundConfig(input.tag, input.protocol, input.port, input.listen, settings,
                  input.streamSettings, input.sniffing, accounts)
  }

  predicate Buildable(input: ManagedInbound)
  {
    input.id != "" && input.protocol != "" && input.tag != ""
  }

  function InboundDocument(input: ManagedInbound): Result<InboundConfig>
  {
    if Buildable(input) then Ok(InboundBody(input)) else Err("id, tag and protocol are required")
  }

  /** `BuildUserDocument`: the inbound with only this user, enabled. */
  function UserDocument(input: ManagedInbound, u: ManagedUser): Result<InboundConfig>
  {
    InboundDocument(input.(users := [u.(enabled := true)]))
  }

  method BuildInbound(input: ManagedInbound) returns (r: Result<InboundConfig>)
    ensures r == InboundDocument(input)
  {
    if input.id == "" || input.protocol == "" || input.tag == "" {
      return Err("id, tag and protocol are required");
    }
    var active: seq<ManagedUser> := [];
    for i := 0 to |input.users|
      invariant active == Active(input.users, i)
      invariant forall u :: u in active ==> u.enabled
    {
      if input.users[i].enabled {
        active := active + [input.users[i]];
      }
    }
    var clients: seq<Client> := [];
    for i := 0 to |active|
      invariant clients == ClientsOf(input.id, active, i)
    {
      assert active[i] in active;
      clients := clients + [ClientOf(input.id, active[i])];
    }
    ClientsOfActive(input.id, input.users, |input.users|);
    assert clients == ClientsOf(input.id, input.users, |input.users|);
    var settings := CloneMap(input.settings);
    assert settings - {} == settings;
    var accounts := NoAccounts;
    if SupportsHotUsers(input.protocol) {
      settings := settings - {"clients"};
      accounts := Clients(clients);
    } else if ToLower(input.protocol) == "wireguard" {
      if |clients| > 0 {
        settings := settings - {"peers"};
        accounts := Peers(clients);
      }
    }
    r := Ok(InboundConfig(input.tag, input.protocol, input.port, input.listen, settings,
                          input.streamSettings, input.sniffing, accounts));
  }

  /** The levels Xray is told to keep statistics for: level 0 and every enabled user's. */
  predicate HasLevel(inbounds: seq<ManagedInbound>, level: int)
  {
    level == 0 || exists i, j :: 0 <= i < |inbounds| && 0 <= j < |inbounds[i].users| &&
                                 inbounds[i].users[j].enabled && inbounds[i].users[j].level == level
  }

  function UserLevels(users: seq<ManagedUser>, n: nat): set<int>
    requires n <= |users|
  {
    if n == 0 then {} else UserLevels(users, n - 1) + (if users[n - 1].enabled then {users[n - 1].level} else {})
  }

  function InboundLevels(inbounds: seq<ManagedInbound>, n: nat): set<int>
    requires n <= |inbounds|
  {
    if n == 0 then {0} else InboundLevels(inbounds, n - 1) + UserLevels(inbounds[n - 1].users, |inbounds[n - 1].users|)
  }

  function Levels(state: DesiredState): set<int>
  {
    InboundLevels(state.inbounds, |state.inbounds|)
  }

  lemma {:induction false} UserLevelsMeaning(users: seq<ManagedUser>, n: nat, level: int)
    requires n <= |users|
    ensures level in UserLevels(users, n) <==> exists j :: 0 <= j < n && users[j].enabled && users[j].level == level
  {
    if n > 0 {
      UserLevelsMeaning(users, n - 1, level);
    }
  }

  lemma {:induction false} InboundLevelsMeaning(inbounds: seq<ManagedInbound>, n: nat, level: int)
    requires n <= |inbounds|
    ensures level in InboundLevels(inbounds, n) <==>
            level == 0 || exists i, j :: 0 <= i < n && 0 <= j < |inbounds[i].users| &&
                                         inbounds[i].users[j].enabled && inbounds[i].users[j].level == level
  {
    if n > 0 {
      InboundLevelsMeaning(inbounds, n - 1, level);
      UserLevelsMeaning(inbounds[n - 1].users, |inbounds[n - 1].users|, level);
    }
  }

  /** The loop of `statsLevels` and `activeLevels` collects exactly level 0 and the levels of enabled users. */
  method CollectLevels(state: DesiredState) returns (levels: set<int>)
    ensures levels == Levels(state)
    ensures forall level :: level in levels <==> HasLevel(state.inbounds, level)
  {
    levels := {0};
    for i := 0 to |state.inbounds|
      invariant levels == InboundLevels(state.inbounds, i)
    {
      var users := state.inbounds[i].users;
      ghost var before := levels;
      for j := 0 to |users|
        invariant levels == before + UserLevels(users, j)
      {
        if users[j].enabled {
          levels := levels + {users[j].level};
        }
      }
    }
    forall level ensures level in levels <==> HasLevel(state.inbounds, level) {
      InboundLevelsMeaning(state.inbounds, |state.inbounds|, level);
    }
  }

  function SanitizeTag(s: string): string
  {
    seq(|s|, i requires 0 <= i < |s| => if Reserved(s[i]) || s[i] == '/' then '_' else s[i])
  }

  function RuleOf(inboundId: string, u: ManagedUser): UserRule
  {
    UserRule("xnode-user-" + SanitizeTag(inboundId) + "-" + SanitizeTag(u.id), AccountingEmail(u.id, inboundId), u.outboundTag)
  }

  function UserRules(input: ManagedInbound, n: nat): seq<UserRule>
    requires n <= |input.users|
  {
    if n == 0 then [] else
    UserRules(input, n - 1) +
    (if input.users[n - 1].enabled && input.users[n - 1].outboundTag != "" then [RuleOf(input.id, input.users[n - 1])] else [])
  }

  function ManagedRules(inbounds: seq<ManagedInbound>, n: nat): seq<UserRule>
    requires n <= |inbounds|
  {
    if n == 0 then [] else ManagedRules(inbounds, n - 1) + UserRules(inbounds[n - 1], |inbounds[n - 1].users|)
  }

  method CollectManagedRules(state: DesiredState) returns (managed: seq<UserRule>)
    ensures managed == ManagedRules(state.inbounds, |state.inbounds|)
  {
    managed := [];
    for i := 0 to |state.inbounds|
      invariant managed == ManagedRules(state.inbounds, i)
    {
      var input := state.inbounds[i];
      ghost var before := managed;
      for j := 0 to |input.users|
        invariant managed == before + UserRules(input, j)
      {
        var u := input.users[j];
        if u.enabled && u.outboundTag != "" {
          managed := managed + [RuleOf(input.id, u)];
        }
      }
    }
  }

  /** The decoded routing object; a `null` document leaves Go's map nil, on which the later write panics, so it is an
      error here as soon as there are managed rules. */
  function RoutingOf(routing: Raw, managed: seq<UserRule>): Result<Option<Routing>>
  {
    match routing
    case Malformed(_) => Err("routing")
    case Document(_, Scalar(_)) => Err("routing")
    case Document(_, Arr(_)) => Err("routing")
    case Document(_, Null) => if managed == [] then Ok(None) else Err("routing")
    case Empty => if managed == [] then Ok(None) else Ok(Some(Routing(map[], Prepended(managed, []))))
    case Document(_, Obj(fields)) =>
      if managed == [] then
        if fields == map[] then Ok(None)
        else Ok(Some(Routing(fields - {"rules"}, Untouched(if "rules" in fields then Some(fields["rules"]) else None))))
      else
        var existing := if "rules" in fields && fields["rules"].Arr? then fields["rules"].items else [];
        Ok(Some(Routing(fields - {"rules"}, Prepended(managed, existing))))
  }

  function DecodeAll(raws: seq<Raw>, n: nat): Result<seq<Json>>
    requires n <= |raws|
  {
    if n == 0 then Ok([]) else
    match DecodeAll(raws, n - 1)
    case Err(e) => Err(e)
    case Ok(values) => if raws[n - 1].Document? then Ok(values + [raws[n - 1].value]) else Err("outbound")
  }

  lemma {:induction false} DecodeAllMeaning(raws: seq<Raw>, n: nat)
    requires n <= |raws|
    ensures DecodeAll(raws, n).Ok? <==> forall i :: 0 <= i < n ==> raws[i].Document?
    ensures DecodeAll(raws, n).Ok? ==> |DecodeAll(raws, n).value| == n &&
                                       forall i :: 0 <= i < n ==> DecodeAll(raws, n).value[i] == raws[i].value
  {
    if n > 0 {
      DecodeAllMeaning(raws, n - 1);
    }
  }

  const DefaultOutbounds: seq<Json> := [
    Obj(map["tag" := Scalar("direct"), "protocol" := Scalar("freedom")]),
    Obj(map["tag" := Scalar("block"), "protocol" := Scalar("blackhole")])]

  function OutboundsOf(raws: seq<Raw>): Result<seq<Json>>
  {
    if raws == [] then Ok(DefaultOutbounds) else DecodeAll(raws, |raws|)
  }

  function DnsOf(dns: Raw): Result<Option<Json>>
  {
    match dns
    case Empty => Ok(None)
    case Malformed(_) => Err("dns")
    case Document(_, value) => Ok(Some(value))
  }

  function Bodies(inbounds: seq<ManagedInbound>, n: nat): (r: seq<InboundConfig>)
    requires n <= |inbounds|
    ensures |r| == n
  {
    if n == 0 then [] else Bodies(inbounds, n - 1) + [InboundBody(inbounds[n - 1])]
  }

  function ConfigOf(state: DesiredState): Result<Config>
  {
    if exists i :: 0 <= i < |state.inbounds| && !Buildable(state.inbounds[i]) then Err("inbound") else
    match OutboundsOf(state.outbounds)
    case Err(e) => Err(e)
    case Ok(outbounds) =>
      match RoutingOf(state.routing, ManagedRules(state.inbounds, |state.inbounds|))
      case Err(e) => Err(e)
      case Ok(routing) =>
        match DnsOf(state.dns)
        case Err(e) => Err(e)
        case Ok(dns) => Ok(Config(Levels(state), Bodies(state.inbounds, |state.inbounds|), outbounds, routing, dns))
  }

  method BuildConfig(state: DesiredState) returns (r: Result<Config>)
    ensures r == ConfigOf(state)
  {
    var levels := CollectLevels(state);
    var inbounds: seq<InboundConfig> := [];
    for i := 0 to |state.inbounds|
      invariant inbounds == Bodies(state.inbounds, i)
      invariant forall j :: 0 <= j < i ==> Buildable(state.inbounds[j])
    {
      var obj := BuildInbound(state.inbounds[i]);
      if obj.Err? {
        return Err("inbound");
      }
      inbounds := inbounds + [obj.value];
    }
    var outbounds: seq<Json> := DefaultOutbounds;
    if |state.outbounds| > 0 {
      outbounds := [];
      for i := 0 to |state.outbounds|
        invariant DecodeAll(state.outbounds, i) == Ok(outbounds)
      {
        if !state.outbounds[i].Document? {
          DecodeFails(state.outbounds, i, |state.outbounds|);
          return Err("outbound");
        }
        outbounds := outbounds + [state.outbounds[i].value];
      }
    }
    var managed := CollectManagedRules(state);
    var routing := RoutingOf(state.routing, managed);
    if routing.Err? {
      return Err(routing.message);
    }
    var dns := DnsOf(state.dns);
    if dns.Err? {
      return Err(dns.message);
    }
    r := Ok(Config(levels, inbounds, outbounds, routing.value, dns.value));
  }

  lemma {:induction false} DecodeFails(raws: seq<Raw>, i: nat, n: nat)
    requires i < n <= |raws| && !raws[i].Document? && DecodeAll(raws, i).Ok?
    ensures DecodeAll(raws, n) == Err("outbound")
  {
    if i < n - 1 {
      DecodeFails(raws, i, n - 1);
    }
  }
}
