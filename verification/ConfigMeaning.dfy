/** The configuration of a state and the handlers Xray serves from it, told on the fields of the state. */
module ConfigMeaning {
  import opened Model
  import opened Text
  import opened Order
  import opened Accounting
  import opened Builder
  import opened Runtime
  import opened HotUsers
  import opened Refinement

  /* ---------- Inbounds ---------- */

  /** The protocols whose users the API can change. */
  predicate HotProtocol(protocol: string)
  {
    var p := ToLower(protocol); p == "vless" || p == "vmess" || p == "trojan" || p == "shadowsocks"
  }

  predicate IsWireGuard(protocol: string)
  {
    ToLower(protocol) == "wireguard"
  }

  lemma HotProtocols(protocol: string)
    ensures SupportsHotUsers(protocol) <==> HotProtocol(protocol)
    ensures HotProtocol(protocol) ==> !IsWireGuard(protocol)
  {
  }

  /** The keys of `from`, each with its value, but for those in `dropped`. */
  ghost predicate CarriesOver(to: Fields, from: Object, dropped: set<string>)
  {
    && (forall key :: key in to <==> from.Made? && key in from.fields && key !in dropped)
    && (forall key :: key in to && from.Made? && key in from.fields ==> to[key] == from.fields[key])
  }

  /** The entry of a user: its credential under its accounting email and with its level. */
  ghost predicate IsClient(c: Client, inboundId: string, u: ManagedUser)
  {
    && c.email == "u:" + Sanitize(u.id) + "|i:" + Sanitize(inboundId) && c.level == u.level
    && CarriesOver(c.fields, u.credential, {"email", "level"})
  }

  function IsEnabled(): ManagedUser -> bool
  {
    (u: ManagedUser) => u.enabled
  }

  /** One entry for each enabled user, in the order of the list. */
  ghost predicate ListsUsers(clients: seq<Client>, inboundId: string, users: seq<ManagedUser>, n: nat)
    requires n <= |users|
  {
    var at := Where(users, IsEnabled(), n);
    |clients| == |at| && forall k :: 0 <= k < |at| ==> at[k] < n && IsClient(clients[k], inboundId, users[at[k]])
  }

  lemma ClientIsClient(inboundId: string, u: ManagedUser)
    ensures IsClient(ClientOf(inboundId, u), inboundId, u)
  {
  }

  lemma ListsOneMore(clients: seq<Client>, inboundId: string, users: seq<ManagedUser>, n: nat)
    requires n < |users| && ListsUsers(clients, inboundId, users, n)
    ensures ListsUsers(if users[n].enabled then clients + [ClientOf(inboundId, users[n])] else clients, inboundId, users, n + 1)
  {
    ClientIsClient(inboundId, users[n]);
    if users[n].enabled {
      assert Where(users, IsEnabled(), n + 1) == Where(users, IsEnabled(), n) + [n];
    }
  }

  lemma ClientsSnoc(inboundId: string, users: seq<ManagedUser>, n: nat)
    requires n < |users|
    ensures var before := ClientsOf(inboundId, users, n);
            ClientsOf(inboundId, users, n + 1) == if users[n].enabled then before + [ClientOf(inboundId, users[n])] else before
  {
    assert ClientsOf(inboundId, users, n) + [] == ClientsOf(inboundId, users, n);
  }

  lemma {:induction false} ClientsAre(inboundId: string, users: seq<ManagedUser>, n: nat)
    requires n <= |users|
    ensures ListsUsers(ClientsOf(inboundId, users, n), inboundId, users, n)
  {
    if n > 0 {
      ClientsAre(inboundId, users, n - 1);
      ListsOneMore(ClientsOf(inboundId, users, n - 1), inboundId, users, n - 1);
      ClientsSnoc(inboundId, users, n - 1);
    }
  }

  ghost predicate SomeEnabled(users: seq<ManagedUser>)
  {
    exists i :: 0 <= i < |users| && users[i].enabled
  }

  lemma {:induction false} NoClients(inboundId: string, users: seq<ManagedUser>, n: nat)
    requires n <= |users|
    ensures ClientsOf(inboundId, users, n) == [] <==> forall i :: 0 <= i < n ==> !users[i].enabled
  {
    if n > 0 {
      NoClients(inboundId, users, n - 1);
    }
  }

  /** The settings key under which the users of an inbound are listed, if they are. */
  ghost function ListedUnder(input: ManagedInbound): set<string>
  {
    if HotProtocol(input.protocol) then {"clients"}
    else if IsWireGuard(input.protocol) && SomeEnabled(input.users) then {"peers"}
    else {}
  }

  /** A document needs an ID, a tag and a protocol.  It takes everything over from the panel, but lists the enabled users in place of
      the clients, or of the peers if there are any. */
  lemma DocumentMeaning(input: ManagedInbound)
    ensures var d := InboundDocument(input);
            && (d.Ok? <==> input.id != "" && input.tag != "" && input.protocol != "")
            && (d.Ok? ==>
                  var b := d.value;
                  && b.tag == input.tag && b.protocol == input.protocol && b.port == input.port && b.listen == input.listen
                  && b.streamSettings == input.streamSettings && b.sniffing == input.sniffing
                  && CarriesOver(b.settings, input.settings, ListedUnder(input))
                  && (b.accounts.Clients? <==> ListedUnder(input) == {"clients"}) && (b.accounts.Peers? <==> ListedUnder(input) == {"peers"})
                  && (!b.accounts.NoAccounts? ==> ListsUsers(b.accounts.clients, input.id, input.users, |input.users|)))
  {
    HotProtocols(input.protocol);
    ClientsAre(input.id, input.users, |input.users|);
    NoClients(input.id, input.users, |input.users|);
    assert {"clients"} != {"peers"} by {
      assert "clients"[0] != "peers"[0];
      assert "clients" in {"clients"} && "clients" !in {"peers"};
    }
  }

  /* ---------- The served table ---------- */

  /** The handler of an inbound: what the panel sent, and an account for each enabled user of a protocol that has users. */
  ghost predicate IsHandler(h: Handler, input: ManagedInbound)
  {
    && h.protocol == input.protocol && h.port == input.port && h.listen == input.listen
    && h.streamSettings == input.streamSettings && h.sniffing == input.sniffing
    && CarriesOver(h.settings, input.settings, ListedUnder(input))
    && if HotProtocol(input.protocol) || IsWireGuard(input.protocol) then HasAccounts(h.accounts, input) else h.accounts == map[]
  }

  lemma HandlerIsHandler(input: ManagedInbound)
    requires DistinctEmails(input)
    ensures IsHandler(HandlerFor(input), input)
  {
    HotProtocols(input.protocol);
    NoClients(input.id, input.users, |input.users|);
    if HotProtocol(input.protocol) || IsWireGuard(input.protocol) {
      AccountsAre(input);
    }
  }

  /** Xray started from a state serves under the tag of each inbound the handler of that inbound. */
  lemma HandlerMeaning(s: DesiredState, k: nat)
    requires UniqueIds(s.inbounds) && UniqueTags(s.inbounds) && k < |s.inbounds| && DistinctEmails(s.inbounds[k])
    ensures s.inbounds[k].tag in TableOf(s) && IsHandler(TableOf(s)[s.inbounds[k].tag], s.inbounds[k])
  {
    TableHolds(s, k);
    HandlerIsHandler(s.inbounds[k]);
  }

  /** The accounts are those of the enabled users: level and credential under the accounting email. */
  ghost predicate HasAccounts(accounts: map<string, Account>, input: ManagedInbound)
  {
    && (forall e :: e in accounts ==> exists i :: 0 <= i < |input.users| && input.users[i].enabled && AccountingEmail(input.users[i].id, input.id) == e)
    && (forall i :: 0 <= i < |input.users| && input.users[i].enabled ==>
          AccountingEmail(input.users[i].id, input.id) in accounts &&
          IsAccount(accounts[AccountingEmail(input.users[i].id, input.id)], input.users[i]))
  }

  ghost predicate IsAccount(a: Account, u: ManagedUser)
  {
    a.level == u.level && CarriesOver(a.fields, u.credential, {"email", "level"})
  }

  lemma AccountIsAccount(u: ManagedUser)
    ensures IsAccount(AccountOf(u), u)
  {
  }

  lemma AccountsAre(input: ManagedInbound)
    requires DistinctEmails(input) && (HotProtocol(input.protocol) || IsWireGuard(input.protocol))
    ensures HasAccounts(HandlerFor(input).accounts, input)
  {
    HotProtocols(input.protocol);
    CarriedAccounts(input);
    UserAccountsMeaning(input, |input.users|);
    forall i | 0 <= i < |input.users| && input.users[i].enabled
      ensures AccountingEmail(input.users[i].id, input.id) in AllAccounts(input)
      ensures IsAccount(AllAccounts(input)[AccountingEmail(input.users[i].id, input.id)], input.users[i])
    {
      AccountIsAccount(input.users[i]);
      assert EmailOf(input, i) in AllAccounts(input);
    }
    forall e | e in AllAccounts(input)
      ensures exists i :: 0 <= i < |input.users| && input.users[i].enabled && AccountingEmail(input.users[i].id, input.id) == e
    {
      var i :| 0 <= i < |input.users| && input.users[i].enabled && EmailOf(input, i) == e;
    }
  }

  /** Every tag of the table is that of an inbound of the state. */
  lemma NothingElseIsServed(s: DesiredState, tag: string)
    requires UniqueIds(s.inbounds) && UniqueTags(s.inbounds)
    ensures tag in TableOf(s) <==> exists k :: 0 <= k < |s.inbounds| && s.inbounds[k].tag == tag
  {
    TableServes(s);
    InboundsByIdKeys(s.inbounds, |s.inbounds|);
    var live := InboundsById(s.inbounds, |s.inbounds|);
    if tag in TableOf(s) {
      var id :| id in live && live[id].tag == tag;
      var k :| 0 <= k < |s.inbounds| && s.inbounds[k] == live[id];
    }
    forall k | 0 <= k < |s.inbounds| ensures s.inbounds[k].tag in TableOf(s) {
      assert live[s.inbounds[k].id] == s.inbounds[k];
    }
  }

  /* ---------- Routing ---------- */

  lemma SanitizeTagMeaning(s: string, i: nat)
    requires i < |s|
    ensures |SanitizeTag(s)| == |s|
    ensures SanitizeTag(s)[i] == if s[i] == ' ' || s[i] == '>' || s[i] == '|' || s[i] == '/' then '_' else s[i]
  {
  }

  /** The rule of a user: traffic under its accounting email goes to its outbound. */
  ghost predicate IsRule(r: UserRule, inboundId: string, u: ManagedUser)
  {
    && r.email == "u:" + Sanitize(u.id) + "|i:" + Sanitize(inboundId) && r.outboundTag == u.outboundTag
    && r.ruleTag == "xnode-user-" + SanitizeTag(inboundId) + "-" + SanitizeTag(u.id)
  }

  function HasOutbound(): ManagedUser -> bool
  {
    (u: ManagedUser) => u.enabled && u.outboundTag != ""
  }

  /** One rule for each enabled user with an outbound of its own, in the order of the list. */
  lemma {:induction false} UserRulesAre(input: ManagedInbound, n: nat)
    requires n <= |input.users|
    ensures var rules, at := UserRules(input, n), Where(input.users, HasOutbound(), n);
            |rules| == |at| && forall k :: 0 <= k < |at| ==> at[k] < n && IsRule(rules[k], input.id, input.users[at[k]])
  {
    if n > 0 {
      UserRulesAre(input, n - 1);
      assert UserRules(input, n - 1) + [] == UserRules(input, n - 1);
    }
  }

  function RulesByInbound(inbounds: seq<ManagedInbound>): seq<seq<UserRule>>
  {
    seq(|inbounds|, i requires 0 <= i < |inbounds| => UserRules(inbounds[i], |inbounds[i].users|))
  }

  /** The rules of the inbounds follow one another in the order of the state. */
  lemma {:induction false} ManagedRulesAre(inbounds: seq<ManagedInbound>, n: nat)
    requires n <= |inbounds|
    ensures ManagedRules(inbounds, n) == Flat(RulesByInbound(inbounds), n)
  {
    if n > 0 {
      ManagedRulesAre(inbounds, n - 1);
    }
  }

  /** The routing object: what the panel sent, with the managed rules in front of its own list.  Anything but an object is an error, and
      so is `null` as soon as there are managed rules; without an object or with an empty one there is none unless they need it. */
  lemma RoutingMeaning(routing: Raw, managed: seq<UserRule>)
    ensures var r := RoutingOf(routing, managed);
            && (r.Ok? <==> routing.Empty? || (routing.Document? && (routing.value.Obj? || (routing.value.Null? && managed == []))))
            && (r.Ok? ==>
                  var fields := if routing.Document? && routing.value.Obj? then routing.value.fields else map[];
                  && (r.value.None? <==> managed == [] && fields == map[])
                  && (r.value.Some? ==>
                        && CarriesOver(r.value.value.other, Made(fields), {"rules"})
                        && (managed == [] ==> r.value.value.rules == Untouched(if "rules" in fields then Some(fields["rules"]) else None))
                        && (managed != [] ==>
                              r.value.value.rules ==
                              Prepended(managed, if "rules" in fields && fields["rules"].Arr? then fields["rules"].items else []))))
  {
  }

  /* ---------- The configuration ---------- */

  /** The panel's outbounds, in order; without any a direct one and one that blocks. */
  ghost predicate HasOutbounds(outbounds: seq<Json>, raws: seq<Raw>)
  {
    if raws == [] then
      outbounds == [Obj(map["tag" := Scalar("direct"), "protocol" := Scalar("freedom")]),
                    Obj(map["tag" := Scalar("block"), "protocol" := Scalar("blackhole")])]
    else |outbounds| == |raws| && forall i :: 0 <= i < |raws| ==> raws[i].Document? && outbounds[i] == raws[i].value
  }

  lemma OutboundsMeaning(raws: seq<Raw>)
    ensures OutboundsOf(raws).Ok? <==> forall i :: 0 <= i < |raws| ==> raws[i].Document?
    ensures OutboundsOf(raws).Ok? ==> HasOutbounds(OutboundsOf(raws).value, raws)
  {
    DecodeAllMeaning(raws, |raws|);
  }

  /** Whether the managed rules and the routing message go together. */
  predicate RoutingFits(s: DesiredState)
  {
    || s.routing.Empty?
    || (s.routing.Document? && (s.routing.value.Obj? || (s.routing.value.Null? && ManagedRules(s.inbounds, |s.inbounds|) == [])))
  }

  /** When a configuration can be built. */
  lemma ConfigBuilds(s: DesiredState)
    ensures ConfigOf(s).Ok? <==>
            && (forall i :: 0 <= i < |s.inbounds| ==> s.inbounds[i].id != "" && s.inbounds[i].tag != "" && s.inbounds[i].protocol != "")
            && (forall i :: 0 <= i < |s.outbounds| ==> s.outbounds[i].Document?)
            && RoutingFits(s) && !s.dns.Malformed?
  {
    OutboundsMeaning(s.outbounds);
    RoutingMeaning(s.routing, ManagedRules(s.inbounds, |s.inbounds|));
    forall i | 0 <= i < |s.inbounds|
      ensures Buildable(s.inbounds[i]) <==> s.inbounds[i].id != "" && s.inbounds[i].tag != "" && s.inbounds[i].protocol != ""
    {
    }
  }

  /** What it then holds: the statistics levels of the enabled users and level zero, the document of each inbound in order, the
      outbounds, DNS, and the routing object. */
  lemma ConfigHolds(s: DesiredState)
    requires ConfigOf(s).Ok?
    ensures var cfg := ConfigOf(s).value;
            && (forall level :: level in cfg.levels <==>
                  level == 0 || exists i, j :: 0 <= i < |s.inbounds| && 0 <= j < |s.inbounds[i].users| &&
                                               s.inbounds[i].users[j].enabled && s.inbounds[i].users[j].level == level)
            && |cfg.inbounds| == |s.inbounds| && (forall i :: 0 <= i < |s.inbounds| ==> InboundDocument(s.inbounds[i]) == Ok(cfg.inbounds[i]))
            && HasOutbounds(cfg.outbounds, s.outbounds)
            && (cfg.dns == if s.dns.Document? then Some(s.dns.value) else None)
            && RoutingOf(s.routing, ManagedRules(s.inbounds, |s.inbounds|)) == Ok(cfg.routing)
  {
    OutboundsMeaning(s.outbounds);
    ConfigBuilds(s);
    forall level ensures level in Levels(s) <==>
                  level == 0 || exists i, j :: 0 <= i < |s.inbounds| && 0 <= j < |s.inbounds[i].users| &&
                                               s.inbounds[i].users[j].enabled && s.inbounds[i].users[j].level == level {
      InboundLevelsMeaning(s.inbounds, |s.inbounds|, level);
    }
    forall i | 0 <= i < |s.inbounds| ensures InboundDocument(s.inbounds[i]) == Ok(Bodies(s.inbounds, |s.inbounds|)[i]) {
      BodiesAt(s.inbounds, |s.inbounds|, i);
    }
  }
}
