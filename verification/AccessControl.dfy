/** The access control bridge: roles, pairing, channel policies and hot reload, as values. */
module AccessRules {
  import opened Wrappers

  datatype DmPolicy = Pairing | Allowlist | Open | Disabled

  datatype Role = Role(name: string, permissions: seq<string>, scopes: seq<string>)

  datatype Mapping = Mapping(userId: string, role: string)

  datatype Override = Override(dmPolicy: Option<DmPolicy>, roles: seq<Role>)

  datatype Auth = Auth(roles: seq<Role>, mappings: seq<Mapping>, overrides: map<string, Override>)

  datatype Channel = Channel(dmPolicy: DmPolicy, allowFrom: seq<string>)

  datatype Config = Config(auth: Option<Auth>, telegram: Option<Channel>, slack: Option<Channel>)

  datatype Policy = Policy(dmPolicy: DmPolicy, allowList: set<string>, roles: seq<Role>)

  datatype Bridge = Bridge(
    roles: map<string, Role>, userRoles: map<string, set<string>>, paired: set<string>, policies: map<string, Policy>)

  datatype Decision = Allowed | NotInAllowList | DmsDisabled | RequiresPairing

  const PAIRED_ROLE := "paired"
  const TELEGRAM := "telegram"
  const SLACK := "slack"
  const DEFAULT_POLICY := Policy(Pairing, {}, [])

  // ── Building from configuration ─────────────────────────────────

  function Named<V>(m: map<string, set<V>>, key: string): set<V> {
    if key in m then m[key] else {}
  }

  /** Later definitions of a role replace earlier ones. */
  function RoleTable(roles: seq<Role>): map<string, Role>
    decreases |roles|
  {
    if roles == [] then map[] else RoleTable(roles[..|roles| - 1])[roles[|roles| - 1].name := roles[|roles| - 1]]
  }

  function Assigned(mappings: seq<Mapping>): map<string, set<string>>
    decreases |mappings|
  {
    if mappings == [] then map[]
    else
      var rest, m := Assigned(mappings[..|mappings| - 1]), mappings[|mappings| - 1];
      rest[m.userId := Named(rest, m.userId) + {m.role}]
  }

  function FromOverride(o: Override): Policy {
    Policy(if o.dmPolicy.Some? then o.dmPolicy.value else Pairing, {}, o.roles)
  }

  function FromChannel(name: string, c: Option<Channel>): map<string, Policy> {
    if c.None? then map[] else map[name := Policy(c.value.dmPolicy, set u | u in c.value.allowFrom, [])]
  }

  /** An override in the auth section takes precedence over the channel's own settings. */
  function Policies(config: Config): map<string, Policy> {
    var fromAuth := if config.auth.None? then map[]
                    else map n | n in config.auth.value.overrides :: FromOverride(config.auth.value.overrides[n]);
    FromChannel(TELEGRAM, config.telegram) + FromChannel(SLACK, config.slack) + fromAuth
  }

  function New(config: Config): Bridge {
    if config.auth.None? then Bridge(map[], map[], {}, Policies(config))
    else Bridge(RoleTable(config.auth.value.roles), Assigned(config.auth.value.mappings), {}, Policies(config))
  }

  // ── Pairing and reload ──────────────────────────────────────────

  /** Pairing a set of users: each gets the paired role, on top of what it has. */
  function Pair(b: Bridge, users: set<string>): Bridge {
    b.(paired := b.paired + users,
       userRoles := map u | u in b.userRoles.Keys + users ::
         Named(b.userRoles, u) + if u in users then {PAIRED_ROLE} else {})
  }

  function MarkPaired(b: Bridge, user: string): Bridge {
    b.(paired := b.paired + {user}, userRoles := b.userRoles[user := Named(b.userRoles, user) + {PAIRED_ROLE}])
  }

  function Rebuild(b: Bridge, config: Config): Bridge {
    Pair(New(config), b.paired)
  }

  datatype Op = DoPair(user: string) | DoRebuild(config: Config)

  function Apply(b: Bridge, op: Op): Bridge {
    match op
    case DoPair(user) => MarkPaired(b, user)
    case DoRebuild(config) => Rebuild(b, config)
  }

  function ApplyAll(b: Bridge, ops: seq<Op>): Bridge
    decreases |ops|
  {
    if ops == [] then b else Apply(ApplyAll(b, ops[..|ops| - 1]), ops[|ops| - 1])
  }

  function LastConfig(initial: Config, ops: seq<Op>): Config
    decreases |ops|
  {
    if ops == [] then initial
    else if ops[|ops| - 1].DoRebuild? then ops[|ops| - 1].config
    else LastConfig(initial, ops[..|ops| - 1])
  }

  function EverPaired(ops: seq<Op>): set<string> {
    set i | 0 <= i < |ops| && ops[i].DoPair? :: ops[i].user
  }

  lemma PairNone(b: Bridge)
    ensures Pair(b, {}) == b
  {
    var p := Pair(b, {});
    assert forall u :: u in p.userRoles ==> p.userRoles[u] == b.userRoles[u] + {} == b.userRoles[u];
  }

  lemma PairOneMore(b: Bridge, users: set<string>, user: string)
    ensures MarkPaired(Pair(b, users), user) == Pair(b, users + {user})
  {
    var p, q := MarkPaired(Pair(b, users), user), Pair(b, users + {user});
    assert p.paired == q.paired;
    forall u | u in p.userRoles ensures u in q.userRoles && p.userRoles[u] == q.userRoles[u] {
    }
    assert p.userRoles.Keys == q.userRoles.Keys;
    assert p.userRoles == q.userRoles;
  }

  /**
   * After any interleaving of pairings and reloads the bridge is the one built from the last
   * configuration, with every user ever paired still paired.
   */
  lemma {:induction false} ReloadKeepsPairings(initial: Config, ops: seq<Op>)
    ensures ApplyAll(New(initial), ops) == Pair(New(LastConfig(initial, ops)), EverPaired(ops))
    decreases |ops|
  {
    if ops == [] {
      PairNone(New(initial));
    } else {
      var m := |ops| - 1;
      ReloadKeepsPairings(initial, ops[..m]);
      var before := EverPaired(ops[..m]);
      match ops[m] {
        case DoPair(user) =>
          assert EverPaired(ops) == before + {user} by { EverPairedLast(ops); }
          PairOneMore(New(LastConfig(initial, ops[..m])), before, user);
        case DoRebuild(config) =>
          assert EverPaired(ops) == before by { EverPairedLast(ops); }
      }
    }
  }

  lemma EverPairedLast(ops: seq<Op>)
    requires ops != []
    ensures var last := ops[|ops| - 1];
            EverPaired(ops) == EverPaired(ops[..|ops| - 1]) + if last.DoPair? then {last.user} else {}
  {
  }

  // ── Decisions ───────────────────────────────────────────────────

  function EvaluatePolicy(p: Policy, canonicalId: string, platformId: string, paired: set<string>): Decision {
    match p.dmPolicy
    case Open => Allowed
    case Allowlist => if canonicalId in p.allowList || platformId in p.allowList then Allowed else NotInAllowList
    case Pairing => if canonicalId in paired then Allowed else RequiresPairing
    case Disabled => DmsDisabled
  }

  function CheckMessageAccess(b: Bridge, channel: string, sender: string): Decision {
    var p := if channel in b.policies then b.policies[channel] else DEFAULT_POLICY;
    EvaluatePolicy(p, channel + ":" + sender, sender, b.paired)
  }

  /** The DM policy a configuration sets for a channel: an override's, else the channel's own, else pairing. */
  function DmPolicyOf(config: Config, channel: string): DmPolicy {
    if config.auth.Some? && channel in config.auth.value.overrides then
      var o := config.auth.value.overrides[channel];
      if o.dmPolicy.Some? then o.dmPolicy.value else Pairing
    else if channel == "telegram" && config.telegram.Some? then config.telegram.value.dmPolicy
    else if channel == "slack" && config.slack.Some? then config.slack.value.dmPolicy
    else Pairing
  }

  /** Whom a configuration lists for a channel; an override lists nobody. */
  predicate Listed(config: Config, channel: string, who: string) {
    && !(config.auth.Some? && channel in config.auth.value.overrides)
    && ((channel == "telegram" && config.telegram.Some? && who in config.telegram.value.allowFrom)
        || (channel == "slack" && config.slack.Some? && who in config.slack.value.allowFrom))
  }

  lemma PolicyMeans(config: Config, channel: string)
    ensures var p := if channel in Policies(config) then Policies(config)[channel] else DEFAULT_POLICY;
            && p.dmPolicy == DmPolicyOf(config, channel)
            && (forall who :: who in p.allowList <==> Listed(config, channel, who))
            && p.roles == if config.auth.Some? && channel in config.auth.value.overrides
                          then config.auth.value.overrides[channel].roles else []
  {
    assert FromChannel(TELEGRAM, config.telegram).Keys == if config.telegram.Some? then {"telegram"} else {};
    assert FromChannel(SLACK, config.slack).Keys == if config.slack.Some? then {"slack"} else {};
  }

  /**
   * Across any pairings and reloads, what a sender is told depends on the last configuration and on
   * who was ever paired: under an open policy everyone is let in, under an allowlist those listed by
   * their own or their canonical id, under pairing those ever paired under the canonical id.
   */
  lemma AccessAfterReloads(initial: Config, ops: seq<Op>, channel: string, sender: string)
    ensures var config := LastConfig(initial, ops);
            CheckMessageAccess(ApplyAll(New(initial), ops), channel, sender)
            == match DmPolicyOf(config, channel)
               case Open => Allowed
               case Disabled => DmsDisabled
               case Allowlist =>
                 if Listed(config, channel, sender) || Listed(config, channel, channel + ":" + sender)
                 then Allowed else NotInAllowList
               case Pairing => if channel + ":" + sender in EverPaired(ops) then Allowed else RequiresPairing
  {
    ReloadKeepsPairings(initial, ops);
    PolicyMeans(LastConfig(initial, ops), channel);
  }

  /** An allowlist set by an override carries no list, so it turns everyone away. */
  lemma OverrideAllowlistDeniesAll(initial: Config, ops: seq<Op>, channel: string, sender: string)
    requires var auth := LastConfig(initial, ops).auth;
             auth.Some? && channel in auth.value.overrides && auth.value.overrides[channel].dmPolicy == Some(Allowlist)
    ensures CheckMessageAccess(ApplyAll(New(initial), ops), channel, sender) == NotInAllowList
  {
    ReloadKeepsPairings(initial, ops);
  }

  // ── Roles ───────────────────────────────────────────────────────

  /** Position `i` holds the last definition of its role. */
  predicate LastDefinition(roles: seq<Role>, i: nat) {
    i < |roles| && forall j :: i < j < |roles| ==> roles[j].name != roles[i].name
  }

  lemma {:induction false} RoleTableMeans(roles: seq<Role>, name: string)
    ensures name in RoleTable(roles) <==> exists i :: 0 <= i < |roles| && roles[i].name == name
    ensures forall i: nat :: LastDefinition(roles, i) && roles[i].name == name ==>
              Get(RoleTable(roles), name) == Some(roles[i])
    decreases |roles|
  {
    if roles != [] {
      var m := |roles| - 1;
      RoleTableMeans(roles[..m], name);
      forall i: nat | LastDefinition(roles, i) && i < m ensures LastDefinition(roles[..m], i) {
      }
      assert forall i :: 0 <= i < m ==> roles[..m][i] == roles[i];
    }
  }

  lemma {:induction false} AssignedMeans(mappings: seq<Mapping>, user: string, role: string)
    ensures role in Named(Assigned(mappings), user) <==> Mapping(user, role) in mappings
    decreases |mappings|
  {
    if mappings != [] {
      var m := |mappings| - 1;
      AssignedMeans(mappings[..m], user, role);
      assert mappings == mappings[..m] + [mappings[m]];
    }
  }

  /**
   * Across any pairings and reloads a user has the roles the last configuration maps it to, and the
   * paired role if it was ever paired; a role is what its last definition there says.
   */
  lemma RolesAfterReloads(initial: Config, ops: seq<Op>, user: string, role: string)
    ensures var b := ApplyAll(New(initial), ops);
            var auth := LastConfig(initial, ops).auth;
            && (role in Named(b.userRoles, user) <==>
                  || (auth.Some? && Mapping(user, role) in auth.value.mappings)
                  || (role == "paired" && user in EverPaired(ops)))
            && (role in b.roles <==> auth.Some? && exists i :: 0 <= i < |auth.value.roles| && auth.value.roles[i].name == role)
            && (auth.Some? ==>
                  forall i: nat :: LastDefinition(auth.value.roles, i) && auth.value.roles[i].name == role ==>
                    Get(b.roles, role) == Some(auth.value.roles[i]))
  {
    ReloadKeepsPairings(initial, ops);
    var auth := LastConfig(initial, ops).auth;
    if auth.Some? {
      RoleTableMeans(auth.value.roles, role);
      AssignedMeans(auth.value.mappings, user, role);
    }
  }

  // ── Scopes ──────────────────────────────────────────────────────

  function ScopesOf(r: Role): set<string> { set s | s in r.scopes }

  /** What the static resolver is given: each mapping adds the scopes of its role, if that is defined. */
  function StaticScopes(roles: map<string, Role>, mappings: seq<Mapping>): map<string, set<string>>
    decreases |mappings|
  {
    if mappings == [] then map[]
    else
      var rest, m := StaticScopes(roles, mappings[..|mappings| - 1]), mappings[|mappings| - 1];
      if m.role in roles then rest[m.userId := Named(rest, m.userId) + ScopesOf(roles[m.role])] else rest
  }

  /** The scopes of the defined roles among `names`. */
  function RoleScopes(roles: map<string, Role>, names: set<string>): set<string> {
    set n, s | n in names && n in roles && s in roles[n].scopes :: s
  }

  /** A user's static scopes are those in the last definitions of the roles the mappings give it. */
  lemma StaticScopesMean(roles: seq<Role>, mappings: seq<Mapping>, user: string, scope: string)
    ensures scope in Named(StaticScopes(RoleTable(roles), mappings), user)
            <==> exists i: nat :: LastDefinition(roles, i) && Mapping(user, roles[i].name) in mappings
                                  && scope in roles[i].scopes
  {
    StaticScopesMatchRoles(RoleTable(roles), mappings, user);
    forall name
      ensures name in Named(Assigned(mappings), user) <==> Mapping(user, name) in mappings
      ensures name in RoleTable(roles) ==>
                exists i: nat :: LastDefinition(roles, i) && roles[i].name == name && RoleTable(roles)[name] == roles[i]
    {
      AssignedMeans(mappings, user, name);
      RoleTableMeans(roles, name);
      if name in RoleTable(roles) {
        var i := LastDefinitionOf(roles, name);
      }
    }
    forall i: nat | LastDefinition(roles, i) ensures Get(RoleTable(roles), roles[i].name) == Some(roles[i]) {
      RoleTableMeans(roles, roles[i].name);
    }
  }

  lemma {:induction false} LastDefinitionOf(roles: seq<Role>, name: string) returns (i: nat)
    requires exists j :: 0 <= j < |roles| && roles[j].name == name
    ensures LastDefinition(roles, i) && roles[i].name == name
    decreases |roles|
  {
    i := |roles| - 1;
    if roles[i].name != name {
      var j :| 0 <= j < |roles| && roles[j].name == name;
      assert roles[..i][j].name == name;
      i := LastDefinitionOf(roles[..i], name);
    }
  }

  /** At startup a user's static scopes are those of the bridge's defined roles for that user. */
  lemma {:induction false} StaticScopesMatchRoles(roles: map<string, Role>, mappings: seq<Mapping>, user: string)
    ensures Named(StaticScopes(roles, mappings), user) == RoleScopes(roles, Named(Assigned(mappings), user))
    decreases |mappings|
  {
    if mappings != [] {
      var k := |mappings| - 1;
      StaticScopesMatchRoles(roles, mappings[..k], user);
    }
  }
}

/** The bridge object, and the loops that fill its maps. */
module AccessControl {
  import opened AccessRules

  method LoadAuthConfig(auth: Auth) returns (roles: map<string, Role>, userRoles: map<string, set<string>>)
    ensures roles == RoleTable(auth.roles) && userRoles == Assigned(auth.mappings)
  {
    roles, userRoles := map[], map[];
    for i := 0 to |auth.roles|
      invariant roles == RoleTable(auth.roles[..i])
    {
      assert auth.roles[..i + 1][..i] == auth.roles[..i];
      roles := roles[auth.roles[i].name := auth.roles[i]];
    }
    assert auth.roles[..|auth.roles|] == auth.roles;
    for i := 0 to |auth.mappings|
      invariant userRoles == Assigned(auth.mappings[..i])
    {
      assert auth.mappings[..i + 1][..i] == auth.mappings[..i];
      var m := auth.mappings[i];
      userRoles := userRoles[m.userId := Named(userRoles, m.userId) + {m.role}];
    }
    assert auth.mappings[..|auth.mappings|] == auth.mappings;
  }

  method LoadPolicies(config: Config) returns (policies: map<string, Policy>)
    ensures policies == Policies(config)
  {
    policies := map[];
    if config.auth.Some? {
      policies := map n | n in config.auth.value.overrides :: FromOverride(config.auth.value.overrides[n]);
    }
    if config.telegram.Some? && TELEGRAM !in policies {
      policies := policies[TELEGRAM := Policy(config.telegram.value.dmPolicy, set u | u in config.telegram.value.allowFrom, [])];
    }
    if config.slack.Some? && SLACK !in policies {
      policies := policies[SLACK := Policy(config.slack.value.dmPolicy, set u | u in config.slack.value.allowFrom, [])];
    }
  }

  /** The scope map handed to the static resolver at startup: what the bridge's roles grant each user. */
  method BuildStaticScopes(config: Config) returns (scopes: map<string, set<string>>)
    ensures forall user ::
              Named(scopes, user) == RoleScopes(New(config).roles, Named(New(config).userRoles, user))
  {
    scopes := map[];
    if config.auth.Some? {
      var auth := config.auth.value;
      var roleMap, _ := LoadAuthConfig(auth);
      for i := 0 to |auth.mappings|
        invariant scopes == StaticScopes(roleMap, auth.mappings[..i])
      {
        assert auth.mappings[..i + 1][..i] == auth.mappings[..i];
        var m := auth.mappings[i];
        if m.role in roleMap {
          scopes := scopes[m.userId := Named(scopes, m.userId) + ScopesOf(roleMap[m.role])];
        }
      }
      assert auth.mappings[..|auth.mappings|] == auth.mappings;
      forall user ensures Named(scopes, user) == RoleScopes(roleMap, Named(New(config).userRoles, user)) {
        StaticScopesMatchRoles(roleMap, auth.mappings, user);
      }
    }
  }

  class AccessControlBridge {
    var roles: map<string, Role>
    var userRoles: map<string, set<string>>
    var pairedUsers: set<string>
    var policies: map<string, Policy>

    function View(): Bridge
      reads this
    {
      Bridge(roles, userRoles, pairedUsers, policies)
    }

    constructor (config: Config)
      ensures View() == New(config)
    {
      roles, userRoles, pairedUsers, policies := map[], map[], {}, map[];
      new;
      if config.auth.Some? {
        roles, userRoles := LoadAuthConfig(config.auth.value);
      }
      policies := LoadPolicies(config);
    }

    method MarkPaired(canonicalId: string)
      modifies this`pairedUsers, this`userRoles
      ensures View() == AccessRules.MarkPaired(old(View()), canonicalId)
    {
      pairedUsers := pairedUsers + {canonicalId};
      userRoles := userRoles[canonicalId := Named(userRoles, canonicalId) + {PAIRED_ROLE}];
    }

    method Rebuild(config: Config)
      modifies this
      ensures View() == AccessRules.Rebuild(old(View()), config)
    {
      var newRoles: map<string, Role>, newUserRoles: map<string, set<string>> := map[], map[];
      if config.auth.Some? {
        newRoles, newUserRoles := LoadAuthConfig(config.auth.value);
      }
      var newPolicies := LoadPolicies(config);
      ghost var built, done: set<string> := New(config), {};
      var todo := pairedUsers;
      PairNone(built);
      while todo != {}
        invariant pairedUsers == old(pairedUsers) && done + todo == pairedUsers
        invariant newUserRoles == Pair(built, done).userRoles
        decreases todo
      {
        var id :| id in todo;
        PairOneMore(built, done, id);
        todo, done := todo - {id}, done + {id};
        newUserRoles := newUserRoles[id := Named(newUserRoles, id) + {PAIRED_ROLE}];
      }
      roles, userRoles, policies := newRoles, newUserRoles, newPolicies;
    }
  }
}

