/** Resolving the configured keys and tenants into the ring requests are decided against. */
module KeyLoader {
  import opened Wrappers
  import opened IndexScope

  // ----- Roles

  datatype Capability = Read | Write | IndexAdmin | NodeAdmin | KeyManage

  datatype Role = Admin | Writer | Reader | Provisioner

  function Capabilities(role: Role): set<Capability> {
    match role
    case Admin => {Read, Write, IndexAdmin, NodeAdmin, KeyManage}
    case Writer => {Read, Write}
    case Reader => {Read}
    case Provisioner => {KeyManage}
  }

  // ----- Configuration and resolved keys. A digest is a value that can only be compared.

  type Digest = nat

  /** One configured key. `hash` is `None` when the entry names no usable digest. */
  datatype KeyConfig = KeyConfig(
    hash: Option<Digest>,
    role: Option<Role>,
    allowedIndexes: Option<seq<string>>,
    overrides: seq<(string, Role)>,
    tenant: Option<string>,
    allowedTenants: Option<seq<string>>)

  datatype TenantConfig = TenantConfig(name: string, allowedIndexes: Option<seq<string>>)

  datatype KeyEntry = KeyEntry(
    digest: Digest,
    role: Role,
    allowed: Option<Scope>,
    overrides: map<string, Role>,
    tenant: Option<string>,
    tenantScope: Option<Scope>,
    allowedTenants: Option<Scope>)
  {
    predicate Has(capability: Capability) {
      capability in Capabilities(role)
    }

    predicate HasOn(capability: Capability, index: string) {
      capability in Capabilities(if index in overrides then overrides[index] else role)
    }

    predicate IsIndexScoped() {
      allowed.Some? || tenantScope.Some?
    }

    predicate AllowsIndex(index: string) {
      (allowed.Some? ==> Allows(allowed.value, index)) && (tenantScope.Some? ==> Allows(tenantScope.value, index))
    }

    /** Whether a grant of these indexes would reach past this key; an unreadable list is left to the store. */
    predicate GrantOutside(grant: Option<seq<string>>) {
      IsIndexScoped()
      && (grant.None?
          || (ParseScope(grant.value).Ok?
              && var scope := ParseScope(grant.value).value;
                 || (allowed.Some? && FirstOutside(allowed.value, scope).Some?)
                 || (tenantScope.Some? && FirstOutside(tenantScope.value, scope).Some?)))
    }
  }

  datatype KeyRing = KeyRing(enabled: bool, entries: seq<KeyEntry>)

  datatype LoadError =
    | BadScope(error: ScopeError)
    | SharedIndexes(tenant: string, other: string)
    | NoHash
    | NoRole
    | TenantsWithoutKeyManage
    | EmptyOverride
    | Widening
    | UnreachableOverride
    | OverrideTwice
    | SameKeyTwice
    | EmptyTenant
    | OutsideTenant

  // ----- Tenants

  type TenantScopes = map<string, Scope>

  /** No index name is allowed by the scopes of two tenants. */
  ghost predicate Apart(scopes: TenantScopes) {
    forall s, t, index :: s in scopes && t in scopes && s != t ==>
      !(Allows(scopes[s], index) && Allows(scopes[t], index))
  }

  ghost predicate ScopesOf(tenants: seq<TenantConfig>, scopes: TenantScopes) {
    && (forall t :: t in tenants && t.allowedIndexes.Some? ==>
          t.name in scopes && ParseScope(t.allowedIndexes.value) == Ok(scopes[t.name]))
    && (forall name :: name in scopes ==> exists t :: t in tenants && t.name == name && t.allowedIndexes.Some?)
  }

  /** The scopes the tenants are configured with. */
  function ConfiguredScopes(tenants: seq<TenantConfig>): TenantScopes {
    if tenants == [] then map[]
    else
      var front, last := ConfiguredScopes(tenants[..|tenants| - 1]), tenants[|tenants| - 1];
      if last.allowedIndexes.None? || ParseScope(last.allowedIndexes.value).Err? then front
      else front[last.name := ParseScope(last.allowedIndexes.value).value]
  }

  lemma ConfiguredSnoc(tenants: seq<TenantConfig>, k: nat)
    requires k < |tenants|
    ensures var t := tenants[k];
            ConfiguredScopes(tenants[..k + 1])
            == if t.allowedIndexes.None? || ParseScope(t.allowedIndexes.value).Err? then ConfiguredScopes(tenants[..k])
               else ConfiguredScopes(tenants[..k])[t.name := ParseScope(t.allowedIndexes.value).value]
  {
    assert tenants[..k + 1][..k] == tenants[..k];
  }

  ghost predicate NamesDistinct(tenants: seq<TenantConfig>) {
    forall i, j :: 0 <= i < j < |tenants| ==> tenants[i].name != tenants[j].name
  }

  /** `index` is in the tenant's configured scope. */
  predicate InScope(t: TenantConfig, index: string) {
    && t.allowedIndexes.Some? && ParseScope(t.allowedIndexes.value).Ok?
    && Allows(ParseScope(t.allowedIndexes.value).value, index)
  }

  /** The configured scopes can stand together: each list is readable and no two share an index name. */
  ghost predicate TenantsFit(tenants: seq<TenantConfig>) {
    && (forall t :: t in tenants && t.allowedIndexes.Some? ==> ParseScope(t.allowedIndexes.value).Ok?)
    && (forall s, t, index :: s in tenants && t in tenants && s != t ==> !(InScope(s, index) && InScope(t, index)))
  }

  /** The first tenant already in `scopes`, in the order they came, that shares an index with `scope`. */
  method FindOverlap(scope: Scope, names: seq<string>, scopes: TenantScopes) returns (r: Option<string>)
    requires forall n :: n in names <==> n in scopes
    ensures r.None? <==> forall n, index :: n in scopes ==> !(Allows(scope, index) && Allows(scopes[n], index))
    ensures r.Some? ==> r.value in scopes && exists index :: Allows(scope, index) && Allows(scopes[r.value], index)
  {
    for k := 0 to |names|
      invariant forall i, index :: 0 <= i < k ==> !(Allows(scope, index) && Allows(scopes[names[i]], index))
    {
      OverlapIsSharedIndex(scope, scopes[names[k]]);
      if OverlapWith(scope, scopes[names[k]]).Some? {
        return Some(names[k]);
      }
    }
    return None;
  }

  lemma ScopesFit(tenants: seq<TenantConfig>, scopes: TenantScopes)
    requires NamesDistinct(tenants) && ScopesOf(tenants, scopes) && Apart(scopes)
    ensures TenantsFit(tenants)
  {
  }

  lemma SharedDoesNotFit(tenants: seq<TenantConfig>, k: nat, scopes: TenantScopes, scope: Scope, other: string,
                         index: string)
    requires k < |tenants| && NamesDistinct(tenants) && ScopesOf(tenants[..k], scopes)
    requires tenants[k].allowedIndexes.Some? && ParseScope(tenants[k].allowedIndexes.value) == Ok(scope)
    requires other in scopes && Allows(scope, index) && Allows(scopes[other], index)
    ensures !TenantsFit(tenants)
  {
    var s :| s in tenants[..k] && s.name == other && s.allowedIndexes.Some?;
    assert s in tenants && tenants[k] in tenants && s != tenants[k];
    assert InScope(s, index) && InScope(tenants[k], index);
  }

  lemma OneMoreTenant(tenants: seq<TenantConfig>, k: nat, scopes: TenantScopes, scope: Scope)
    requires k < |tenants| && NamesDistinct(tenants) && ScopesOf(tenants[..k], scopes) && Apart(scopes)
    requires tenants[k].allowedIndexes.Some? && ParseScope(tenants[k].allowedIndexes.value) == Ok(scope)
    requires forall n, index :: n in scopes ==> !(Allows(scope, index) && Allows(scopes[n], index))
    ensures ScopesOf(tenants[..k + 1], scopes[tenants[k].name := scope]) && Apart(scopes[tenants[k].name := scope])
  {
  }

  /** Tenant scopes load exactly when each list is readable and no index name falls to two tenants. */
  method LoadTenantScopes(tenants: seq<TenantConfig>) returns (r: Result<TenantScopes, LoadError>)
    requires NamesDistinct(tenants)
    ensures r.Ok? <==> TenantsFit(tenants)
    ensures r.Ok? ==> r.value == ConfiguredScopes(tenants) && ScopesOf(tenants, r.value) && Apart(r.value)
  {
    var scopes: TenantScopes, names: seq<string> := map[], [];
    for k := 0 to |tenants|
      invariant scopes == ConfiguredScopes(tenants[..k]) && ScopesOf(tenants[..k], scopes) && Apart(scopes)
      invariant forall n :: n in names <==> n in scopes
    {
      ConfiguredSnoc(tenants, k);
      assert tenants[..k + 1] == tenants[..k] + [tenants[k]];
      var t := tenants[k];
      if t.allowedIndexes.None? {
        continue;
      }
      var parsed := ParseScope(t.allowedIndexes.value);
      if parsed.Err? {
        assert t in tenants;
        return Err(BadScope(parsed.error));
      }
      var overlap := FindOverlap(parsed.value, names, scopes);
      if overlap.Some? {
        ghost var index :| Allows(parsed.value, index) && Allows(scopes[overlap.value], index);
        SharedDoesNotFit(tenants, k, scopes, parsed.value, overlap.value, index);
        return Err(SharedIndexes(t.name, overlap.value));
      }
      OneMoreTenant(tenants, k, scopes, parsed.value);
      scopes, names := scopes[t.name := parsed.value], names + [t.name];
    }
    assert tenants[..|tenants|] == tenants;
    ScopesFit(tenants, scopes);
    return Ok(scopes);
  }

  // ----- Keys

  function TrimNames(list: seq<(string, Role)>): seq<(string, Role)> {
    seq(|list|, k requires 0 <= k < |list| => (Trimmed(list[k].0), list[k].1))
  }

  /** `m` is the override table as listed: no name empty, none named twice. */
  ghost predicate OverridesOf(list: seq<(string, Role)>, m: map<string, Role>) {
    && (forall o :: o in list ==> o.0 != "" && o.0 in m && m[o.0] == o.1)
    && (forall j, k :: 0 <= j < k < |list| ==> list[j].0 != list[k].0)
    && (forall name :: name in m ==> (name, m[name]) in list)
  }

  /** Every override takes away only, and names an index of `allowed`. */
  ghost predicate OverridesSubtract(m: map<string, Role>, role: Role, allowed: Option<Scope>) {
    forall name :: name in m ==>
      Capabilities(m[name]) <= Capabilities(role) && (allowed.Some? ==> Allows(allowed.value, name))
  }

  /** What refuses the k-th override, given the table of those before it. */
  predicate BadOverride(list: seq<(string, Role)>, k: nat, m: map<string, Role>, role: Role, allowed: Option<Scope>)
    requires k < |list|
  {
    var name := list[k].0;
    || name == ""
    || !(Capabilities(list[k].1) <= Capabilities(role))
    || (allowed.Some? && !Allows(allowed.value, name))
    || name in m
  }

  lemma BadOverrideRefuses(list: seq<(string, Role)>, k: nat, m: map<string, Role>, role: Role, allowed: Option<Scope>)
    requires k < |list| && OverridesOf(list[..k], m) && BadOverride(list, k, m, role, allowed)
    ensures forall m' :: OverridesOf(list, m') ==> !OverridesSubtract(m', role, allowed)
  {
  }

  method ResolveOverrides(list: seq<(string, Role)>, role: Role, allowed: Option<Scope>)
    returns (r: Result<map<string, Role>, LoadError>)
    ensures r.Ok? ==> OverridesOf(list, r.value) && OverridesSubtract(r.value, role, allowed)
    ensures r.Err? ==> forall m :: OverridesOf(list, m) ==> !OverridesSubtract(m, role, allowed)
  {
    var m: map<string, Role> := map[];
    for k := 0 to |list|
      invariant OverridesOf(list[..k], m) && OverridesSubtract(m, role, allowed)
    {
      var name, override := list[k].0, list[k].1;
      if BadOverride(list, k, m, role, allowed) {
        BadOverrideRefuses(list, k, m, role, allowed);
        return Err(if name == "" then EmptyOverride
                   else if !(Capabilities(override) <= Capabilities(role)) then Widening
                   else if allowed.Some? && !Allows(allowed.value, name) then UnreachableOverride
                   else OverrideTwice);
      }
      OneMoreOverride(list, k, m);
      m := m[name := override];
    }
    assert list[..|list|] == list;
    return Ok(m);
  }

  lemma OneMoreOverride(list: seq<(string, Role)>, k: nat, m: map<string, Role>)
    requires k < |list| && OverridesOf(list[..k], m) && list[k].0 != "" && list[k].0 !in m
    ensures OverridesOf(list[..k + 1], m[list[k].0 := list[k].1])
  {
  }

  ghost predicate ScopeOf(list: Option<seq<string>>, scope: Option<Scope>) {
    if list.None? then scope.None? else scope.Some? && ParseScope(list.value) == Ok(scope.value)
  }

  function LookUp(scopes: TenantScopes, tenant: Option<string>): Option<Scope> {
    if tenant.Some? && tenant.value in scopes then Some(scopes[tenant.value]) else None
  }

  /** `e` is the key `config` describes. */
  ghost predicate Describes(config: KeyConfig, scopes: TenantScopes, e: KeyEntry) {
    && config.hash == Some(e.digest) && config.role == Some(e.role)
    && ScopeOf(config.allowedIndexes, e.allowed) && ScopeOf(config.allowedTenants, e.allowedTenants)
    && OverridesOf(TrimNames(config.overrides), e.overrides)
    && e.tenant == (if config.tenant.None? then None else Some(Trimmed(config.tenant.value)))
    && e.tenant != Some("")
    && e.tenantScope == LookUp(scopes, e.tenant)
  }

  /** What a loaded key may rely on: overrides subtract on reachable indexes, and its own list stays in its tenant's. */
  ghost predicate EntrySound(e: KeyEntry) {
    && (forall name :: name in e.overrides ==>
          Capabilities(e.overrides[name]) <= Capabilities(e.role) && e.AllowsIndex(name))
    && (e.allowed.Some? && e.tenantScope.Some? ==> FirstOutside(e.tenantScope.value, e.allowed.value).None?)
    && (e.allowedTenants.Some? ==> e.Has(KeyManage))
  }

  /** No entry both fits the configuration and is sound: the configuration has to be refused. */
  ghost predicate Unresolvable(config: KeyConfig, scopes: TenantScopes) {
    forall e :: Describes(config, scopes, e) ==> !EntrySound(e)
  }

  lemma DescribesOne(config: KeyConfig, scopes: TenantScopes, e: KeyEntry, f: KeyEntry)
    requires Describes(config, scopes, e) && Describes(config, scopes, f)
    ensures e == f
  {
  }

  lemma BadOverrides(config: KeyConfig, scopes: TenantScopes, allowed: Option<Scope>, role: Role)
    requires config.role == Some(role) && ScopeOf(config.allowedIndexes, allowed)
    requires forall m :: OverridesOf(TrimNames(config.overrides), m) ==> !OverridesSubtract(m, role, allowed)
    ensures Unresolvable(config, scopes)
  {
  }

  lemma UnsoundIsRefused(config: KeyConfig, scopes: TenantScopes, e: KeyEntry)
    requires Describes(config, scopes, e) && !EntrySound(e)
    ensures Unresolvable(config, scopes)
  {
    forall f | Describes(config, scopes, f)
      ensures !EntrySound(f)
    {
      DescribesOne(config, scopes, e, f);
    }
  }

  function ParseOptional(list: Option<seq<string>>): (r: Result<Option<Scope>, ScopeError>)
    ensures r.Ok? ==> ScopeOf(list, r.value)
    ensures r.Err? ==> forall scope :: !ScopeOf(list, scope)
  {
    if list.None? then Ok(None)
    else match ParseScope(list.value)
         case Ok(scope) => Ok(Some(scope))
         case Err(e) => Err(e)
  }

  /** The checks a key's tenant adds, once the tenant is known. */
  method CheckTenant(config: KeyConfig, scopes: TenantScopes, e: KeyEntry) returns (r: Result<KeyEntry, LoadError>)
    requires Describes(config, scopes, e) && OverridesSubtract(e.overrides, e.role, e.allowed)
    requires e.allowedTenants.Some? ==> e.Has(KeyManage)
    ensures r.Ok? ==> r.value == e && EntrySound(e)
    ensures r.Err? ==> Unresolvable(config, scopes)
  {
    if e.tenantScope.Some? {
      if e.allowed.Some? && FirstOutside(e.tenantScope.value, e.allowed.value).Some? {
        UnsoundIsRefused(config, scopes, e);
        return Err(OutsideTenant);
      }
      if exists name :: name in e.overrides && !Allows(e.tenantScope.value, name) {
        UnsoundIsRefused(config, scopes, e);
        return Err(OutsideTenant);
      }
    }
    return Ok(e);
  }

  /** Scopes and the override table of one entry, or what is wrong with them. */
  method ResolveParts(config: KeyConfig, role: Role)
    returns (r: Result<(Option<Scope>, Option<Scope>, map<string, Role>), LoadError>)
    requires config.role == Some(role)
    ensures r.Ok? ==>
              && ScopeOf(config.allowedIndexes, r.value.0) && ScopeOf(config.allowedTenants, r.value.1)
              && (r.value.1.Some? ==> KeyManage in Capabilities(role))
              && OverridesOf(TrimNames(config.overrides), r.value.2) && OverridesSubtract(r.value.2, role, r.value.0)
    ensures r.Err? ==> forall scopes :: Unresolvable(config, scopes)
  {
    var allowed := ParseOptional(config.allowedIndexes);
    if allowed.Err? {
      return Err(BadScope(allowed.error));
    }
    var allowedTenants := ParseOptional(config.allowedTenants);
    if allowedTenants.Err? {
      return Err(BadScope(allowedTenants.error));
    }
    if allowedTenants.value.Some? && KeyManage !in Capabilities(role) {
      return Err(TenantsWithoutKeyManage);
    }
    var overrides := ResolveOverrides(TrimNames(config.overrides), role, allowed.value);
    if overrides.Err? {
      forall scopes
        ensures Unresolvable(config, scopes)
      {
        BadOverrides(config, scopes, allowed.value, role);
      }
      return Err(overrides.error);
    }
    return Ok((allowed.value, allowedTenants.value, overrides.value));
  }

  /** An entry resolves to the one key it describes, or no key that it describes would be sound. */
  method ResolveEntry(config: KeyConfig, scopes: TenantScopes) returns (r: Result<KeyEntry, LoadError>)
    ensures r.Ok? ==> Describes(config, scopes, r.value) && EntrySound(r.value)
    ensures r.Err? ==> Unresolvable(config, scopes)
  {
    if config.hash.None? {
      return Err(NoHash);
    }
    if config.role.None? {
      return Err(NoRole);
    }
    var parts := ResolveParts(config, config.role.value);
    if parts.Err? {
      return Err(parts.error);
    }
    var (allowed, allowedTenants, overrides) := parts.value;
    var tenant := if config.tenant.None? then None else Some(Trimmed(config.tenant.value));
    if tenant == Some("") {
      return Err(EmptyTenant);
    }
    var e := KeyEntry(config.hash.value, config.role.value, allowed, overrides, tenant, LookUp(scopes, tenant),
                      allowedTenants);
    r := CheckTenant(config, scopes, e);
  }

  // ----- The ring

  /** A loaded ring: the keys the entries describe, each sound, no digest twice, tenant scopes apart. */
  ghost predicate RingOf(ring: KeyRing, configs: seq<KeyConfig>, scopes: TenantScopes) {
    && Apart(scopes) && |ring.entries| == |configs|
    && (forall i :: 0 <= i < |configs| ==> Describes(configs[i], scopes, ring.entries[i]))
    && RingSound(ring, scopes)
  }

  ghost predicate RingSound(ring: KeyRing, scopes: TenantScopes) {
    && Apart(scopes)
    && (forall e :: e in ring.entries ==> EntrySound(e) && e.tenantScope == LookUp(scopes, e.tenant))
    && (forall i, j :: 0 <= i < j < |ring.entries| ==> ring.entries[i].digest != ring.entries[j].digest)
  }

  /** Why these entries cannot load: one of them cannot be resolved, or two name one key. */
  ghost predicate KeysClash(configs: seq<KeyConfig>, scopes: TenantScopes) {
    || (exists c :: c in configs && Unresolvable(c, scopes))
    || (exists i, j :: 0 <= i < j < |configs| && configs[i].hash.Some? && configs[i].hash == configs[j].hash)
  }

  lemma DigestTaken(configs: seq<KeyConfig>, scopes: TenantScopes, ring: KeyRing, k: nat, e: KeyEntry, at: nat)
    requires k < |configs| && RingOf(ring, configs[..k], scopes) && Describes(configs[k], scopes, e)
    requires at < k && ring.entries[at].digest == e.digest
    ensures KeysClash(configs, scopes)
  {
  }

  lemma OneMoreKey(configs: seq<KeyConfig>, scopes: TenantScopes, ring: KeyRing, k: nat, e: KeyEntry)
    requires k < |configs| && RingOf(ring, configs[..k], scopes) && Describes(configs[k], scopes, e) && EntrySound(e)
    requires forall f :: f in ring.entries ==> f.digest != e.digest
    ensures RingOf(ring.(entries := ring.entries + [e]), configs[..k + 1], scopes)
  {
    var after := ring.entries + [e];
    assert configs[..k + 1] == configs[..k] + [configs[k]];
    forall i, j | 0 <= i < j < |after|
      ensures after[i].digest != after[j].digest
    {
      if j == |ring.entries| {
        assert ring.entries[i] in ring.entries;
      }
    }
  }

  /**
    The whole key configuration: tenants first, then every entry in order. It loads exactly when the
    tenants fit, every entry describes a sound key and no two entries name the same key.
   */
  method LoadKeyRing(enabled: bool, tenants: seq<TenantConfig>, configs: seq<KeyConfig>)
    returns (r: Result<KeyRing, LoadError>)
    requires NamesDistinct(tenants)
    ensures r.Ok? <==> TenantsFit(tenants) && !KeysClash(configs, ConfiguredScopes(tenants))
    ensures r.Ok? ==> RingOf(r.value, configs, ConfiguredScopes(tenants)) && r.value.enabled == enabled
  {
    var loaded := LoadTenantScopes(tenants);
    if loaded.Err? {
      return Err(loaded.error);
    }
    var scopes := loaded.value;
    var ring := KeyRing(enabled, []);
    for k := 0 to |configs|
      invariant ring.enabled == enabled && RingOf(ring, configs[..k], scopes)
    {
      var entry := ResolveEntry(configs[k], scopes);
      if entry.Err? {
        assert configs[k] in configs;
        return Err(entry.error);
      }
      var taken := exists f :: f in ring.entries && f.digest == entry.value.digest;
      if taken {
        ghost var at :| 0 <= at < |ring.entries| && ring.entries[at].digest == entry.value.digest;
        DigestTaken(configs, scopes, ring, k, entry.value, at);
        return Err(SameKeyTwice);
      }
      OneMoreKey(configs, scopes, ring, k, entry.value);
      ring := ring.(entries := ring.entries + [entry.value]);
    }
    assert configs[..|configs|] == configs;
    RingMeansNoClash(ring, configs, scopes);
    return Ok(ring);
  }

  lemma RingMeansNoClash(ring: KeyRing, configs: seq<KeyConfig>, scopes: TenantScopes)
    requires RingOf(ring, configs, scopes)
    ensures !KeysClash(configs, scopes)
  {
  }

  // ----- What a key is, read off its configuration

  /** The list, where there is one, says this name. */
  ghost predicate ListSays(list: Option<seq<string>>, index: string) {
    list.Some? ==> exists entry :: entry in Written(list.value) && Says(entry, index)
  }

  /** A key reaches exactly the names that its own list and its tenant's, where they are given, say. */
  lemma ReachIsConfigured(config: KeyConfig, tenants: seq<TenantConfig>, scopes: TenantScopes, e: KeyEntry,
                          index: string)
    requires Describes(config, scopes, e) && ScopesOf(tenants, scopes)
    ensures e.AllowsIndex(index)
            <==> && ListSays(config.allowedIndexes, index)
                 && forall t :: t in tenants && config.tenant.Some? && t.name == Trimmed(config.tenant.value) ==>
                      ListSays(t.allowedIndexes, index)
  {
    if config.allowedIndexes.Some? {
      AllowsAsWritten(config.allowedIndexes.value, index);
    }
    if config.tenant.Some? {
      TenantSays(tenants, scopes, Trimmed(config.tenant.value), index);
    }
  }

  lemma TenantSays(tenants: seq<TenantConfig>, scopes: TenantScopes, name: string, index: string)
    requires ScopesOf(tenants, scopes)
    ensures (name in scopes ==> Allows(scopes[name], index))
            <==> forall t :: t in tenants && t.name == name ==> ListSays(t.allowedIndexes, index)
  {
    forall t | t in tenants && t.name == name && t.allowedIndexes.Some?
      ensures name in scopes && (Allows(scopes[name], index) <==> ListSays(t.allowedIndexes, index))
    {
      AllowsAsWritten(t.allowedIndexes.value, index);
    }
  }

  /** On an index with an override the override's role counts, elsewhere the key's own. */
  lemma RoleIsConfigured(config: KeyConfig, scopes: TenantScopes, e: KeyEntry, capability: Capability, index: string)
    requires Describes(config, scopes, e)
    ensures forall o :: o in config.overrides && Trimmed(o.0) == index ==>
              (e.HasOn(capability, index) <==> capability in Capabilities(o.1))
    ensures (forall o :: o in config.overrides ==> Trimmed(o.0) != index) ==>
              (e.HasOn(capability, index) <==> capability in Capabilities(config.role.value))
  {
    var list := TrimNames(config.overrides);
    forall o | o in config.overrides && Trimmed(o.0) == index
      ensures (index, o.1) in list
    {
      var k :| 0 <= k < |config.overrides| && config.overrides[k] == o;
      assert list[k] == (index, o.1);
    }
    if index in e.overrides {
      assert (index, e.overrides[index]) in list;
      var k :| 0 <= k < |list| && list[k] == (index, e.overrides[index]);
      assert config.overrides[k] in config.overrides;
    }
  }

  // ----- What a loaded ring guarantees

  /** No index is reachable by keys of two different scoped tenants. */
  lemma TenantsNeverShareAnIndex(ring: KeyRing, scopes: TenantScopes, e: KeyEntry, f: KeyEntry, index: string)
    requires RingSound(ring, scopes) && e in ring.entries && f in ring.entries
    requires e.tenantScope.Some? && f.tenantScope.Some? && e.tenant != f.tenant
    ensures !(e.AllowsIndex(index) && f.AllowsIndex(index))
  {
    assert !(Allows(scopes[e.tenant.value], index) && Allows(scopes[f.tenant.value], index));
  }

  /** A key with a list of its own is decided by that list alone: the tenant's scope takes nothing more away. */
  lemma OwnListDecides(e: KeyEntry, index: string)
    requires EntrySound(e) && e.allowed.Some?
    ensures e.AllowsIndex(index) <==> Allows(e.allowed.value, index)
  {
    if e.tenantScope.Some? {
      NothingOutsideIsIncluded(e.tenantScope.value, e.allowed.value);
    }
  }

  /** An override never adds: what a key may do on an index, its role may do. */
  lemma OverridesOnlySubtract(e: KeyEntry, capability: Capability, index: string)
    requires EntrySound(e) && e.HasOn(capability, index)
    ensures e.Has(capability)
  {
  }

  /** A grant that is not outside its granter reaches no index the granter cannot reach. */
  lemma GrantStaysInside(e: KeyEntry, grant: Option<seq<string>>, index: string)
    requires !e.GrantOutside(grant)
    ensures grant.None? ==> e.AllowsIndex(index)
    ensures grant.Some? && ParseScope(grant.value).Ok? && Allows(ParseScope(grant.value).value, index) ==>
              e.AllowsIndex(index)
  {
    if grant.Some? && ParseScope(grant.value).Ok? {
      var scope := ParseScope(grant.value).value;
      if e.allowed.Some? {
        NothingOutsideIsIncluded(e.allowed.value, scope);
      }
      if e.tenantScope.Some? {
        NothingOutsideIsIncluded(e.tenantScope.value, scope);
      }
    }
  }

  /** A grant, all of it meant, that reaches no index its granter cannot reach. */
  ghost predicate Inside(valid: Names, e: KeyEntry, grant: seq<string>) {
    && ParseScope(grant).Ok? && Meant(valid, ParseScope(grant).value)
    && forall index :: valid(index) && Allows(ParseScope(grant).value, index) ==> e.AllowsIndex(index)
  }

  /** No prefix but the empty one, which no list can name, is spelled out. */
  ghost predicate SpellsNothing(valid: Names, scope: Scope) {
    forall stem :: stem != "" ==> !SpellsOut(valid, scope, stem)
  }

  lemma GrantIncluded(valid: Names, scope: Scope, grant: seq<string>)
    requires ParseScope(grant).Ok? && Meant(valid, ParseScope(grant).value) && SpellsNothing(valid, scope)
    requires IncludedAmong(valid, scope, ParseScope(grant).value)
    ensures FirstOutside(scope, ParseScope(grant).value).None?
  {
    var inner := ParseScope(grant).value;
    forall q, stem | q in inner && q.text <= stem
      ensures !SpellsOut(valid, scope, stem)
    {
      ParsedPatterns(grant, q);
      ParseShow(q);
    }
    IncludedIsNothingOutside(valid, scope, inner);
  }

  /** Nor is a grant refused that stays inside, as long as the granter's scopes spell no prefix out. */
  lemma InsideGrantIsGiven(valid: Names, e: KeyEntry, grant: seq<string>)
    requires Inside(valid, e, grant)
    requires e.allowed.Some? ==> SpellsNothing(valid, e.allowed.value)
    requires e.tenantScope.Some? ==> SpellsNothing(valid, e.tenantScope.value)
    ensures !e.GrantOutside(Some(grant))
  {
    if e.allowed.Some? {
      GrantIncluded(valid, e.allowed.value, grant);
    }
    if e.tenantScope.Some? {
      GrantIncluded(valid, e.tenantScope.value, grant);
    }
  }

  /** The scope that decides what a loaded key reaches: its own list, else its tenant's. */
  function Deciding(e: KeyEntry): Scope
    requires e.IsIndexScoped()
  {
    if e.allowed.Some? then e.allowed.value else e.tenantScope.value
  }

  lemma DecidesReach(e: KeyEntry, index: string)
    requires EntrySound(e) && e.IsIndexScoped()
    ensures e.AllowsIndex(index) <==> Allows(Deciding(e), index)
  {
    if e.allowed.Some? {
      OwnListDecides(e, index);
    }
  }

  lemma DecidesGrants(e: KeyEntry, grant: seq<string>)
    requires EntrySound(e) && e.IsIndexScoped() && ParseScope(grant).Ok?
    ensures e.GrantOutside(Some(grant)) <==> FirstOutside(Deciding(e), ParseScope(grant).value).Some?
  {
    var scope := ParseScope(grant).value;
    if e.allowed.Some? && e.tenantScope.Some? && FirstOutside(e.allowed.value, scope).None? {
      InsideTwice(e.tenantScope.value, e.allowed.value, scope);
    }
  }

  /** The grant that a scope spelling out `stem` refuses, though every index of it is in reach. */
  lemma SpelledOutIsRefused(valid: Names, e: KeyEntry, stem: string)
    requires EntrySound(e) && e.IsIndexScoped() && PlainNames(valid)
    requires stem != "" && SpellsOut(valid, Deciding(e), stem)
    ensures Inside(valid, e, [stem + "*"]) && e.GrantOutside(Some([stem + "*"]))
  {
    var name :| valid(name) && stem <= name;
    assert forall c :: c in stem ==> c in name;
    StarredParses(stem);
    SpelledOutIsIncluded(valid, Deciding(e), stem);
    var grant := [stem + "*"];
    assert Prefix(stem) in [Prefix(stem)] && Matches(Prefix(stem), name);
    forall index | valid(index) && Allows([Prefix(stem)], index)
      ensures e.AllowsIndex(index)
    {
      DecidesReach(e, index);
    }
    DecidesGrants(e, grant);
  }

  /**
    For a loaded key with a scope, and names without stars and spaces: every grant that stays inside is given
    if and only if the scope that decides for the key spells no prefix out.
   */
  lemma GrantCheckExact(valid: Names, e: KeyEntry)
    requires EntrySound(e) && e.IsIndexScoped() && PlainNames(valid)
    ensures (forall grant :: Inside(valid, e, grant) ==> !e.GrantOutside(Some(grant)))
            <==> SpellsNothing(valid, Deciding(e))
  {
    if stem :| stem != "" && SpellsOut(valid, Deciding(e), stem) {
      SpelledOutIsRefused(valid, e, stem);
    } else {
      forall grant | Inside(valid, e, grant)
        ensures !e.GrantOutside(Some(grant))
      {
        forall index | valid(index) && Allows(ParseScope(grant).value, index)
          ensures Allows(Deciding(e), index)
        {
          DecidesReach(e, index);
        }
        GrantIncluded(valid, Deciding(e), grant);
        DecidesGrants(e, grant);
      }
    }
  }

  /** On the names the node accepts. */
  lemma AcceptedGrantCheckExact(e: KeyEntry)
    requires EntrySound(e) && e.IsIndexScoped()
    ensures (forall grant :: Inside(Accepted, e, grant) ==> !e.GrantOutside(Some(grant)))
            <==> SpellsNothing(Accepted, Deciding(e))
  {
    AcceptedIsPlain();
    GrantCheckExact(Accepted, e);
  }
}
