/** The decision on one request: who is asking, which route it is, and whether the key may take it. */
module Gate {
  import opened Wrappers
  import opened KeyLoader
  import opened Text
  import R = RouteTable
  import S = IndexScope

  const KEY_PREFIX := "cameo_v1_"
  const KEY_BODY_LEN := 43
  const ACCESS_PREFIX := "cameo_at1_"

  predicate IsKeyChar(c: char) {
    'a' <= c <= 'z' || 'A' <= c <= 'Z' || '0' <= c <= '9' || c == '-' || c == '_'
  }

  /** The body of a token shaped like a minted key. */
  function KeyBody(token: string): Option<string> {
    if !(KEY_PREFIX <= token) then None
    else
      var body := token[|KEY_PREFIX|..];
      if |body| == KEY_BODY_LEN && forall c :: c in body ==> IsKeyChar(c) then Some(body) else None
  }

  /** What a minted key has after its prefix. */
  predicate Minted(body: string) {
    |body| == 43 && forall c :: c in body ==> IsKeyChar(c)
  }

  /** A token is read as a key exactly when it is the prefix and a minted body. */
  lemma KeyBodyIs(token: string, body: string)
    ensures KeyBody(token) == Some(body) <==> token == KEY_PREFIX + body && Minted(body)
  {
    if token == KEY_PREFIX + body {
      assert token[|KEY_PREFIX|..] == body;
    }
    if KEY_PREFIX <= token {
      assert token == KEY_PREFIX + token[|KEY_PREFIX|..];
    }
  }

  /** The first key of the ring with this digest. */
  function ByDigest(entries: seq<KeyEntry>, digest: Digest): (r: Option<KeyEntry>)
    ensures r.None? <==> forall e :: e in entries ==> e.digest != digest
    ensures r.Some? ==> r.value in entries && r.value.digest == digest
  {
    if entries == [] then None
    else
      assert entries == [entries[0]] + entries[1..];
      if entries[0].digest == digest then Some(entries[0]) else ByDigest(entries[1..], digest)
  }

  function Authenticate(ring: KeyRing, hash: string -> Digest, token: string): Option<KeyEntry> {
    match KeyBody(S.Trimmed(token))
    case None => None
    case Some(body) => ByDigest(ring.entries, hash(body))
  }

  /** Every entry is compared; the first match is kept. */
  method FindKey(ring: KeyRing, hash: string -> Digest, token: string) returns (r: Option<KeyEntry>)
    ensures r == Authenticate(ring, hash, token)
  {
    var body := KeyBody(S.Trimmed(token));
    if body.None? {
      return None;
    }
    var digest := hash(body.value);
    r := None;
    for k := 0 to |ring.entries|
      invariant r.Some? ==> r == ByDigest(ring.entries, digest)
      invariant r.None? ==> ByDigest(ring.entries, digest) == ByDigest(ring.entries[k..], digest)
    {
      if ring.entries[k].digest == digest && r.None? {
        r := Some(ring.entries[k]);
      }
    }
  }

  /** What an OAuth access token opens to, when it is genuine, unexpired and meant for this node. */
  datatype Grant = Grant(key: Digest, client: string)

  datatype Authz = Disabled | Anonymous | Key(entry: KeyEntry)

  datatype Admitted = Admitted(authz: Authz, client: Option<string>)

  datatype Refusal = NoKey | InvalidToken | LacksCapability | OutsideScope | WithheldOnIndex

  /** Whose request it is: a key's, by the key itself or by a token minted from it, which only the MCP door takes. */
  function Identify(ring: KeyRing, hash: string -> Digest, oauth: Option<string -> Option<Grant>>,
                    access: Option<R.Access>, token: string): Result<(KeyEntry, Option<string>), Refusal>
  {
    if oauth.Some? && ACCESS_PREFIX <= token then
      if access != Some(R.McpDoor) then Err(InvalidToken)
      else
        match oauth.value(token)
        case None => Err(InvalidToken)
        case Some(grant) =>
          match ByDigest(ring.entries, grant.key)
          case None => Err(InvalidToken)
          case Some(entry) => Ok((entry, Some(grant.client)))
    else
      match Authenticate(ring, hash, token)
      case None => Err(InvalidToken)
      case Some(entry) => Ok((entry, None))
  }

  /** The MCP door asks for reading; every other closed route names its capability. */
  function Required(access: R.Access): Capability
    requires !access.Public?
  {
    if access.McpDoor? then Read else access.capability
  }

  /** What the route asks of an identified key. An unclassified path goes on to the router, which answers 404. */
  function Permit(entry: KeyEntry, classified: Option<R.Classified>): Option<Refusal> {
    if classified.None? || classified.value.access.Public? then None
    else
      var required := Required(classified.value.access);
      var index := classified.value.index;
      if !entry.Has(required) then Some(LacksCapability)
      else if index.Some? && !entry.AllowsIndex(index.value) then Some(OutsideScope)
      else if index.Some? && !entry.HasOn(required, index.value) then Some(WithheldOnIndex)
      else None
  }

  function AccessOf(classified: Option<R.Classified>): Option<R.Access> {
    if classified.None? then None else Some(classified.value.access)
  }

  /** The decision on a request already classified. */
  function Decision(ring: KeyRing, hash: string -> Digest, oauth: Option<string -> Option<Grant>>,
                    classified: Option<R.Classified>, token: Option<string>): Result<Admitted, Refusal>
  {
    if !ring.enabled then Ok(Admitted(Disabled, None))
    else if token.None? then
      if AccessOf(classified) == Some(R.Public) then Ok(Admitted(Anonymous, None)) else Err(NoKey)
    else
      match Identify(ring, hash, oauth, AccessOf(classified), token.value)
      case Err(refusal) => Err(refusal)
      case Ok((entry, client)) =>
        match Permit(entry, classified)
        case Some(refusal) => Err(refusal)
        case None => Ok(Admitted(Key(entry), client))
  }

  // ----- What the gate guarantees on a loaded ring

  /** The token is a key of the ring. */
  ghost predicate Holds(ring: KeyRing, hash: string -> Digest, token: string, e: KeyEntry) {
    e in ring.entries && KeyBody(S.Trimmed(token)).Some? && e.digest == hash(KeyBody(S.Trimmed(token)).value)
  }

  /** A key as it was minted holds its entry, with any spaces around it. */
  lemma MintedKeyHolds(ring: KeyRing, hash: string -> Digest, e: KeyEntry, before: string, body: string, after: string)
    requires e in ring.entries && Minted(body) && e.digest == hash(body)
    requires (forall c :: c in before ==> S.IsSpace(c)) && (forall c :: c in after ==> S.IsSpace(c))
    ensures Holds(ring, hash, before + (KEY_PREFIX + body) + after, e)
  {
    var key := KEY_PREFIX + body;
    assert key[0] == 'c' && key[|key| - 1] == body[|body| - 1] && body[|body| - 1] in body;
    TrimPadded(before, key, after, S.IsSpace);
    KeyBodyIs(key, body);
  }

  /** The ring is what some tenants and key entries load to. */
  ghost predicate Loaded(ring: KeyRing) {
    exists tenants, configs :: RingOf(ring, configs, ConfiguredScopes(tenants))
  }

  /** `LoadKeyRing` returns nothing else. */
  lemma LoadedSound(ring: KeyRing) returns (scopes: TenantScopes)
    requires Loaded(ring)
    ensures RingSound(ring, scopes)
  {
    var tenants, configs :| RingOf(ring, configs, ConfiguredScopes(tenants));
    scopes := ConfiguredScopes(tenants);
  }

  /** The request is `route`, which needs a capability, and its `k`-th segment names the index. */
  predicate AsksFor(verb: string, path: string, route: R.Route, k: nat) {
    && R.IsRoute(verb, path, route) && R.RuleOf(route).access.Needs?
    && k < |R.Pattern(R.RuleOf(route))| && R.Pattern(R.RuleOf(route))[k].NamesIndex?
  }

  /** The segment of the path that stands where the route has the index; the path begins with an empty one. */
  function SegmentAt(path: string, k: nat): string {
    if k + 1 < |R.Cut(path)| then R.Cut(path)[k + 1] else ""
  }

  lemma AskedIndex(verb: string, path: string, route: R.Route, k: nat)
    requires AsksFor(verb, path, route, k)
    ensures R.Classification(verb, path) == Some(R.Classified(R.RuleOf(route).access, Some(SegmentAt(path, k))))
  {
    R.ClassificationIs(verb, path, route);
    R.IndexIsItsSegment(path, route);
  }

  lemma OneKeyPerDigest(ring: KeyRing, scopes: TenantScopes, e: KeyEntry, f: KeyEntry)
    requires RingSound(ring, scopes) && e in ring.entries && f in ring.entries && e.digest == f.digest
    ensures e == f
  {
  }

  /** An access token is never also a key, however it is padded. */
  lemma AccessTokenIsNoKey(token: string)
    requires ACCESS_PREFIX <= token
    ensures KeyBody(S.Trimmed(token)).None?
  {
    TrimKeepsStart(token, ACCESS_PREFIX, S.IsSpace);
    var trimmed := S.Trimmed(token);
    assert ACCESS_PREFIX[6] == 'a' && KEY_PREFIX[6] == 'v';
    assert trimmed[6] == 'a';
  }

  /** On a route that names an index, the key holding the token decides, and its capability there. */
  lemma IndexDecision(ring: KeyRing, scopes: TenantScopes, hash: string -> Digest,
                      oauth: Option<string -> Option<Grant>>, capability: Capability, index: string, token: string)
    requires RingSound(ring, scopes) && ring.enabled
    ensures var classified := Some(R.Classified(R.Needs(capability), Some(index)));
            Decision(ring, hash, oauth, classified, Some(token)).Ok?
            <==> exists e :: Holds(ring, hash, token, e) && e.AllowsIndex(index) && e.HasOn(capability, index)
  {
    if oauth.Some? && ACCESS_PREFIX <= token {
      AccessTokenIsNoKey(token);
    } else {
      var found := Authenticate(ring, hash, token);
      if found.Some? {
        assert Holds(ring, hash, token, found.value);
        forall e | Holds(ring, hash, token, e)
          ensures e == found.value
        {
          OneKeyPerDigest(ring, scopes, e, found.value);
        }
        if found.value.HasOn(capability, index) {
          OverridesOnlySubtract(found.value, capability, index);
        }
      }
    }
  }

  /** The token is a key of the ring that may do what `route` asks on the index at segment `k`. */
  ghost predicate MayUse(ring: KeyRing, hash: string -> Digest, path: string, route: R.Route, k: nat, token: string)
    requires R.RuleOf(route).access.Needs?
  {
    exists e :: && Holds(ring, hash, token, e)
                && e.AllowsIndex(SegmentAt(path, k))
                && e.HasOn(R.RuleOf(route).access.capability, SegmentAt(path, k))
  }

  /**
    On an enabled node with a loaded ring, whatever the token: a request for an index route is admitted if
    and only if the token is a key of the ring, the index segment is in the key's scope, and the key holds
    the route's capability on that index.
   */
  lemma IndexRouteDecision(ring: KeyRing, hash: string -> Digest, oauth: Option<string -> Option<Grant>>,
                           verb: string, path: string, route: R.Route, k: nat, token: string)
    requires Loaded(ring) && ring.enabled && AsksFor(verb, path, route, k)
    ensures Decision(ring, hash, oauth, R.Classification(verb, path), Some(token)).Ok?
            <==> MayUse(ring, hash, path, route, k, token)
  {
    var scopes := LoadedSound(ring);
    AskedIndex(verb, path, route, k);
    IndexDecision(ring, scopes, hash, oauth, R.RuleOf(route).access.capability, SegmentAt(path, k), token);
  }

  // ----- The whole decision, read off the table

  /** What a route asks of a role: nothing where it is public, reading at the MCP door, else its capability. */
  predicate RoleMay(role: Role, access: R.Access) {
    match access
    case Public => true
    case McpDoor => Read in Capabilities(role)
    case Needs(capability) => capability in Capabilities(role)
  }

  /**
    The key may do what the request asks: its role holds what the route asks, and where the route names an
    index the key reaches it and holds the capability there. A path that is no route asks nothing.
   */
  ghost predicate MayEnter(e: KeyEntry, verb: string, path: string) {
    forall route :: R.IsRoute(verb, path, route) ==>
      && RoleMay(e.role, R.RuleOf(route).access)
      && forall k :: AsksFor(verb, path, route, k) ==>
           && e.AllowsIndex(SegmentAt(path, k))
           && e.HasOn(R.RuleOf(route).access.capability, SegmentAt(path, k))
  }

  /** On a route that names no index the role alone decides. */
  lemma RoleDecides(e: KeyEntry, verb: string, path: string, route: R.Route)
    requires R.IsRoute(verb, path, route)
    requires forall k :: 0 <= k < |R.Pattern(R.RuleOf(route))| ==> !R.Pattern(R.RuleOf(route))[k].NamesIndex?
    ensures MayEnter(e, verb, path) <==> RoleMay(e.role, R.RuleOf(route).access)
  {
    forall other | R.IsRoute(verb, path, other)
      ensures other == route
    {
      R.NoRequestIsTwoRoutes(route, other, R.Cut(path));
    }
  }

  lemma PermitOnIndex(e: KeyEntry, verb: string, path: string, route: R.Route, k: nat)
    requires EntrySound(e) && AsksFor(verb, path, route, k)
    ensures Permit(e, R.Classification(verb, path)).None? <==> MayEnter(e, verb, path)
  {
    AskedIndex(verb, path, route, k);
    forall other | R.IsRoute(verb, path, other)
      ensures other == route
    {
      R.NoRequestIsTwoRoutes(route, other, R.Cut(path));
    }
    R.OneIndexAtMost(route);
  }

  lemma PermitElsewhere(e: KeyEntry, verb: string, path: string, route: R.Route)
    requires R.IsRoute(verb, path, route)
    requires forall k :: 0 <= k < |R.Pattern(R.RuleOf(route))| ==> !R.Pattern(R.RuleOf(route))[k].NamesIndex?
    ensures Permit(e, R.Classification(verb, path)).None? <==> MayEnter(e, verb, path)
  {
    R.ClassificationIs(verb, path, route);
    R.IndexIsItsSegment(path, route);
    RoleDecides(e, verb, path, route);
  }

  /** The route's checks, one after the other, come to what the key may do. */
  lemma PermitIs(e: KeyEntry, verb: string, path: string)
    requires EntrySound(e)
    ensures Permit(e, R.Classification(verb, path)).None? <==> MayEnter(e, verb, path)
  {
    match R.TheRoute(verb, path)
    case None =>
    case Some(route) =>
      if k :| 0 <= k < |R.Pattern(R.RuleOf(route))| && R.Pattern(R.RuleOf(route))[k].NamesIndex? {
        R.IndexNeedsCapability(route, k);
        PermitOnIndex(e, verb, path, route, k);
      } else {
        PermitElsewhere(e, verb, path, route);
      }
  }

  /** The token is one the node's OAuth side is asked about. */
  predicate IsAccessToken(oauth: Option<string -> Option<Grant>>, token: string) {
    oauth.Some? && ACCESS_PREFIX <= token
  }

  /** The access token was granted by key `e` of the ring. */
  ghost predicate GrantedBy(ring: KeyRing, oauth: Option<string -> Option<Grant>>, token: string, e: KeyEntry) {
    && IsAccessToken(oauth, token) && oauth.value(token).Some?
    && e in ring.entries && e.digest == oauth.value(token).value.key
  }

  ghost predicate AtDoor(verb: string, path: string) {
    exists route :: R.IsRoute(verb, path, route) && R.RuleOf(route).access.McpDoor?
  }

  lemma DoorIsClassified(verb: string, path: string)
    ensures AtDoor(verb, path) <==> AccessOf(R.Classification(verb, path)) == Some(R.McpDoor)
  {
    if route :| R.IsRoute(verb, path, route) && R.RuleOf(route).access.McpDoor? {
      R.ClassificationIs(verb, path, route);
    }
  }

  /** At the door no index is named, so the role decides. */
  lemma DoorPermits(e: KeyEntry, verb: string, path: string)
    requires AtDoor(verb, path)
    ensures Permit(e, R.Classification(verb, path)).None? <==> Read in Capabilities(e.role)
  {
    var route :| R.IsRoute(verb, path, route) && R.RuleOf(route).access.McpDoor?;
    forall k | 0 <= k < |R.Pattern(R.RuleOf(route))|
      ensures !R.Pattern(R.RuleOf(route))[k].NamesIndex?
    {
      if R.Pattern(R.RuleOf(route))[k].NamesIndex? {
        R.IndexNeedsCapability(route, k);
      }
    }
    PermitElsewhere(e, verb, path, route);
    RoleDecides(e, verb, path, route);
  }

  /** What a key's own token gets: in as that key, exactly where the key may go. */
  lemma KeyDecision(ring: KeyRing, scopes: TenantScopes, hash: string -> Digest,
                    oauth: Option<string -> Option<Grant>>, verb: string, path: string, token: string, e: KeyEntry)
    requires RingSound(ring, scopes) && ring.enabled && Holds(ring, hash, token, e)
    ensures var r := Decision(ring, hash, oauth, R.Classification(verb, path), Some(token));
            (r.Ok? <==> MayEnter(e, verb, path)) && (r.Ok? ==> r.value == Admitted(Key(e), None))
  {
    if IsAccessToken(oauth, token) {
      AccessTokenIsNoKey(token);
    } else {
      var found := ByDigest(ring.entries, e.digest).value;
      OneKeyPerDigest(ring, scopes, e, found);
      PermitIs(e, verb, path);
    }
  }

  /** A refused key is told which it was: not this role anywhere, not this index, or not this role on it. */
  lemma RefusalTells(ring: KeyRing, scopes: TenantScopes, hash: string -> Digest,
                     oauth: Option<string -> Option<Grant>>, verb: string, path: string, token: string, e: KeyEntry,
                     route: R.Route, k: nat)
    requires RingSound(ring, scopes) && ring.enabled && Holds(ring, hash, token, e)
    requires AsksFor(verb, path, route, k) && !MayEnter(e, verb, path)
    ensures Decision(ring, hash, oauth, R.Classification(verb, path), Some(token))
            == Err(if R.RuleOf(route).access.capability !in Capabilities(e.role) then LacksCapability
                   else if !e.AllowsIndex(SegmentAt(path, k)) then OutsideScope
                   else WithheldOnIndex)
  {
    KeyDecision(ring, scopes, hash, oauth, verb, path, token, e);
    AskedIndex(verb, path, route, k);
    if IsAccessToken(oauth, token) {
      AccessTokenIsNoKey(token);
    } else {
      OneKeyPerDigest(ring, scopes, e, ByDigest(ring.entries, e.digest).value);
    }
  }

  /** What an access token gets: in at the MCP door alone, as the key that granted it, if that key may read. */
  lemma TokenDecision(ring: KeyRing, scopes: TenantScopes, hash: string -> Digest,
                      oauth: Option<string -> Option<Grant>>, verb: string, path: string, token: string, e: KeyEntry)
    requires RingSound(ring, scopes) && ring.enabled && GrantedBy(ring, oauth, token, e)
    ensures var r := Decision(ring, hash, oauth, R.Classification(verb, path), Some(token));
            && (r.Ok? <==> AtDoor(verb, path) && Read in Capabilities(e.role))
            && (r.Ok? ==> r.value == Admitted(Key(e), Some(oauth.value(token).value.client)))
  {
    DoorIsClassified(verb, path);
    var found := ByDigest(ring.entries, e.digest).value;
    OneKeyPerDigest(ring, scopes, e, found);
    if AtDoor(verb, path) {
      DoorPermits(e, verb, path);
    }
  }

  /** Anything else presented is refused. */
  lemma StrangerDecision(ring: KeyRing, hash: string -> Digest, oauth: Option<string -> Option<Grant>>,
                         classified: Option<R.Classified>, token: string)
    requires ring.enabled
    requires if IsAccessToken(oauth, token) then forall e :: !GrantedBy(ring, oauth, token, e)
             else forall e :: !Holds(ring, hash, token, e)
    ensures Decision(ring, hash, oauth, classified, Some(token)) == Err(InvalidToken)
  {
    if IsAccessToken(oauth, token) {
      if oauth.value(token).Some? {
        var found := ByDigest(ring.entries, oauth.value(token).value.key);
        assert found.Some? ==> GrantedBy(ring, oauth, token, found.value);
      }
    } else {
      var found := Authenticate(ring, hash, token);
      assert found.Some? ==> Holds(ring, hash, token, found.value);
    }
  }

  /** Every request with a token, on an enabled node with a loaded ring. */
  ghost predicate Decided(ring: KeyRing, hash: string -> Digest, oauth: Option<string -> Option<Grant>>, verb: string,
                          path: string, token: string, r: Result<Admitted, Refusal>)
  {
    && (forall e :: Holds(ring, hash, token, e) ==>
          (r.Ok? <==> MayEnter(e, verb, path)) && (r.Ok? ==> r.value == Admitted(Key(e), None)))
    && (forall e :: GrantedBy(ring, oauth, token, e) ==>
          && (r.Ok? <==> AtDoor(verb, path) && Read in Capabilities(e.role))
          && (r.Ok? ==> r.value == Admitted(Key(e), Some(oauth.value(token).value.client))))
    && ((if IsAccessToken(oauth, token) then forall e :: !GrantedBy(ring, oauth, token, e)
         else forall e :: !Holds(ring, hash, token, e)) ==> r == Err(InvalidToken))
  }

  lemma DecisionIsDecided(ring: KeyRing, hash: string -> Digest, oauth: Option<string -> Option<Grant>>, verb: string,
                          path: string, token: string)
    requires Loaded(ring) && ring.enabled
    ensures Decided(ring, hash, oauth, verb, path, token,
                    Decision(ring, hash, oauth, R.Classification(verb, path), Some(token)))
  {
    var scopes := LoadedSound(ring);
    var r := Decision(ring, hash, oauth, R.Classification(verb, path), Some(token));
    forall e | Holds(ring, hash, token, e)
      ensures (r.Ok? <==> MayEnter(e, verb, path)) && (r.Ok? ==> r.value == Admitted(Key(e), None))
    {
      KeyDecision(ring, scopes, hash, oauth, verb, path, token, e);
    }
    forall e | GrantedBy(ring, oauth, token, e)
      ensures r.Ok? <==> AtDoor(verb, path) && Read in Capabilities(e.role)
      ensures r.Ok? ==> r.value == Admitted(Key(e), Some(oauth.value(token).value.client))
    {
      TokenDecision(ring, scopes, hash, oauth, verb, path, token, e);
    }
    if if IsAccessToken(oauth, token) then forall e :: !GrantedBy(ring, oauth, token, e)
       else forall e :: !Holds(ring, hash, token, e)
    {
      StrangerDecision(ring, hash, oauth, R.Classification(verb, path), token);
    }
  }

  /**
    The gate. A disabled node admits everything. Without a token only a public route is answered. A key's own
    token gets in as that key exactly where the key may go; an access token gets in at the MCP door alone, as
    the key that granted it, if that key may read; anything else is refused.
   */
  method Decide(ring: KeyRing, hash: string -> Digest, oauth: Option<string -> Option<Grant>>, verb: string,
                path: string, token: Option<string>) returns (r: Result<Admitted, Refusal>)
    ensures r == Decision(ring, hash, oauth, R.Classification(verb, path), token)
    ensures !ring.enabled ==> r == Ok(Admitted(Disabled, None))
    ensures ring.enabled && token.None? ==>
              r == if exists route :: R.IsRoute(verb, path, route) && R.RuleOf(route).access.Public?
                   then Ok(Admitted(Anonymous, None)) else Err(NoKey)
    ensures Loaded(ring) && ring.enabled && token.Some? ==> Decided(ring, hash, oauth, verb, path, token.value, r)
    ensures Loaded(ring) && ring.enabled && token.Some? ==>
              forall route, k :: AsksFor(verb, path, route, k) ==>
                (r.Ok? <==> MayUse(ring, hash, path, route, k, token.value))
  {
    if Loaded(ring) && ring.enabled && token.Some? {
      forall route, k | AsksFor(verb, path, route, k)
        ensures Decision(ring, hash, oauth, R.Classification(verb, path), token).Ok?
                <==> MayUse(ring, hash, path, route, k, token.value)
      {
        IndexRouteDecision(ring, hash, oauth, verb, path, route, k, token.value);
      }
      DecisionIsDecided(ring, hash, oauth, verb, path, token.value);
    }
    PublicRoutes(verb, path);
    if !ring.enabled {
      return Ok(Admitted(Disabled, None));
    }
    R.TableIsComplete();
    var classified := R.Classify(R.TABLE, verb, path);
    if token.None? {
      r := if AccessOf(classified) == Some(R.Public) then Ok(Admitted(Anonymous, None)) else Err(NoKey);
      return;
    }
    var identified := Identify(ring, hash, oauth, AccessOf(classified), token.value);
    if identified.Err? {
      return Err(identified.error);
    }
    var (entry, client) := identified.value;
    var refused := Permit(entry, classified);
    r := if refused.Some? then Err(refused.value) else Ok(Admitted(Key(entry), client));
  }

  lemma PublicRoutes(verb: string, path: string)
    ensures AccessOf(R.Classification(verb, path)) == Some(R.Public)
            <==> exists route :: R.IsRoute(verb, path, route) && R.RuleOf(route).access.Public?
  {
    if route :| R.IsRoute(verb, path, route) {
      forall other | R.IsRoute(verb, path, other)
        ensures AccessOf(R.Classification(verb, path)) == Some(R.RuleOf(other).access)
      {
        R.ClassificationIs(verb, path, other);
      }
    }
  }

  /** Whoever is admitted as a key is a key of the ring that may do what the route asks, where it asks it. */
  lemma AdmittedMay(ring: KeyRing, hash: string -> Digest, oauth: Option<string -> Option<Grant>>,
                    classified: Option<R.Classified>, token: Option<string>)
    ensures var r := Decision(ring, hash, oauth, classified, token);
            r.Ok? && r.value.authz.Key? ==>
              var e := r.value.authz.entry;
              && e in ring.entries
              && (classified.Some? && !classified.value.access.Public? ==> e.Has(Required(classified.value.access)))
              && (classified.Some? && !classified.value.access.Public? && classified.value.index.Some? ==>
                    e.AllowsIndex(classified.value.index.value)
                    && e.HasOn(Required(classified.value.access), classified.value.index.value))
              && (r.value.client.Some? ==> classified.Some? && classified.value.access.McpDoor? && e.Has(Read))
  {
  }

  /** The key a request was admitted as. */
  ghost function AdmittedAs(ring: KeyRing, hash: string -> Digest, oauth: Option<string -> Option<Grant>>,
                            verb: string, path: string, token: Option<string>): Option<KeyEntry>
  {
    var r := Decision(ring, hash, oauth, R.Classification(verb, path), token);
    if r.Ok? && r.value.authz.Key? then Some(r.value.authz.entry) else None
  }

  lemma AdmittedReaches(ring: KeyRing, hash: string -> Digest, oauth: Option<string -> Option<Grant>>, verb: string,
                        path: string, route: R.Route, k: nat, token: Option<string>)
    requires AsksFor(verb, path, route, k)
    ensures var e := AdmittedAs(ring, hash, oauth, verb, path, token);
            e.Some? ==> e.value in ring.entries && e.value.AllowsIndex(SegmentAt(path, k))
  {
    AskedIndex(verb, path, route, k);
    AdmittedMay(ring, hash, oauth, R.Classification(verb, path), token);
  }

  /**
    Any two requests whose paths name one index, on a loaded ring: if both are admitted as keys of scoped
    tenants, it is the same tenant.
   */
  lemma TenantsNeverMeet(ring: KeyRing, hash: string -> Digest, oauth: Option<string -> Option<Grant>>,
                         verb: string, path: string, route: R.Route, k: nat, token: Option<string>,
                         verb2: string, path2: string, route2: R.Route, k2: nat, token2: Option<string>)
    requires Loaded(ring) && AsksFor(verb, path, route, k) && AsksFor(verb2, path2, route2, k2)
    requires SegmentAt(path, k) == SegmentAt(path2, k2)
    ensures var e, f := AdmittedAs(ring, hash, oauth, verb, path, token),
                        AdmittedAs(ring, hash, oauth, verb2, path2, token2);
            e.Some? && f.Some? && e.value.tenantScope.Some? && f.value.tenantScope.Some? ==>
              e.value.tenant == f.value.tenant
  {
    var scopes := LoadedSound(ring);
    AdmittedReaches(ring, hash, oauth, verb, path, route, k, token);
    AdmittedReaches(ring, hash, oauth, verb2, path2, route2, k2, token2);
    var e, f := AdmittedAs(ring, hash, oauth, verb, path, token), AdmittedAs(ring, hash, oauth, verb2, path2, token2);
    if e.Some? && f.Some? && e.value.tenantScope.Some? && f.value.tenantScope.Some? {
      if e.value.tenant != f.value.tenant {
        TenantsNeverShareAnIndex(ring, scopes, e.value, f.value, SegmentAt(path, k));
      }
    }
  }
}
