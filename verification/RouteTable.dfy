/** The route table: which request is which route, what it needs, and which index it names. */
module RouteTable {
  import opened Wrappers
  import K = KeyLoader

  // ----- Paths

  /** The segments between slashes, as `split('/')` gives them. */
  function Split(path: string): (segs: seq<string>)
    ensures segs != []
    ensures forall s :: s in segs ==> '/' !in s
  {
    if path == "" then [""]
    else
      var front, last := Split(path[..|path| - 1]), path[|path| - 1];
      if last == '/' then front + [""] else front[..|front| - 1] + [front[|front| - 1] + [last]]
  }

  function Join(segs: seq<string>): string
    requires segs != []
  {
    if |segs| == 1 then segs[0] else Join(segs[..|segs| - 1]) + "/" + segs[|segs| - 1]
  }

  lemma {:induction false} JoinSplit(path: string)
    ensures Join(Split(path)) == path
  {
    if path != "" {
      var front, last := path[..|path| - 1], path[|path| - 1];
      JoinSplit(front);
      var segs := Split(front);
      assert path == front + [last];
      if last == '/' {
        assert (segs + [""])[..|segs|] == segs;
      } else if |segs| > 1 {
        assert Split(path)[..|segs| - 1] == segs[..|segs| - 1];
      }
    }
  }

  /** The last segment with more put on. */
  function Longer(segs: seq<string>, more: string): seq<string>
    requires segs != []
  {
    segs[..|segs| - 1] + [segs[|segs| - 1] + more]
  }

  lemma SplitChar(front: string, c: char)
    requires c != '/'
    ensures Split(front + [c]) == Longer(Split(front), [c])
  {
    assert (front + [c])[..|front|] == front;
  }

  lemma LongerNot(segs: seq<string>)
    requires segs != []
    ensures Longer(segs, "") == segs
  {
    assert segs[|segs| - 1] + "" == segs[|segs| - 1];
  }

  lemma LongerTwice(segs: seq<string>, more: string, c: char)
    requires segs != []
    ensures Longer(Longer(segs, more), [c]) == Longer(segs, more + [c])
  {
    assert segs[|segs| - 1] + more + [c] == segs[|segs| - 1] + (more + [c]);
  }

  lemma {:induction false} SplitWord(front: string, word: string)
    requires '/' !in word
    ensures Split(front + word) == Longer(Split(front), word)
  {
    if word == "" {
      assert front + word == front;
      LongerNot(Split(front));
    } else {
      var most, last := word[..|word| - 1], word[|word| - 1];
      assert last in word && forall c :: c in most ==> c in word;
      SplitWord(front, most);
      SplitChar(front + most, last);
      LongerTwice(Split(front), most, last);
      assert front + word == front + most + [last] && most + [last] == word;
    }
  }

  lemma SplitSlash(front: string)
    ensures Split(front + "/") == Split(front) + [""]
  {
    assert (front + "/")[..|front|] == front;
  }

  lemma OneMoreSegment(path: string, last: string)
    requires '/' !in last
    ensures Split(path + "/" + last) == Split(path) + [last]
  {
    SplitSlash(path);
    SplitWord(path + "/", last);
    assert "" + last == last;
  }

  lemma SplitOne(word: string)
    requires '/' !in word
    ensures Split(word) == [word]
  {
    SplitWord("", word);
    assert "" + word == word;
  }

  lemma {:induction false} SplitJoin(segs: seq<string>)
    requires segs != [] && forall s :: s in segs ==> '/' !in s
    ensures Split(Join(segs)) == segs
  {
    var front, last := segs[..|segs| - 1], segs[|segs| - 1];
    assert last in segs && segs == front + [last];
    if |segs| == 1 {
      SplitOne(last);
    } else {
      forall s | s in front
        ensures '/' !in s
      {
        assert s in segs;
      }
      SplitJoin(front);
      OneMoreSegment(Join(front), last);
    }
  }

  function TrimSlashes(path: string): string {
    if path != "" && path[|path| - 1] == '/' then TrimSlashes(path[..|path| - 1]) else path
  }

  function Normalize(path: string): string {
    if TrimSlashes(path) == "" then "/" else TrimSlashes(path)
  }

  // ----- The words routes are spelled with

  datatype Word =
    | Cluster | Health | Fault | Panic | Api | Search | Stream | Config | Indexes | Document | Bulk | Delete | Schema
    | Admin | Memory | Purge | Workers | Audit | Keys | Reload | Index | Commit | Merge | EvictWriter | KeysRoot
    | Tenants | Mcp | Sse | Messages | WellKnown | OauthProtectedResource | OauthAuthorizationServer | Oauth
    | Register | Authorize | Token

  function Spell(w: Word): string {
    match w
    case Cluster => "_cluster" case Health => "health" case Fault => "__fault" case Panic => "panic"
    case Api => "api" case Search => "search" case Stream => "stream" case Config => "_config"
    case Indexes => "_indexes" case Document => "document" case Bulk => "_bulk" case Delete => "delete"
    case Schema => "_schema" case Admin => "_admin" case Memory => "memory" case Purge => "purge"
    case Workers => "workers" case Audit => "audit" case Keys => "keys" case Reload => "reload"
    case Index => "index" case Commit => "commit" case Merge => "merge" case EvictWriter => "evict-writer"
    case KeysRoot => "_keys" case Tenants => "_tenants" case Mcp => "mcp" case Sse => "sse"
    case Messages => "messages" case WellKnown => ".well-known"
    case OauthProtectedResource => "oauth-protected-resource"
    case OauthAuthorizationServer => "oauth-authorization-server"
    case Oauth => "oauth" case Register => "register" case Authorize => "authorize" case Token => "token"
  }

  /** The only word a segment can be, told by its length and a few letters. */
  function Told(s: string): Word {
    if |s| == 3 then (if s[0] == 'a' then Api else if s[0] == 'm' then Mcp else Sse)
    else if |s| == 4 then Keys
    else if |s| == 5 then
      (if s[4] == 'c' then Panic else if s[4] == 'k' then Bulk
       else if s[4] == 'e' then (if s[0] == 'p' then Purge else Merge)
       else if s[4] == 't' then Audit else if s[4] == 'x' then Index else if s[4] == 's' then KeysRoot
       else if s[4] == 'h' then Oauth else Token)
    else if |s| == 6 then
      (if s[0] == 'h' then Health else if s[0] == 's' then (if s[1] == 'e' then Search else Stream)
       else if s[0] == 'd' then Delete else if s[0] == '_' then Admin else if s[0] == 'm' then Memory
       else if s[0] == 'r' then Reload else Commit)
    else if |s| == 7 then
      (if s[1] == '_' then Fault else if s[1] == 'c' then Config else if s[1] == 's' then Schema else Workers)
    else if |s| == 8 then
      (if s[2] == 'l' then Cluster else if s[2] == 'n' then Indexes else if s[2] == 'c' then Document
       else if s[2] == 'e' then Tenants else if s[2] == 's' then Messages else Register)
    else if |s| == 9 then Authorize
    else if |s| == 11 then WellKnown
    else if |s| == 12 then EvictWriter
    else if |s| == 24 then OauthProtectedResource
    else OauthAuthorizationServer
  }

  lemma ToldSpelled1(w: Word)
    requires || w.Cluster? || w.Health? || w.Fault? || w.Panic? || w.Api? || w.Search?
             || w.Stream? || w.Config? || w.Indexes? || w.Document? || w.Bulk? || w.Delete?
    ensures Told(Spell(w)) == w
  {
  }

  lemma ToldSpelled2(w: Word)
    requires || w.Schema? || w.Admin? || w.Memory? || w.Purge? || w.Workers? || w.Audit?
             || w.Keys? || w.Reload? || w.Index? || w.Commit? || w.Merge? || w.EvictWriter?
    ensures Told(Spell(w)) == w
  {
  }

  lemma ToldSpelled3(w: Word)
    requires || w.KeysRoot? || w.Tenants? || w.Mcp? || w.Sse? || w.Messages? || w.WellKnown?
             || w.OauthProtectedResource? || w.OauthAuthorizationServer? || w.Oauth? || w.Register? || w.Authorize?
             || w.Token?
    ensures Told(Spell(w)) == w
  {
  }

  lemma ToldSpelled(w: Word)
    ensures Told(Spell(w)) == w
  {
    match w
    case Cluster | Health | Fault | Panic | Api | Search | Stream | Config | Indexes | Document | Bulk | Delete =>
      ToldSpelled1(w);
    case Schema | Admin | Memory | Purge | Workers | Audit | Keys | Reload | Index | Commit | Merge | EvictWriter =>
      ToldSpelled2(w);
    case KeysRoot | Tenants | Mcp | Sse | Messages | WellKnown | OauthProtectedResource | OauthAuthorizationServer
      | Oauth | Register | Authorize | Token =>
      ToldSpelled3(w);
  }

  // ----- The table

  datatype Verb = Get | Post | Put | Patch | DeleteVerb | Other

  /** A `HEAD` is the `GET` it asks about. */
  function VerbOf(name: string): Verb {
    if name == "GET" || name == "HEAD" then Get
    else if name == "POST" then Post
    else if name == "PUT" then Put
    else if name == "PATCH" then Patch
    else if name == "DELETE" then DeleteVerb
    else Other
  }

  datatype Access = Public | Needs(capability: K.Capability) | McpDoor

  /** A pattern segment: a fixed word, the index, or any one segment. */
  datatype Seg = Literal(word: Word) | NamesIndex | Any

  /** What follows a pattern's first word. */
  datatype Tail = End | One(b: Seg) | Two(b: Seg, c: Seg) | Three(b: Seg, c: Seg, d: Seg)

  datatype Rule = Rule(verb: Verb, first: Word, tail: Tail, access: Access)

  /** Under `/_cluster`. */
  datatype ClusterRoute = ClusterHealth | ListClusterIndexes

  function ClusterRouteRule(r: ClusterRoute): Rule {
    match r
    case ClusterHealth => Rule(Get, Cluster, One(Literal(Health)), Public)
    case ListClusterIndexes => Rule(Get, Cluster, One(Literal(Indexes)), Needs(K.Read))
  }

  /** Under `/api`. */
  datatype ApiRoute =
    | SearchIndex | StreamSearch | ReadConfig | PutDocument | DeleteDocument | StreamDocuments | BulkWrite
    | BulkDelete | DeleteByQuery | CreateIndex | EvolveSchema | DropIndex

  function ApiRouteRule(r: ApiRoute): Rule {
    match r
    case SearchIndex => Rule(Post, Api, Two(NamesIndex, Literal(Search)), Needs(K.Read))
    case StreamSearch => Rule(Post, Api, Three(NamesIndex, Literal(Search), Literal(Stream)), Needs(K.Read))
    case ReadConfig => Rule(Get, Api, Two(NamesIndex, Literal(Config)), Needs(K.Read))
    case PutDocument => Rule(Put, Api, Two(NamesIndex, Literal(Document)), Needs(K.Write))
    case DeleteDocument => Rule(DeleteVerb, Api, Two(NamesIndex, Literal(Document)), Needs(K.Write))
    case StreamDocuments => Rule(Post, Api, Three(NamesIndex, Literal(Document), Literal(Stream)), Needs(K.Write))
    case BulkWrite => Rule(Post, Api, Two(NamesIndex, Literal(Bulk)), Needs(K.Write))
    case BulkDelete => Rule(Post, Api, Three(NamesIndex, Literal(Bulk), Literal(Delete)), Needs(K.Write))
    case DeleteByQuery => Rule(Post, Api, Two(NamesIndex, Literal(Delete)), Needs(K.Write))
    case CreateIndex => Rule(Put, Api, Two(NamesIndex, Literal(Config)), Needs(K.IndexAdmin))
    case EvolveSchema => Rule(Patch, Api, Two(NamesIndex, Literal(Schema)), Needs(K.IndexAdmin))
    case DropIndex => Rule(DeleteVerb, Api, One(NamesIndex), Needs(K.IndexAdmin))
  }

  /** Under `/_admin`. */
  datatype AdminRoute =
    | NodeMemory | PurgeMemory | NodeWorkers | AuditTrail | ReloadKeys | CommitIndex | MergeIndex
    | EvictIndexWriter

  function AdminRouteRule(r: AdminRoute): Rule {
    match r
    case NodeMemory => Rule(Get, Admin, One(Literal(Memory)), Needs(K.NodeAdmin))
    case PurgeMemory => Rule(Post, Admin, Two(Literal(Memory), Literal(Purge)), Needs(K.NodeAdmin))
    case NodeWorkers => Rule(Get, Admin, One(Literal(Workers)), Needs(K.NodeAdmin))
    case AuditTrail => Rule(Get, Admin, One(Literal(Audit)), Needs(K.NodeAdmin))
    case ReloadKeys => Rule(Post, Admin, Two(Literal(Keys), Literal(Reload)), Needs(K.NodeAdmin))
    case CommitIndex => Rule(Post, Admin, Three(Literal(Index), NamesIndex, Literal(Commit)), Needs(K.NodeAdmin))
    case MergeIndex => Rule(Post, Admin, Three(Literal(Index), NamesIndex, Literal(Merge)), Needs(K.NodeAdmin))
    case EvictIndexWriter =>
      Rule(Post, Admin, Three(Literal(Index), NamesIndex, Literal(EvictWriter)), Needs(K.NodeAdmin))
  }

  /** Under `/_keys`. */
  datatype KeyRoute = ListKeys | CreateKey | ChangeKey | RevokeKey

  function KeyRouteRule(r: KeyRoute): Rule {
    match r
    case ListKeys => Rule(Get, KeysRoot, End, Needs(K.KeyManage))
    case CreateKey => Rule(Post, KeysRoot, End, Needs(K.KeyManage))
    case ChangeKey => Rule(Patch, KeysRoot, One(Any), Needs(K.KeyManage))
    case RevokeKey => Rule(DeleteVerb, KeysRoot, One(Any), Needs(K.KeyManage))
  }

  /** Under `/_tenants`. */
  datatype TenantRoute =
    | ListTenants | ReadTenant | PutTenant | RemoveTenant | CreateTenantKey | RevokeTenantKey

  function TenantRouteRule(r: TenantRoute): Rule {
    match r
    case ListTenants => Rule(Get, Tenants, End, Needs(K.KeyManage))
    case ReadTenant => Rule(Get, Tenants, One(Any), Needs(K.KeyManage))
    case PutTenant => Rule(Put, Tenants, One(Any), Needs(K.KeyManage))
    case RemoveTenant => Rule(DeleteVerb, Tenants, One(Any), Needs(K.KeyManage))
    case CreateTenantKey => Rule(Post, Tenants, Two(Any, Literal(Keys)), Needs(K.KeyManage))
    case RevokeTenantKey => Rule(DeleteVerb, Tenants, Three(Any, Literal(Keys), Any), Needs(K.KeyManage))
  }

  /** Under `/mcp`. */
  datatype McpRoute = McpPost | McpListen | McpEnd | LegacyStream | LegacyPost | LegacyMessages

  function McpRouteRule(r: McpRoute): Rule {
    match r
    case McpPost => Rule(Post, Mcp, End, McpDoor)
    case McpListen => Rule(Get, Mcp, End, McpDoor)
    case McpEnd => Rule(DeleteVerb, Mcp, End, McpDoor)
    case LegacyStream => Rule(Get, Mcp, One(Literal(Sse)), McpDoor)
    case LegacyPost => Rule(Post, Mcp, One(Literal(Sse)), McpDoor)
    case LegacyMessages => Rule(Post, Mcp, One(Literal(Messages)), McpDoor)
  }

  /** Under `/.well-known`. */
  datatype MetadataRoute = ResourceMetadata | McpResourceMetadata | ServerMetadata

  function MetadataRouteRule(r: MetadataRoute): Rule {
    match r
    case ResourceMetadata => Rule(Get, WellKnown, One(Literal(OauthProtectedResource)), Public)
    case McpResourceMetadata => Rule(Get, WellKnown, Two(Literal(OauthProtectedResource), Literal(Mcp)), Public)
    case ServerMetadata => Rule(Get, WellKnown, One(Literal(OauthAuthorizationServer)), Public)
  }

  /** Under `/oauth`. */
  datatype OauthRoute = RegisterClient | AuthorizePage | ApproveClient | IssueToken

  function OauthRouteRule(r: OauthRoute): Rule {
    match r
    case RegisterClient => Rule(Post, Oauth, One(Literal(Register)), Public)
    case AuthorizePage => Rule(Get, Oauth, One(Literal(Authorize)), Public)
    case ApproveClient => Rule(Post, Oauth, One(Literal(Authorize)), Public)
    case IssueToken => Rule(Post, Oauth, One(Literal(Token)), Public)
  }

  datatype Route =
    | FaultPanic | ListIndexes | InCluster(c: ClusterRoute) | InApi(a: ApiRoute) | InAdmin(d: AdminRoute)
    | InKeys(k: KeyRoute) | InTenants(t: TenantRoute) | InMcp(m: McpRoute) | InMetadata(w: MetadataRoute)
    | InOauth(o: OauthRoute)

  function RuleOf(route: Route): Rule {
    match route
    case FaultPanic => Rule(Get, Fault, One(Literal(Panic)), Public)
    case ListIndexes => Rule(Get, Indexes, End, Needs(K.Read))
    case InCluster(r) => ClusterRouteRule(r)
    case InApi(r) => ApiRouteRule(r)
    case InAdmin(r) => AdminRouteRule(r)
    case InKeys(r) => KeyRouteRule(r)
    case InTenants(r) => TenantRouteRule(r)
    case InMcp(r) => McpRouteRule(r)
    case InMetadata(r) => MetadataRouteRule(r)
    case InOauth(r) => OauthRouteRule(r)
  }

  // The rows, in the order they are written.

  const OPEN_ROWS := [InCluster(ClusterHealth), FaultPanic]

  const READ_ROWS :=
    [InApi(SearchIndex), InApi(StreamSearch), InApi(ReadConfig), ListIndexes, InCluster(ListClusterIndexes)]

  const WRITE_ROWS :=
    [InApi(PutDocument), InApi(DeleteDocument), InApi(StreamDocuments), InApi(BulkWrite), InApi(BulkDelete),
     InApi(DeleteByQuery)]

  const SHAPE_ROWS := [InApi(CreateIndex), InApi(EvolveSchema), InApi(DropIndex)]

  const ADMIN_ROWS :=
    [InAdmin(NodeMemory), InAdmin(PurgeMemory), InAdmin(NodeWorkers), InAdmin(AuditTrail), InAdmin(ReloadKeys),
     InAdmin(CommitIndex), InAdmin(MergeIndex), InAdmin(EvictIndexWriter)]

  const KEY_ROWS := [InKeys(ListKeys), InKeys(CreateKey), InKeys(ChangeKey), InKeys(RevokeKey)]

  const TENANT_ROWS :=
    [InTenants(ListTenants), InTenants(ReadTenant), InTenants(PutTenant), InTenants(RemoveTenant),
     InTenants(CreateTenantKey), InTenants(RevokeTenantKey)]

  const MCP_ROWS :=
    [InMcp(McpPost), InMcp(McpListen), InMcp(McpEnd), InMcp(LegacyStream), InMcp(LegacyPost), InMcp(LegacyMessages)]

  const METADATA_ROWS := [InMetadata(ResourceMetadata), InMetadata(McpResourceMetadata), InMetadata(ServerMetadata)]

  const OAUTH_ROWS := [InOauth(RegisterClient), InOauth(AuthorizePage), InOauth(ApproveClient), InOauth(IssueToken)]

  const API_TABLE: seq<Route> := OPEN_ROWS + READ_ROWS + WRITE_ROWS + SHAPE_ROWS

  const KEY_TABLE: seq<Route> := ADMIN_ROWS + KEY_ROWS + TENANT_ROWS

  const DOOR_TABLE: seq<Route> := MCP_ROWS + METADATA_ROWS + OAUTH_ROWS

  const TABLE: seq<Route> := API_TABLE + KEY_TABLE + DOOR_TABLE

  lemma ApiRowsWritten(route: Route)
    requires route.FaultPanic? || route.ListIndexes? || route.InCluster? || route.InApi?
    ensures route in API_TABLE
  {
    match route
    case FaultPanic => assert OPEN_ROWS[1] == route;
    case ListIndexes => assert READ_ROWS[3] == route;
    case InCluster(ClusterHealth) => assert OPEN_ROWS[0] == route;
    case InCluster(ListClusterIndexes) => assert READ_ROWS[4] == route;
    case InApi(SearchIndex) => assert READ_ROWS[0] == route;
    case InApi(StreamSearch) => assert READ_ROWS[1] == route;
    case InApi(ReadConfig) => assert READ_ROWS[2] == route;
    case InApi(PutDocument) => assert WRITE_ROWS[0] == route;
    case InApi(DeleteDocument) => assert WRITE_ROWS[1] == route;
    case InApi(StreamDocuments) => assert WRITE_ROWS[2] == route;
    case InApi(BulkWrite) => assert WRITE_ROWS[3] == route;
    case InApi(BulkDelete) => assert WRITE_ROWS[4] == route;
    case InApi(DeleteByQuery) => assert WRITE_ROWS[5] == route;
    case InApi(CreateIndex) => assert SHAPE_ROWS[0] == route;
    case InApi(EvolveSchema) => assert SHAPE_ROWS[1] == route;
    case InApi(DropIndex) => assert SHAPE_ROWS[2] == route;
  }

  lemma KeyRowsWritten(route: Route)
    requires route.InAdmin? || route.InKeys? || route.InTenants?
    ensures route in KEY_TABLE
  {
    match route
    case InAdmin(NodeMemory) => assert ADMIN_ROWS[0] == route;
    case InAdmin(PurgeMemory) => assert ADMIN_ROWS[1] == route;
    case InAdmin(NodeWorkers) => assert ADMIN_ROWS[2] == route;
    case InAdmin(AuditTrail) => assert ADMIN_ROWS[3] == route;
    case InAdmin(ReloadKeys) => assert ADMIN_ROWS[4] == route;
    case InAdmin(CommitIndex) => assert ADMIN_ROWS[5] == route;
    case InAdmin(MergeIndex) => assert ADMIN_ROWS[6] == route;
    case InAdmin(EvictIndexWriter) => assert ADMIN_ROWS[7] == route;
    case InKeys(ListKeys) => assert KEY_ROWS[0] == route;
    case InKeys(CreateKey) => assert KEY_ROWS[1] == route;
    case InKeys(ChangeKey) => assert KEY_ROWS[2] == route;
    case InKeys(RevokeKey) => assert KEY_ROWS[3] == route;
    case InTenants(ListTenants) => assert TENANT_ROWS[0] == route;
    case InTenants(ReadTenant) => assert TENANT_ROWS[1] == route;
    case InTenants(PutTenant) => assert TENANT_ROWS[2] == route;
    case InTenants(RemoveTenant) => assert TENANT_ROWS[3] == route;
    case InTenants(CreateTenantKey) => assert TENANT_ROWS[4] == route;
    case InTenants(RevokeTenantKey) => assert TENANT_ROWS[5] == route;
  }

  lemma DoorRowsWritten(route: Route)
    requires route.InMcp? || route.InMetadata? || route.InOauth?
    ensures route in DOOR_TABLE
  {
    match route
    case InMcp(McpPost) => assert MCP_ROWS[0] == route;
    case InMcp(McpListen) => assert MCP_ROWS[1] == route;
    case InMcp(McpEnd) => assert MCP_ROWS[2] == route;
    case InMcp(LegacyStream) => assert MCP_ROWS[3] == route;
    case InMcp(LegacyPost) => assert MCP_ROWS[4] == route;
    case InMcp(LegacyMessages) => assert MCP_ROWS[5] == route;
    case InMetadata(ResourceMetadata) => assert METADATA_ROWS[0] == route;
    case InMetadata(McpResourceMetadata) => assert METADATA_ROWS[1] == route;
    case InMetadata(ServerMetadata) => assert METADATA_ROWS[2] == route;
    case InOauth(RegisterClient) => assert OAUTH_ROWS[0] == route;
    case InOauth(AuthorizePage) => assert OAUTH_ROWS[1] == route;
    case InOauth(ApproveClient) => assert OAUTH_ROWS[2] == route;
    case InOauth(IssueToken) => assert OAUTH_ROWS[3] == route;
  }

  /** The 47 rows are all the routes there are. */
  lemma TableIsComplete()
    ensures |TABLE| == 47 && forall route :: route in TABLE
  {
    forall route: Route
      ensures route in TABLE
    {
      if route.InMcp? || route.InMetadata? || route.InOauth? {
        DoorRowsWritten(route);
      } else if route.InAdmin? || route.InKeys? || route.InTenants? {
        KeyRowsWritten(route);
      } else {
        ApiRowsWritten(route);
      }
    }
  }

  function Size(tail: Tail): nat {
    match tail case End => 0 case One(_) => 1 case Two(_, _) => 2 case Three(_, _, _) => 3
  }

  // ----- No request is two routes

  /** A segment told as `word` can be where the pattern has `seg`. */
  predicate Asks(seg: Seg, word: Word) {
    seg.Literal? ==> seg.word == word
  }

  predicate AsksAll(tail: Tail, b: Word, c: Word, d: Word) {
    && (!tail.End? ==> Asks(tail.b, b))
    && (tail.Two? || tail.Three? ==> Asks(tail.c, c))
    && (tail.Three? ==> Asks(tail.d, d))
  }

  /** One request, its words told as `b`, `c` and `d`, could be either. */
  predicate SameRequest(r: Rule, q: Rule, b: Word, c: Word, d: Word) {
    && r.verb == q.verb && r.first == q.first && Size(r.tail) == Size(q.tail)
    && AsksAll(r.tail, b, c, d) && AsksAll(q.tail, b, c, d)
  }

  lemma ClusterRoutesApart(r: ClusterRoute, q: ClusterRoute, b: Word, c: Word, d: Word)
    requires SameRequest(ClusterRouteRule(r), ClusterRouteRule(q), b, c, d)
    ensures r == q
  {
  }

  lemma ApiRoutesApart(r: ApiRoute, q: ApiRoute, b: Word, c: Word, d: Word)
    requires SameRequest(ApiRouteRule(r), ApiRouteRule(q), b, c, d)
    ensures r == q
  {
  }

  lemma AdminRoutesApart(r: AdminRoute, q: AdminRoute, b: Word, c: Word, d: Word)
    requires SameRequest(AdminRouteRule(r), AdminRouteRule(q), b, c, d)
    ensures r == q
  {
  }

  lemma KeyRoutesApart(r: KeyRoute, q: KeyRoute, b: Word, c: Word, d: Word)
    requires SameRequest(KeyRouteRule(r), KeyRouteRule(q), b, c, d)
    ensures r == q
  {
  }

  lemma TenantRoutesApart(r: TenantRoute, q: TenantRoute, b: Word, c: Word, d: Word)
    requires SameRequest(TenantRouteRule(r), TenantRouteRule(q), b, c, d)
    ensures r == q
  {
  }

  lemma McpRoutesApart(r: McpRoute, q: McpRoute, b: Word, c: Word, d: Word)
    requires SameRequest(McpRouteRule(r), McpRouteRule(q), b, c, d)
    ensures r == q
  {
  }

  lemma MetadataRoutesApart(r: MetadataRoute, q: MetadataRoute, b: Word, c: Word, d: Word)
    requires SameRequest(MetadataRouteRule(r), MetadataRouteRule(q), b, c, d)
    ensures r == q
  {
  }

  lemma OauthRoutesApart(r: OauthRoute, q: OauthRoute, b: Word, c: Word, d: Word)
    requires SameRequest(OauthRouteRule(r), OauthRouteRule(q), b, c, d)
    ensures r == q
  {
  }

  /** The routes that start with `first`, if any, are one family. */
  function FamilyOf(first: Word): nat {
    match first
    case Fault => 0 case Indexes => 1 case Cluster => 2 case Api => 3 case Admin => 4 case KeysRoot => 5
    case Tenants => 6 case Mcp => 7 case WellKnown => 8 case _ => 9
  }

  lemma FirstWordTells(route: Route)
    ensures FamilyOf(RuleOf(route).first)
            == match route
               case FaultPanic => 0 case ListIndexes => 1 case InCluster(_) => 2 case InApi(_) => 3 case InAdmin(_) => 4
               case InKeys(_) => 5 case InTenants(_) => 6 case InMcp(_) => 7 case InMetadata(_) => 8
               case InOauth(_) => 9
  {
  }

  lemma RoutesApart(r: Route, q: Route, b: Word, c: Word, d: Word)
    requires SameRequest(RuleOf(r), RuleOf(q), b, c, d)
    ensures r == q
  {
    FirstWordTells(r);
    FirstWordTells(q);
    match r
    case FaultPanic =>
    case ListIndexes =>
    case InCluster(x) => ClusterRoutesApart(x, q.c, b, c, d);
    case InApi(x) => ApiRoutesApart(x, q.a, b, c, d);
    case InAdmin(x) => AdminRoutesApart(x, q.d, b, c, d);
    case InKeys(x) => KeyRoutesApart(x, q.k, b, c, d);
    case InTenants(x) => TenantRoutesApart(x, q.t, b, c, d);
    case InMcp(x) => McpRoutesApart(x, q.m, b, c, d);
    case InMetadata(x) => MetadataRoutesApart(x, q.w, b, c, d);
    case InOauth(x) => OauthRoutesApart(x, q.o, b, c, d);
  }

  // ----- Matching

  predicate FitsAt(seg: Seg, actual: string) {
    if seg.Literal? then actual == Spell(seg.word) else actual != ""
  }

  function Segs(tail: Tail): seq<Seg> {
    match tail
    case End => []
    case One(b) => [b]
    case Two(b, c) => [b, c]
    case Three(b, c, d) => [b, c, d]
  }

  /** The whole pattern: nothing before the first slash but the empty segment, then the first word, then the tail. */
  function Pattern(rule: Rule): seq<Seg> {
    [Literal(rule.first)] + Segs(rule.tail)
  }

  /** `path`, split at its slashes, is the rule's pattern. */
  predicate Fits(rule: Rule, path: seq<string>) {
    var pattern := Pattern(rule);
    && |path| == |pattern| + 1 && path[0] == ""
    && forall k, m :: 0 <= k < |pattern| && m == k + 1 ==> FitsAt(pattern[k], path[m])
  }

  lemma LiteralTells(rule: Rule, path: seq<string>, k: nat)
    requires Fits(rule, path) && k < |Pattern(rule)|
    ensures Asks(Pattern(rule)[k], Told(path[k + 1]))
  {
    assert FitsAt(Pattern(rule)[k], path[k + 1]);
    if Pattern(rule)[k].Literal? {
      ToldSpelled(Pattern(rule)[k].word);
    }
  }

  function ToldAt(path: seq<string>, k: nat): Word {
    if k < |path| then Told(path[k]) else Cluster
  }

  lemma FitTells(rule: Rule, path: seq<string>)
    requires Fits(rule, path)
    ensures |path| == Size(rule.tail) + 2 && rule.first == Told(path[1])
    ensures AsksAll(rule.tail, ToldAt(path, 2), ToldAt(path, 3), ToldAt(path, 4))
  {
    LiteralTells(rule, path, 0);
    if !rule.tail.End? { LiteralTells(rule, path, 1); }
    if rule.tail.Two? || rule.tail.Three? { LiteralTells(rule, path, 2); }
    if rule.tail.Three? { LiteralTells(rule, path, 3); }
  }

  /** No verb and path, of any length, are two rows of the table. */
  lemma NoRequestIsTwoRoutes(r: Route, q: Route, path: seq<string>)
    requires RuleOf(r).verb == RuleOf(q).verb && Fits(RuleOf(r), path) && Fits(RuleOf(q), path)
    ensures r == q
  {
    FitTells(RuleOf(r), path);
    FitTells(RuleOf(q), path);
    RoutesApart(r, q, ToldAt(path, 2), ToldAt(path, 3), ToldAt(path, 4));
  }

  // ----- Classifying

  /** The index among the first `k` segments of the pattern. */
  function IndexBefore(pattern: seq<Seg>, path: seq<string>, k: nat): Option<string>
    requires k <= |pattern| < |path|
  {
    if k == 0 then None
    else if pattern[k - 1].NamesIndex? then Some(path[k])
    else IndexBefore(pattern, path, k - 1)
  }

  function IndexIn(rule: Rule, path: seq<string>): Option<string>
    requires Fits(rule, path)
  {
    IndexBefore(Pattern(rule), path, |Pattern(rule)|)
  }

  method MatchPattern(rule: Rule, path: seq<string>) returns (r: Option<Option<string>>)
    ensures r.Some? <==> Fits(rule, path)
    ensures r.Some? ==> r.value == IndexIn(rule, path)
  {
    var pattern := Pattern(rule);
    if |path| != |pattern| + 1 || path[0] != "" {
      return None;
    }
    var index: Option<string> := None;
    for k := 0 to |pattern|
      invariant forall j, m :: 0 <= j < k && m == j + 1 ==> FitsAt(pattern[j], path[m])
      invariant index == IndexBefore(pattern, path, k)
    {
      if !FitsAt(pattern[k], path[k + 1]) {
        return None;
      }
      if pattern[k].NamesIndex? {
        index := Some(path[k + 1]);
      }
    }
    return Some(index);
  }

  datatype Classified = Classified(access: Access, index: Option<string>)

  function Cut(path: string): seq<string> {
    Split(Normalize(path))
  }

  predicate IsRoute(verb: string, path: string, route: Route) {
    RuleOf(route).verb == VerbOf(verb) && Fits(RuleOf(route), Cut(path))
  }

  function ClassifiedAs(path: string, route: Route): Classified
    requires Fits(RuleOf(route), Cut(path))
  {
    Classified(RuleOf(route).access, IndexIn(RuleOf(route), Cut(path)))
  }

  ghost function TheRoute(verb: string, path: string): (r: Option<Route>)
    ensures r.Some? ==> IsRoute(verb, path, r.value)
    ensures r.None? ==> forall route :: !IsRoute(verb, path, route)
  {
    if exists route :: IsRoute(verb, path, route) then
      var route :| IsRoute(verb, path, route);
      Some(route)
    else None
  }

  /** What a request is, whatever order the table is in. */
  ghost function Classification(verb: string, path: string): Option<Classified> {
    match TheRoute(verb, path)
    case None => None
    case Some(route) => Some(ClassifiedAs(path, route))
  }

  /** A path spelled from a pattern: the fixed words as they are, the other segments as given. */
  function Spelling(pattern: seq<Seg>, given: seq<string>): seq<string>
    requires |given| == |pattern|
  {
    seq(|pattern|, k requires 0 <= k < |pattern| =>
      if pattern[k].Literal? then Spell(pattern[k].word) else given[k])
  }

  predicate Plainly(s: string) {
    s != "" && '/' !in s
  }

  lemma SpellsPlainly1(w: Word)
    requires || w.Cluster? || w.Health? || w.Fault? || w.Panic? || w.Api? || w.Search?
             || w.Stream? || w.Config? || w.Indexes? || w.Document? || w.Bulk? || w.Delete?
    ensures Plainly(Spell(w))
  {
  }

  lemma SpellsPlainly2(w: Word)
    requires || w.Schema? || w.Admin? || w.Memory? || w.Purge? || w.Workers? || w.Audit?
             || w.Keys? || w.Reload? || w.Index? || w.Commit? || w.Merge? || w.EvictWriter?
    ensures Plainly(Spell(w))
  {
  }

  lemma SpellsPlainly3(w: Word)
    requires w.KeysRoot? || w.Tenants? || w.Mcp? || w.Sse? || w.Messages? || w.Oauth? || w.Token?
    ensures Plainly(Spell(w))
  {
  }

  lemma SpellsPlainly4(w: Word)
    requires w.WellKnown? || w.Register? || w.Authorize?
    ensures Plainly(Spell(w))
  {
  }

  lemma SpellsPlainly5(w: Word)
    requires w.OauthProtectedResource? || w.OauthAuthorizationServer?
    ensures Plainly(Spell(w))
  {
  }

  lemma SpellsPlainly(w: Word)
    ensures Plainly(Spell(w))
  {
    match w
    case Cluster | Health | Fault | Panic | Api | Search | Stream | Config | Indexes | Document | Bulk | Delete =>
      SpellsPlainly1(w);
    case Schema | Admin | Memory | Purge | Workers | Audit | Keys | Reload | Index | Commit | Merge | EvictWriter =>
      SpellsPlainly2(w);
    case KeysRoot | Tenants | Mcp | Sse | Messages | Oauth | Token => SpellsPlainly3(w);
    case WellKnown | Register | Authorize => SpellsPlainly4(w);
    case OauthProtectedResource | OauthAuthorizationServer => SpellsPlainly5(w);
  }

  lemma PathStays(segs: seq<string>)
    requires |segs| >= 2 && segs[|segs| - 1] != "" && forall s :: s in segs ==> '/' !in s
    ensures Normalize(Join(segs)) == Join(segs)
  {
    var path, last := Join(segs), segs[|segs| - 1];
    assert last in segs && last[|last| - 1] in last;
    assert path[|path| - 1] == last[|last| - 1];
  }

  lemma SpellingFits(pattern: seq<Seg>, given: seq<string>, k: nat)
    requires |given| == |pattern| && k < |pattern| && Plainly(given[k])
    ensures Plainly(Spelling(pattern, given)[k]) && FitsAt(pattern[k], Spelling(pattern, given)[k])
  {
    if pattern[k].Literal? {
      SpellsPlainly(pattern[k].word);
    }
  }

  lemma CutSpelled(words: seq<string>)
    requires words != [] && forall k :: 0 <= k < |words| ==> Plainly(words[k])
    ensures Cut(Join([""] + words)) == [""] + words
  {
    var segs := [""] + words;
    forall s | s in segs
      ensures '/' !in s
    {
      var i :| 0 <= i < |segs| && segs[i] == s;
      assert i > 0 ==> Plainly(words[i - 1]);
    }
    SplitJoin(segs);
    assert Plainly(words[|words| - 1]);
    PathStays(segs);
  }

  lemma SpelledFits(rule: Rule, given: seq<string>)
    requires |given| == |Pattern(rule)| && forall k :: 0 <= k < |given| ==> Plainly(given[k])
    ensures Fits(rule, Cut(Join([""] + Spelling(Pattern(rule), given))))
  {
    var words := Spelling(Pattern(rule), given);
    forall k | 0 <= k < |words|
      ensures Plainly(words[k]) && FitsAt(Pattern(rule)[k], words[k])
    {
      SpellingFits(Pattern(rule), given, k);
    }
    CutSpelled(words);
  }

  /** Every route is reached: by each path its pattern spells, whatever non-empty segments are given. */
  lemma SpelledIsRoute(verb: string, route: Route, given: seq<string>)
    requires VerbOf(verb) == RuleOf(route).verb && |given| == |Pattern(RuleOf(route))|
    requires forall k :: 0 <= k < |given| ==> Plainly(given[k])
    ensures IsRoute(verb, Join([""] + Spelling(Pattern(RuleOf(route)), given)), route)
  {
    SpelledFits(RuleOf(route), given);
  }

  lemma ClassificationIs(verb: string, path: string, route: Route)
    requires IsRoute(verb, path, route)
    ensures TheRoute(verb, path) == Some(route)
    ensures Classification(verb, path) == Some(ClassifiedAs(path, route))
  {
    NoRequestIsTwoRoutes(route, TheRoute(verb, path).value, Cut(path));
  }

  /** First match down the table, in any order the table may be written in. */
  method Classify(table: seq<Route>, verb: string, path: string) returns (c: Option<Classified>)
    requires forall route :: route in table
    ensures c == Classification(verb, path)
  {
    for k := 0 to |table|
      invariant forall j :: 0 <= j < k ==> !IsRoute(verb, path, table[j])
    {
      var rule := RuleOf(table[k]);
      if rule.verb == VerbOf(verb) {
        var matched := MatchPattern(rule, Cut(path));
        if matched.Some? {
          ClassificationIs(verb, path, table[k]);
          return Some(Classified(rule.access, matched.value));
        }
      }
    }
    assert forall route :: route in table ==> !IsRoute(verb, path, route);
    return None;
  }

  /** A trailing slash changes nothing, and a `HEAD` is what its `GET` is. */
  lemma SlashesAndHeads(verb: string, path: string)
    ensures Classification(verb, path + "/") == Classification(verb, path)
    ensures Classification("HEAD", path) == Classification("GET", path)
  {
    assert (path + "/")[..|path|] == path;
    assert Normalize(path + "/") == Normalize(path);
    SameClassification(verb, path + "/", verb, path);
    SameClassification("HEAD", path, "GET", path);
  }

  lemma SameClassification(verb: string, path: string, otherVerb: string, otherPath: string)
    requires VerbOf(verb) == VerbOf(otherVerb) && Cut(path) == Cut(otherPath)
    ensures Classification(verb, path) == Classification(otherVerb, otherPath)
  {
    var route := TheRoute(verb, path);
    if route.Some? {
      ClassificationIs(otherVerb, otherPath, route.value);
    } else if TheRoute(otherVerb, otherPath).Some? {
      assert IsRoute(verb, path, TheRoute(otherVerb, otherPath).value);
    }
  }

  /** The index a request names is the one non-empty segment where its route's pattern has the index. */
  lemma IndexIsItsSegment(path: string, route: Route)
    requires Fits(RuleOf(route), Cut(path))
    ensures var pattern := Pattern(RuleOf(route));
            match ClassifiedAs(path, route).index
            case None => forall k :: 0 <= k < |pattern| ==> !pattern[k].NamesIndex?
            case Some(index) =>
              && index != "" && '/' !in index
              && exists k :: 0 <= k < |pattern| && pattern[k].NamesIndex? && Cut(path)[k + 1] == index
                             && forall j :: 0 <= j < |pattern| && pattern[j].NamesIndex? ==> j == k
  {
    IndexFound(RuleOf(route), Cut(path), |Pattern(RuleOf(route))|);
    OneIndexAtMost(route);
  }

  lemma {:induction false} IndexFound(rule: Rule, path: seq<string>, n: nat)
    requires Fits(rule, path) && n <= |Pattern(rule)|
    ensures var pattern := Pattern(rule);
            match IndexBefore(pattern, path, n)
            case None => forall k :: 0 <= k < n ==> !pattern[k].NamesIndex?
            case Some(index) =>
              index != "" && index in path && exists k :: 0 <= k < n && pattern[k].NamesIndex? && path[k + 1] == index
  {
    if n > 0 {
      assert FitsAt(Pattern(rule)[n - 1], path[n]);
      if Pattern(rule)[n - 1].NamesIndex? {
        assert path[n - 1 + 1] == path[n];
      } else {
        IndexFound(rule, path, n - 1);
      }
    }
  }

  /** Only a route that asks for a capability names an index. */
  lemma IndexNeedsCapability(route: Route, k: nat)
    requires k < |Pattern(RuleOf(route))| && Pattern(RuleOf(route))[k].NamesIndex?
    ensures RuleOf(route).access.Needs?
  {
  }

  lemma OneIndexAtMost(route: Route)
    ensures var pattern := Pattern(RuleOf(route));
            forall j, k :: 0 <= j < |pattern| && 0 <= k < |pattern| && pattern[j].NamesIndex? && pattern[k].NamesIndex?
              ==> j == k
  {
  }
}
