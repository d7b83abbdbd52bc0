/** Who is calling and what they may do, read from three request headers. */
module Auth {
  import opened Wrappers
  import opened Model
  import opened Text

  datatype NamespaceRole = Reader | Publisher | Admin

  datatype AuthContext = AuthContext(
    subject: Option<string>,
    scopes: set<string>,
    roles: map<string, set<NamespaceRole>>)

  const Anonymous := AuthContext(None, {}, map[])

  type Grant = (string, NamespaceRole)

  function RolesIn(grants: seq<Grant>, namespace: string): set<NamespaceRole> {
    set role | role in {Reader, Publisher, Admin} && (namespace, role) in grants
  }

  function RoleMap(grants: seq<Grant>): map<string, set<NamespaceRole>> {
    map namespace | namespace in (set g | g in grants :: g.0) :: RolesIn(grants, namespace)
  }

  function Context(subject: string, scopes: seq<string>, grants: seq<Grant>): AuthContext {
    AuthContext(Some(subject), (set s | s in scopes), RoleMap(grants))
  }

  lemma RoleMapGrows(grants: seq<Grant>, g: Grant)
    ensures var before := RoleMap(grants);
      RoleMap(grants + [g]) == before[g.0 := (if g.0 in before then before[g.0] else {}) + {g.1}]
  {
    var before, after := RoleMap(grants), RoleMap(grants + [g]);
    forall n | n in after && n != g.0 ensures after[n] == before[n] {
      assert forall role :: (n, role) in grants + [g] <==> (n, role) in grants;
    }
    assert g in grants + [g];
    assert g.0 !in before ==> RolesIn(grants, g.0) == {};
    assert after[g.0] == RolesIn(grants, g.0) + {g.1} by {
      assert forall role :: (g.0, role) in grants + [g] <==> (g.0, role) in grants || role == g.1;
      assert g.1.Reader? || g.1.Publisher? || g.1.Admin?;
    }
  }

  /** `AuthContext::new`: each grant goes into the set of its namespace. */
  method NewContext(subject: string, scopes: seq<string>, grants: seq<Grant>) returns (auth: AuthContext)
    ensures auth == Context(subject, scopes, grants)
  {
    var roleMap: map<string, set<NamespaceRole>> := map[];
    for i := 0 to |grants|
      invariant roleMap == RoleMap(grants[..i])
    {
      var (namespace, role) := grants[i];
      var roles := if namespace in roleMap then roleMap[namespace] else {};
      RoleMapGrows(grants[..i], grants[i]);
      assert grants[..i + 1] == grants[..i] + [grants[i]];
      roleMap := roleMap[namespace := roles + {role}];
    }
    assert grants[..|grants|] == grants;
    auth := AuthContext(Some(subject), (set s | s in scopes), roleMap);
  }

  predicate HasScope(auth: AuthContext, scope: string) {
    scope in auth.scopes
  }

  predicate HasRole(auth: AuthContext, namespace: string, accepted: set<NamespaceRole>) {
    namespace in auth.roles && exists role | role in accepted :: role in auth.roles[namespace]
  }

  function Require(auth: AuthContext, scope: string, action: string, namespace: string): Outcome<HubError> {
    if HasScope(auth, scope) && HasRole(auth, namespace, {Publisher, Admin}) then Pass
    else Fail(PermissionDenied(action, namespace))
  }

  function CanPublish(auth: AuthContext, namespace: string): Outcome<HubError> {
    Require(auth, "skills:publish", "publish", namespace)
  }

  function CanYank(auth: AuthContext, namespace: string): Outcome<HubError> {
    Require(auth, "skills:yank", "yank", namespace)
  }

  // ----- headers

  datatype ApiError = BadRequest(message: string)

  const SUBJECT := "x-agentenv-subject"
  const SCOPES := "x-agentenv-scopes"
  const ROLES := "x-agentenv-roles"

  /** What `HeaderValue::to_str` lets through. */
  predicate IsVisible(value: string) {
    forall c | c in value :: ' ' <= c <= '~' || c == '\t'
  }

  /** `header_value`. */
  function HeaderValue(headers: map<string, string>, name: string): Result<Option<string>, ApiError> {
    if name !in headers then Ok(None)
    else if IsVisible(headers[name]) then Ok(Some(headers[name]))
    else Err(BadRequest(name))
  }

  function TrimAll(parts: seq<string>): (entries: seq<string>)
    ensures forall e | e in entries :: e != "" && Trimmed(e)
  {
    if parts == [] then []
    else
      var entry := Trim(parts[0]);
      (if entry == "" then [] else [entry]) + TrimAll(parts[1..])
  }

  /** The non-empty entries of a comma-separated list. */
  function Entries(value: Option<string>): seq<string> {
    TrimAll(Split(if value.Some? then value.value else "", ','))
  }

  function RoleOf(text: string): Result<NamespaceRole, ApiError> {
    if text == "reader" then Ok(Reader)
    else if text == "publisher" then Ok(Publisher)
    else if text == "admin" then Ok(Admin)
    else Err(BadRequest(text))
  }

  /** `parse_role`: `namespace:role`, or with an equals sign when there is no colon. */
  function ParseRole(value: string): Result<Grant, ApiError> {
    var colon := SplitOnce(value, ':');
    var pair := if colon.Some? then colon else SplitOnce(value, '=');
    if pair.None? then Err(BadRequest(value))
    else
      var role :- RoleOf(pair.value.1);
      Ok((pair.value.0, role))
  }

  function ParseRoles(entries: seq<string>): (r: Result<seq<Grant>, ApiError>)
    ensures r.Ok? <==> forall e | e in entries :: ParseRole(e).Ok?
    ensures r.Ok? ==> forall g :: g in r.value <==> exists e :: e in entries && ParseRole(e) == Ok(g)
  {
    if entries == [] then Ok([])
    else
      var grant :- ParseRole(entries[0]);
      var grants :- ParseRoles(entries[1..]);
      Ok([grant] + grants)
  }

  /** `auth_from_headers`. */
  function AuthFromHeaders(headers: map<string, string>): Result<AuthContext, ApiError> {
    var subject :- HeaderValue(headers, SUBJECT);
    if subject.None? then Ok(Anonymous)
    else
      var scopes :- HeaderValue(headers, SCOPES);
      var roles :- HeaderValue(headers, ROLES);
      var grants :- ParseRoles(Entries(roles));
      Ok(Context(subject.value, Entries(scopes), grants))
  }

  // ----- what the headers say, character by character

  /** The entry reads `namespace:word`, or `namespace=word` without a colon; the first separator splits it. */
  predicate SaysRole(entry: string, namespace: string, word: string) {
    || (entry == namespace + ":" + word && ':' !in namespace)
    || (entry == namespace + "=" + word && ':' !in entry && '=' !in namespace)
  }

  /** The entry grants this role on this namespace. */
  predicate Grants(entry: string, namespace: string, role: NamespaceRole) {
    match role
    case Reader => SaysRole(entry, namespace, "reader")
    case Publisher => SaysRole(entry, namespace, "publisher")
    case Admin => SaysRole(entry, namespace, "admin")
  }

  ghost predicate IsRoleEntry(entry: string) {
    exists namespace, role :: Grants(entry, namespace, role)
  }

  lemma SplitSays(entry: string, namespace: string, word: string)
    requires ':' !in word && '=' !in word
    ensures SaysRole(entry, namespace, word) <==>
      (if ':' in entry then SplitOnce(entry, ':') else SplitOnce(entry, '=')) == Some((namespace, word))
  {
    if SaysRole(entry, namespace, word) {
      if ':' in entry {
        assert entry == namespace + [':'] + word;
        SplitOnceAt(namespace, ':', word);
      } else {
        assert entry == namespace + ['='] + word;
        SplitOnceAt(namespace, '=', word);
      }
    }
  }

  /** An entry is accepted exactly if its word is one of the three, and grants that role on what stands before it. */
  lemma ParseRoleAccepts(entry: string, namespace: string, role: NamespaceRole)
    ensures ParseRole(entry) == Ok((namespace, role)) <==> Grants(entry, namespace, role)
  {
    SplitSays(entry, namespace, "reader");
    SplitSays(entry, namespace, "publisher");
    SplitSays(entry, namespace, "admin");
  }

  /** Everything else is an error. */
  lemma ParseRoleRefuses(entry: string)
    ensures ParseRole(entry).Ok? <==> IsRoleEntry(entry)
  {
    if ParseRole(entry).Ok? {
      var (namespace, role) := ParseRole(entry).value;
      ParseRoleAccepts(entry, namespace, role);
    }
    if namespace, role :| Grants(entry, namespace, role) {
      ParseRoleAccepts(entry, namespace, role);
    }
  }

  /** A non-empty entry of the comma-separated header, without the white space around it. */
  ghost predicate HasEntry(headers: map<string, string>, name: string, entry: string) {
    && name in headers && entry != ""
    && exists part :: part in Split(headers[name], ',') && Trim(part) == entry
  }

  /** The header is missing, or consists of the characters a header value may show. */
  predicate IsReadable(headers: map<string, string>, name: string) {
    name in headers ==> forall c | c in headers[name] :: c == '\t' || 32 <= c as int <= 126
  }

  lemma {:induction false} TrimAllHas(parts: seq<string>, entry: string)
    ensures entry in TrimAll(parts) <==> entry != "" && exists part :: part in parts && Trim(part) == entry
  {
    if parts != [] {
      TrimAllHas(parts[1..], entry);
      if part :| part in parts && Trim(part) == entry {
        assert part == parts[0] || part in parts[1..];
      }
      if entry in TrimAll(parts) {
        if entry in TrimAll(parts[1..]) {
          var part :| part in parts[1..] && Trim(part) == entry;
          assert part in parts && Trim(part) == entry;
        } else {
          assert parts[0] in parts && Trim(parts[0]) == entry;
        }
      }
    }
  }

  lemma HeaderEntries(headers: map<string, string>, name: string, entry: string)
    requires IsReadable(headers, name)
    ensures HeaderValue(headers, name).Ok?
    ensures entry in Entries(HeaderValue(headers, name).value) <==> HasEntry(headers, name, entry)
  {
    TrimAllHas(Split(if name in headers then headers[name] else "", ','), entry);
    if name !in headers {
      assert Split("", ',') == [""] && Trim("") == "";
    }
  }

  lemma HeaderReadable(headers: map<string, string>, name: string)
    ensures HeaderValue(headers, name).Ok? <==> IsReadable(headers, name)
    ensures HeaderValue(headers, name).Ok? ==>
      HeaderValue(headers, name).value == if name in headers then Some(headers[name]) else None
  {
  }

  /** With a subject, the headers are accepted exactly if all three are readable and each role entry is one. */
  ghost predicate WellFormedHeaders(headers: map<string, string>) {
    && "x-agentenv-subject" in headers && IsReadable(headers, "x-agentenv-subject")
    && IsReadable(headers, "x-agentenv-scopes") && IsReadable(headers, "x-agentenv-roles")
    && forall entry | HasEntry(headers, "x-agentenv-roles", entry) :: IsRoleEntry(entry)
  }

  lemma RolesParse(headers: map<string, string>)
    requires IsReadable(headers, "x-agentenv-roles")
    ensures var roles := ParseRoles(Entries(HeaderValue(headers, "x-agentenv-roles").value));
      && (roles.Ok? <==> forall entry | HasEntry(headers, "x-agentenv-roles", entry) :: IsRoleEntry(entry))
      && (roles.Ok? ==> forall namespace, role :: (namespace, role) in roles.value <==>
            exists entry :: HasEntry(headers, "x-agentenv-roles", entry) && Grants(entry, namespace, role))
  {
    var entries := Entries(HeaderValue(headers, "x-agentenv-roles").value);
    var roles := ParseRoles(entries);
    forall entry ensures entry in entries <==> HasEntry(headers, "x-agentenv-roles", entry) {
      HeaderEntries(headers, "x-agentenv-roles", entry);
    }
    forall entry ensures ParseRole(entry).Ok? <==> IsRoleEntry(entry) {
      ParseRoleRefuses(entry);
    }
    if roles.Ok? {
      forall namespace, role ensures (namespace, role) in roles.value <==>
        exists entry :: HasEntry(headers, "x-agentenv-roles", entry) && Grants(entry, namespace, role)
      {
        forall entry ensures ParseRole(entry) == Ok((namespace, role)) <==> Grants(entry, namespace, role) {
          ParseRoleAccepts(entry, namespace, role);
        }
      }
    }
  }

  /** Some entry of the roles header grants this. */
  ghost predicate HoldsRole(headers: map<string, string>, namespace: string, role: NamespaceRole) {
    exists entry :: HasEntry(headers, "x-agentenv-roles", entry) && Grants(entry, namespace, role)
  }

  lemma ContextRoles(subject: string, scopes: seq<string>, grants: seq<Grant>, namespace: string)
    ensures HasRole(Context(subject, scopes, grants), namespace, {Publisher, Admin}) <==>
      (namespace, Publisher) in grants || (namespace, Admin) in grants
  {
    var roles := Context(subject, scopes, grants).roles;
    if g: Grant :| g in grants && g.0 == namespace {
      assert namespace in roles;
    }
    if namespace in roles {
      assert Publisher in roles[namespace] <==> (namespace, Publisher) in grants;
      assert Admin in roles[namespace] <==> (namespace, Admin) in grants;
    }
  }

  /** What the headers make of a caller. */
  lemma HeadersAccepted(headers: map<string, string>)
    ensures "x-agentenv-subject" !in headers ==> AuthFromHeaders(headers) == Ok(Anonymous)
    ensures "x-agentenv-subject" in headers ==> (AuthFromHeaders(headers).Ok? <==> WellFormedHeaders(headers))
    ensures WellFormedHeaders(headers) ==>
      var auth := AuthFromHeaders(headers).value;
      && auth.subject == Some(headers["x-agentenv-subject"])
      && (forall scope :: scope in auth.scopes <==> HasEntry(headers, "x-agentenv-scopes", scope))
      && (forall namespace :: HasRole(auth, namespace, {Publisher, Admin}) <==>
            HoldsRole(headers, namespace, Publisher) || HoldsRole(headers, namespace, Admin))
  {
    HeaderReadable(headers, SUBJECT);
    HeaderReadable(headers, SCOPES);
    HeaderReadable(headers, ROLES);
    if IsReadable(headers, ROLES) {
      RolesParse(headers);
    }
    if WellFormedHeaders(headers) {
      var scopes := Entries(HeaderValue(headers, SCOPES).value);
      var grants := ParseRoles(Entries(HeaderValue(headers, ROLES).value)).value;
      forall scope ensures scope in scopes <==> HasEntry(headers, "x-agentenv-scopes", scope) {
        HeaderEntries(headers, SCOPES, scope);
      }
      forall namespace ensures HasRole(Context(headers[SUBJECT], scopes, grants), namespace, {Publisher, Admin}) <==>
        HoldsRole(headers, namespace, Publisher) || HoldsRole(headers, namespace, Admin)
      {
        ContextRoles(headers[SUBJECT], scopes, grants, namespace);
      }
    }
  }

  /** Publishing is allowed exactly when the headers say so: a subject, the scope, and a strong enough role there. */
  lemma PublishAllowedExactly(headers: map<string, string>, namespace: string)
    ensures (AuthFromHeaders(headers).Ok? && CanPublish(AuthFromHeaders(headers).value, namespace) == Pass) <==>
      && WellFormedHeaders(headers) && HasEntry(headers, "x-agentenv-scopes", "skills:publish")
      && (HoldsRole(headers, namespace, Publisher) || HoldsRole(headers, namespace, Admin))
    ensures AuthFromHeaders(headers).Ok? && CanPublish(AuthFromHeaders(headers).value, namespace) == Pass ==>
      AuthFromHeaders(headers).value.subject == Some(headers["x-agentenv-subject"])
  {
    HeadersAccepted(headers);
  }

  /** Yanking and unyanking likewise, with their own scope. */
  lemma YankAllowedExactly(headers: map<string, string>, namespace: string)
    ensures (AuthFromHeaders(headers).Ok? && CanYank(AuthFromHeaders(headers).value, namespace) == Pass) <==>
      && WellFormedHeaders(headers) && HasEntry(headers, "x-agentenv-scopes", "skills:yank")
      && (HoldsRole(headers, namespace, Publisher) || HoldsRole(headers, namespace, Admin))
  {
    HeadersAccepted(headers);
  }

  /** Without a subject the other headers do not matter: the caller is accepted, and may do neither. */
  lemma AnonymousMayNothing(headers: map<string, string>, namespace: string)
    requires "x-agentenv-subject" !in headers
    ensures AuthFromHeaders(headers).Ok?
    ensures CanPublish(AuthFromHeaders(headers).value, namespace) == Fail(PermissionDenied("publish", namespace))
    ensures CanYank(AuthFromHeaders(headers).value, namespace) == Fail(PermissionDenied("yank", namespace))
  {
    HeadersAccepted(headers);
  }

  // ----- writing the headers

  function RoleText(role: NamespaceRole): string {
    match role
    case Reader => "reader"
    case Publisher => "publisher"
    case Admin => "admin"
  }

  function PrintRole(g: Grant): string {
    g.0 + ":" + RoleText(g.1)
  }

  lemma RoleTextParses(role: NamespaceRole)
    ensures RoleOf(RoleText(role)) == Ok(role) && ':' !in RoleText(role) && ',' !in RoleText(role)
    ensures RoleText(role) != "" && Trimmed(RoleText(role)) && IsVisible(RoleText(role))
  {
  }

  /** A role entry reads back as written exactly when the namespace holds no colon. */
  lemma ParseRoleExactly(g: Grant)
    ensures ParseRole(PrintRole(g)) == Ok(g) <==> ':' !in g.0
  {
    RoleTextParses(g.1);
    if ':' !in g.0 {
      SplitOnceAt(g.0, ':', RoleText(g.1));
      assert PrintRole(g) == g.0 + [':'] + RoleText(g.1);
    }
  }

  function PrintList(entries: seq<string>): string {
    if entries == [] then "" else Join(entries, ',')
  }

  predicate IsEntry(e: string) {
    e != "" && Trimmed(e) && ',' !in e
  }

  lemma {:induction false} TrimAllKeeps(entries: seq<string>)
    requires forall e | e in entries :: IsEntry(e)
    ensures TrimAll(entries) == entries
  {
    if entries != [] {
      assert IsEntry(entries[0]) && entries == [entries[0]] + entries[1..];
      TrimAllKeeps(entries[1..]);
    }
  }

  /** A list of clean entries survives being written and read. */
  lemma EntriesRoundTrip(entries: seq<string>)
    requires forall e | e in entries :: IsEntry(e)
    ensures Entries(Some(PrintList(entries))) == entries
  {
    if entries == [] {
      assert Split("", ',')[1..] == [];
    } else {
      SplitJoin(entries, ',');
      TrimAllKeeps(entries);
    }
  }

  function PrintRoles(grants: seq<Grant>): seq<string> {
    if grants == [] then [] else [PrintRole(grants[0])] + PrintRoles(grants[1..])
  }

  /** A namespace that can be written into a role entry. */
  predicate IsRoleNamespace(namespace: string) {
    ':' !in namespace && ',' !in namespace && (namespace == "" || !IsWhitespace(namespace[0])) && IsVisible(namespace)
  }

  lemma PrintedRole(g: Grant)
    requires IsRoleNamespace(g.0)
    ensures IsEntry(PrintRole(g)) && IsVisible(PrintRole(g)) && ParseRole(PrintRole(g)) == Ok(g)
  {
    var e, text := PrintRole(g), RoleText(g.1);
    RoleTextParses(g.1);
    ParseRoleExactly(g);
    assert e[|e| - 1] == text[|text| - 1];
    assert g.0 != "" ==> e[0] == g.0[0];
  }

  lemma ParseRolesCons(entry: string, entries: seq<string>)
    requires ParseRole(entry).Ok? && ParseRoles(entries).Ok?
    ensures ParseRoles([entry] + entries) == Ok([ParseRole(entry).value] + ParseRoles(entries).value)
  {
    assert ([entry] + entries)[1..] == entries;
  }

  lemma {:induction false} PrintedRoles(grants: seq<Grant>)
    requires forall g: Grant | g in grants :: IsRoleNamespace(g.0)
    ensures forall e | e in PrintRoles(grants) :: IsEntry(e) && IsVisible(e)
    ensures ParseRoles(PrintRoles(grants)) == Ok(grants)
  {
    if grants != [] {
      PrintedRole(grants[0]);
      PrintedRoles(grants[1..]);
      ParseRolesCons(PrintRole(grants[0]), PrintRoles(grants[1..]));
      assert grants == [grants[0]] + grants[1..];
    }
  }

  lemma {:induction false} JoinVisible(entries: seq<string>)
    requires forall e | e in entries :: IsVisible(e)
    ensures IsVisible(PrintList(entries))
  {
    if entries != [] {
      assert IsVisible(entries[0]);
      JoinVisible(entries[1..]);
    }
  }

  lemma ListsRead(scopes: seq<string>, grants: seq<Grant>)
    requires forall s | s in scopes :: IsEntry(s) && IsVisible(s)
    requires forall g: Grant | g in grants :: IsRoleNamespace(g.0)
    ensures IsVisible(PrintList(scopes)) && Entries(Some(PrintList(scopes))) == scopes
    ensures IsVisible(PrintList(PrintRoles(grants)))
    ensures ParseRoles(Entries(Some(PrintList(PrintRoles(grants))))) == Ok(grants)
  {
    PrintedRoles(grants);
    EntriesRoundTrip(scopes);
    EntriesRoundTrip(PrintRoles(grants));
    JoinVisible(scopes);
    JoinVisible(PrintRoles(grants));
  }

  /** The headers that a gateway writes for a caller are read back as that caller. */
  lemma HeadersRoundTrip(headers: map<string, string>, subject: string, scopes: seq<string>, grants: seq<Grant>)
    requires IsVisible(subject)
    requires forall s | s in scopes :: IsEntry(s) && IsVisible(s)
    requires forall g: Grant | g in grants :: IsRoleNamespace(g.0)
    requires SUBJECT in headers && headers[SUBJECT] == subject
    requires SCOPES in headers && headers[SCOPES] == PrintList(scopes)
    requires ROLES in headers && headers[ROLES] == PrintList(PrintRoles(grants))
    ensures AuthFromHeaders(headers) == Ok(Context(subject, scopes, grants))
  {
    ListsRead(scopes, grants);
  }
}
