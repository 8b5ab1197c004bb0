/** JSON documents, the credentials inside them, and the account routes made from them. */
module CodexJson {
  import opened Wrappers

  datatype Json = Null | Bool(value: bool) | Number(number: real) | Str(text: string)
                | List(items: seq<Json>) | Object(fields: map<string, Json>)

  /** What a file holds; a document is held as the value it parses to. */
  datatype Content = Missing | Unreadable | EmptyText | BlankText | Garbage | Doc(json: Json)

  type Files = map<string, Content>

  function At(files: Files, path: string): Content { if path in files then files[path] else Missing }

  /** What JavaScript trims: white space and line terminators. */
  predicate IsSpace(c: char) {
    || '\t' <= c <= '\r' || c == ' ' || c in ['\U{00A0}', '\U{1680}', '\U{FEFF}']
    || '\U{2000}' <= c <= '\U{200A}' || c in ['\U{2028}', '\U{2029}', '\U{202F}', '\U{205F}', '\U{3000}']
  }

  function TrimStart(s: string): string {
    if s != "" && IsSpace(s[0]) then TrimStart(s[1..]) else s
  }

  function TrimEnd(s: string): string {
    if s != "" && IsSpace(s[|s| - 1]) then TrimEnd(s[..|s| - 1]) else s
  }

  function Trim(s: string): string { TrimEnd(TrimStart(s)) }

  function Get(fields: map<string, Json>, key: string): Option<Json> {
    if key in fields then Some(fields[key]) else None
  }

  predicate IsText(j: Option<Json>) { j.Some? && j.value.Str? && j.value.text != "" }

  /** The trimmed text of a field, empty unless it is text. */
  function TextAt(fields: map<string, Json>, key: string): string {
    if IsText(Get(fields, key)) then Trim(fields[key].text) else ""
  }

  predicate IsActive(fields: map<string, Json>) { Get(fields, "isActive") == Some(Bool(true)) }

  datatype Credential = Credential(access: string, refresh: string, expires: Option<real>)

  /** The credential in a provider's block and the account it names; Pi demands more of its blocks. */
  function ParseCredential(block: Option<Json>, pi: bool): Option<(Credential, string)> {
    if block.None? || !block.value.Object? then None
    else
      var fields := block.value.fields;
      var expires := Get(fields, "expires");
      if pi
        && !(Get(fields, "type") == Some(Str("oauth")) && TextAt(fields, "refresh") != ""
             && TextAt(fields, "accountId") != ""
             && expires.Some? && expires.value.Number? && expires.value.number >= 0.0) then None
      else if TextAt(fields, "access") == "" then None
      else
        var until := if pi then Some(expires.value.number) else None;
        Some((Credential(TextAt(fields, "access"), TextAt(fields, "refresh"), until), TextAt(fields, "accountId")))
  }

  datatype Source = FromAuth | FromAccounts | FromPi

  /** Where an account's credential is read from and written to. */
  datatype Route =
    | ErrorRoute
    | Route(source: Source, path: string, accountsPath: Option<string>, index: nat, providerKey: string,
            accountId: string,
            credentialAccountId: string, credential: Credential, selected: Option<Credential>, persistFailed: bool)

  /** The place a route writes to: an entry of an accounts file, or a block of an auth file. */
  datatype Target = Entry(file: string, index: nat) | Block(file: string)

  function TargetOf(route: Route): Target
    requires route.Route?
  {
    if route.source.FromAccounts? && route.accountsPath.Some? then Entry(route.accountsPath.value, route.index)
      else Block(route.path)
  }

  // ----- reading a route's credential again -----

  datatype Reloaded = Conflict | Nothing | Found(credential: Credential)

  function BlockAt(files: Files, path: string, providerKey: string): Option<Json> {
    match At(files, path)
    case Doc(Object(doc)) => if providerKey in doc && doc[providerKey].Object? then Some(doc[providerKey]) else None
    case _ => None
  }

  function EntryAt(files: Files, path: string, providerKey: string, index: nat): Option<map<string, Json>> {
    match At(files, path)
    case Doc(Object(doc)) =>
      if providerKey in doc && doc[providerKey].List? && index < |doc[providerKey].items|
         && doc[providerKey].items[index].Object? then
        Some(doc[providerKey].items[index].fields)
      else None
    case _ => None
  }

  /** The entry still names the route's account and is active, or is not, as it was. */
  predicate StillNames(entry: map<string, Json>, accountId: string, active: bool) {
    IsText(Get(entry, "accountId")) && TextAt(entry, "accountId") == accountId && IsActive(entry) == active
  }

  function Reload(files: Files, route: Route): Reloaded
    requires route.Route?
  {
    var entry := if route.accountsPath.Some? then
      EntryAt(files, route.accountsPath.value, route.providerKey, route.index) else None;
    if route.source.FromAccounts? then
      if entry.None? then Nothing
      else if !StillNames(entry.value, route.accountId, false) then Conflict
      else match ParseCredential(Get(entry.value, "data"), false)
        case None => Nothing
        case Some((credential, _)) => Found(credential)
    else if route.accountsPath.Some? && (entry.None? || !StillNames(entry.value, route.accountId, true)) then Conflict
    else match ParseCredential(BlockAt(files, route.path, route.providerKey), route.source.FromPi?)
      case None => Nothing
      case Some((credential, named)) =>
        if route.credentialAccountId != "" && named != route.credentialAccountId then Conflict else Found(credential)
  }

  /** The route is in order: not marked as failed, and its credential can be read again from where it came from. */
  predicate Loads(files: Files, route: Route)
    requires route.Route?
  {
    && !route.persistFailed && Reload(files, route) == Found(route.credential)
    && (route.source.FromAccounts? ==> route.accountsPath.Some? && route.accountId != "")
  }

  /** Two routes never write to the same place. */
  predicate TargetsDiffer(routes: map<string, Route>) {
    forall a, b :: a in routes && b in routes && a != b && routes[a].Route? && routes[b].Route? ==>
      TargetOf(routes[a]) != TargetOf(routes[b])
  }
}
