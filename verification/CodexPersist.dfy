/** Saving refreshed tokens back to the file an account's route came from. */
module CodexPersist {
  import opened Wrappers
  import opened CodexJson

  /** An absent token is empty; Pi also needs the expiry. */
  datatype Tokens = Tokens(access: string, refresh: string, expiresAt: Option<real>)

  datatype Outcome = Saved | NotSaved | Thrown | Delegated

  // ----- what is written -----

  function Put(fields: map<string, Json>, key: string, text: string): map<string, Json> {
    if text != "" then fields[key := Str(text)] else fields
  }

  function WithTokens(block: map<string, Json>, tokens: Tokens): map<string, Json> {
    var fields := Put(Put(block, "access", tokens.access), "refresh", tokens.refresh)["type" := Str("oauth")];
    if "expires" in fields && fields["expires"].Number? then fields else fields["expires" := Number(0.0)]
  }

  function Fields(file: Content): Option<map<string, Json>> {
    match file
    case Doc(Object(fields)) => Some(fields)
    case _ => None
  }

  /** The document of an auth file with the tokens in the provider's block, if the block is the account's. */
  function AuthDoc(file: Content, providerKey: string, tokens: Tokens, credentialAccountId: string): Option<Json> {
    match Fields(file)
    case None => None
    case Some(doc) =>
      if providerKey !in doc || !doc[providerKey].Object? then None
      else
        var block := doc[providerKey].fields;
        if credentialAccountId != ""
          && !(IsText(Get(block, "accountId")) && TextAt(block, "accountId") == credentialAccountId) then None
        else Some(Object(doc[providerKey := Object(WithTokens(block, tokens))]))
  }

  function EntryData(entry: map<string, Json>): map<string, Json> {
    if "data" in entry && entry["data"].Object? then entry["data"].fields else map[]
  }

  /** The document of an accounts file with the tokens in the entry at index, if it is the account's and not active. */
  function AccountsDoc(file: Content, providerKey: string, index: nat, tokens: Tokens,
                       accountId: string): Option<Json> {
    match Fields(file)
    case None => None
    case Some(doc) =>
      if providerKey !in doc || !doc[providerKey].List? || index >= |doc[providerKey].items| then None
      else
        var items := doc[providerKey].items;
        if !items[index].Object? || !StillNames(items[index].fields, accountId, false) then None
        else
          var data := Put(WithTokens(EntryData(items[index].fields), tokens), "accountId", accountId);
          Some(Object(doc[providerKey := List(items[index := Object(items[index].fields["data" := Object(data)])])]))
  }

  /** The document of the Pi auth file with the tokens, if its block is still the one that was selected for refresh. */
  function PiDoc(file: Content, route: Route, tokens: Tokens): Option<Json>
    requires route.Route?
  {
    match Fields(file)
    case None => None
    case Some(doc) =>
      var block := Get(doc, route.providerKey);
      var parsed := ParseCredential(block, true);
      if parsed.None? || parsed.value.1 != route.credentialAccountId || Some(parsed.value.0) != route.selected then None
      else if tokens.expiresAt.None? || tokens.expiresAt.value < 0.0 then None
      else
        var fields := block.value.fields;
        var access := if tokens.access != "" then fields["access" := Str(tokens.access)] else fields - {"access"};
        var written := Put(access, "refresh", tokens.refresh)["expires" := Number(tokens.expiresAt.value)];
        Some(Object(doc[route.providerKey := Object(written)]))
  }

  /** The file a save rewrites and its new document; None when it must not be written. */
  function Rewritten(files: Files, route: Route, tokens: Tokens): Option<(string, Json)>
    requires route.Route?
  {
    if route.source.FromAccounts? then
      if route.accountsPath.None? then None
      else match AccountsDoc(At(files, route.accountsPath.value), route.providerKey, route.index, tokens,
                             route.accountId)
        case None => None
        case Some(json) => Some((route.accountsPath.value, json))
    else
      var entry := if route.accountsPath.Some? then
        EntryAt(files, route.accountsPath.value, route.providerKey, route.index) else None;
      if route.source.FromAuth? && route.accountsPath.Some?
        && (entry.None? || !StillNames(entry.value, route.accountId, true)) then None
      else match if route.source.FromPi? then PiDoc(At(files, route.path), route, tokens)
                 else AuthDoc(At(files, route.path), route.providerKey, tokens, route.credentialAccountId)
        case None => None
        case Some(json) => Some((route.path, json))
  }

  // ----- saving -----

  datatype World = World(routes: map<string, Route>, files: Files)

  /** The route after its tokens were saved; a Pi route selects what was written. */
  function Renewed(route: Route, tokens: Tokens, json: Json): Route
    requires route.Route?
  {
    var credential := Credential(if tokens.access != "" then tokens.access else route.credential.access,
                                 if tokens.refresh != "" then tokens.refresh else route.credential.refresh,
                                 if route.source.FromPi? then tokens.expiresAt else route.credential.expires);
    var selected := if route.source.FromPi? then Selection(json, route.providerKey) else route.selected;
    route.(credential := credential, selected := selected)
  }

  function RawText(fields: map<string, Json>, key: string): string {
    if IsText(Get(fields, key)) then fields[key].text else ""
  }

  function Selection(json: Json, providerKey: string): Option<Credential> {
    match json
    case Object(doc) =>
      if providerKey !in doc || !doc[providerKey].Object? then None
      else
        var block := doc[providerKey].fields;
        var expires := if "expires" in block && block["expires"].Number? then Some(block["expires"].number) else None;
        Some(Credential(RawText(block, "access"), RawText(block, "refresh"), expires))
    case _ => None
  }

  function Save(w: World, id: string, tokens: Option<Tokens>, writable: bool): (World, Outcome) {
    if id == "" || id == "default" then (w, Delegated)
    else if id !in w.routes || w.routes[id].ErrorRoute? || w.routes[id].persistFailed then (w, Thrown)
    else if tokens.None? then (w, NotSaved)
    else
      var route := w.routes[id];
      var rewritten := Rewritten(w.files, route, tokens.value);
      if rewritten.Some? && writable then
        var (path, json) := rewritten.value;
        (World(w.routes[id := Renewed(route, tokens.value, json)], w.files[path := Doc(json)]), Saved)
      else (w.(routes := w.routes[id := route.(persistFailed := true)]), NotSaved)
  }

  /** What reading a route's credential again, ahead of a refresh, does to the route. */
  function Refreshed(w: World, id: string): World {
    if id !in w.routes || w.routes[id].ErrorRoute? || w.routes[id].persistFailed then w
    else
      var route := w.routes[id];
      match Reload(w.files, route)
      case Found(credential) =>
        var adopted := if route.source.FromPi? || credential.access != route.credential.access then credential
          else route.credential;
        var selected := if route.source.FromPi? then Some(credential) else route.selected;
        w.(routes := w.routes[id := route.(credential := adopted, selected := selected)])
      case _ => w
  }

  /** What reloading an account's state does to its route, even to one that failed: a credential that is not the state's
      is adopted, and for Pi any that is found. */
  function StateReloaded(w: World, id: string, access: string, refresh: string): World {
    if id !in w.routes || w.routes[id].ErrorRoute? then w
    else match Reload(w.files, w.routes[id])
      case Found(credential) =>
        if !w.routes[id].source.FromPi? && credential.access == access && credential.refresh == refresh then w
        else w.(routes := w.routes[id := w.routes[id].(credential := credential)])
      case _ => w
  }

  class Registry {
    var routes: map<string, Route>
    var files: Files

    method WriteText(path: string, json: Json, writable: bool) returns (ok: bool)
      modifies this`files
      ensures ok == writable && files == if ok then old(files)[path := Doc(json)] else old(files)
    {
      if writable {
        files := files[path := Doc(json)];
      }
      return writable;
    }

    method PersistToAuthFile(path: string, providerKey: string, tokens: Tokens, credentialAccountId: string,
                             writable: bool)
      returns (ok: bool)
      modifies this`files
      ensures var json := AuthDoc(At(old(files), path), providerKey, tokens, credentialAccountId);
              && ok == (json.Some? && writable)
              && files == if ok then old(files)[path := Doc(json.value)] else old(files)
    {
      var parsed := Fields(At(files, path));
      if parsed.None? {
        return false;
      }
      var doc := parsed.value;
      if providerKey !in doc || !doc[providerKey].Object? {
        return false;
      }
      var block := doc[providerKey].fields;
      if credentialAccountId != ""
        && (!IsText(Get(block, "accountId")) || TextAt(block, "accountId") != credentialAccountId) {
        return false;
      }
      if tokens.access != "" {
        block := block["access" := Str(tokens.access)];
      }
      if tokens.refresh != "" {
        block := block["refresh" := Str(tokens.refresh)];
      }
      block := block["type" := Str("oauth")];
      if "expires" !in block || !block["expires"].Number? {
        block := block["expires" := Number(0.0)];
      }
      doc := doc[providerKey := Object(block)];
      ok := WriteText(path, Object(doc), writable);
    }

    method PersistToAccountsFile(path: string, providerKey: string, index: nat, tokens: Tokens, accountId: string,
                                 writable: bool)
      returns (ok: bool)
      modifies this`files
      ensures var json := AccountsDoc(At(old(files), path), providerKey, index, tokens, accountId);
              && ok == (json.Some? && writable)
              && files == if ok then old(files)[path := Doc(json.value)] else old(files)
    {
      var parsed := Fields(At(files, path));
      if parsed.None? {
        return false;
      }
      var doc := parsed.value;
      if providerKey !in doc || !doc[providerKey].List? || index >= |doc[providerKey].items| {
        return false;
      }
      var items := doc[providerKey].items;
      if !items[index].Object? {
        return false;
      }
      var entry := items[index].fields;
      if !IsText(Get(entry, "accountId")) || TextAt(entry, "accountId") != accountId || IsActive(entry) {
        return false;
      }
      var data := EntryData(entry);
      if tokens.access != "" {
        data := data["access" := Str(tokens.access)];
      }
      if tokens.refresh != "" {
        data := data["refresh" := Str(tokens.refresh)];
      }
      data := data["type" := Str("oauth")];
      if "expires" !in data || !data["expires"].Number? {
        data := data["expires" := Number(0.0)];
      }
      if accountId != "" {
        data := data["accountId" := Str(accountId)];
      }
      entry := entry["data" := Object(data)];
      items := items[index := Object(entry)];
      doc := doc[providerKey := List(items)];
      ok := WriteText(path, Object(doc), writable);
    }

    /** An access token that is absent takes the stored one away. */
    method PersistPiTokens(route: Route, tokens: Tokens, writable: bool)
      returns (ok: bool, selected: Option<Credential>)
      requires route.Route? && route.source.FromPi?
      modifies this`files
      ensures var json := PiDoc(At(old(files), route.path), route, tokens);
              && ok == (json.Some? && writable)
              && files == (if ok then old(files)[route.path := Doc(json.value)] else old(files))
              && selected == if ok then Selection(json.value, route.providerKey) else route.selected
    {
      selected := route.selected;
      var file := Fields(At(files, route.path));
      if file.None? {
        return false, selected;
      }
      var doc := file.value;
      var parsed := ParseCredential(Get(doc, route.providerKey), true);
      if parsed.None? || parsed.value.1 != route.credentialAccountId || selected != Some(parsed.value.0) {
        return false, selected;
      }
      if tokens.expiresAt.None? || tokens.expiresAt.value < 0.0 {
        return false, selected;
      }
      var block := doc[route.providerKey].fields;
      block := if tokens.access != "" then block["access" := Str(tokens.access)] else block - {"access"};
      if tokens.refresh != "" {
        block := block["refresh" := Str(tokens.refresh)];
      }
      block := block["expires" := Number(tokens.expiresAt.value)];
      doc := doc[route.providerKey := Object(block)];
      ok := WriteText(route.path, Object(doc), writable);
      if ok {
        selected := Selection(Object(doc), route.providerKey);
      }
    }

    method SaveAuth(id: string, tokens: Option<Tokens>, writable: bool) returns (outcome: Outcome)
      modifies this
      ensures (World(routes, files), outcome) == Save(World(old(routes), old(files)), id, tokens, writable)
    {
      hide AuthDoc, AccountsDoc, PiDoc, Selection;
      if id == "" || id == "default" {
        return Delegated;
      }
      if id !in routes {
        return Thrown;
      }
      var route := routes[id];
      if route.ErrorRoute? || route.persistFailed {
        return Thrown;
      }
      if tokens.None? {
        return NotSaved;
      }
      var saved, selected := PersistRouteTokens(route, tokens.value, writable);
      if !saved {
        routes := routes[id := route.(persistFailed := true)];
        return NotSaved;
      }
      var Tokens(access, refresh, expiresAt) := tokens.value;
      var credential := route.credential;
      if access != "" {
        credential := credential.(access := access);
      }
      if refresh != "" {
        credential := credential.(refresh := refresh);
      }
      if route.source.FromPi? {
        credential := credential.(expires := expiresAt);
      }
      routes := routes[id := route.(credential := credential, selected := selected)];
      return Saved;
    }

    method Reread(id: string)
      modifies this`routes
      ensures World(routes, files) == Refreshed(World(old(routes), files), id)
    {
      hide Reload;
      if id !in routes || routes[id].ErrorRoute? || routes[id].persistFailed {
        return;
      }
      var route := routes[id];
      var reloaded := Reload(files, route);
      if !reloaded.Found? {
        return;
      }
      if route.source.FromPi? {
        route := route.(selected := Some(reloaded.credential));
      }
      if reloaded.credential.access != route.credential.access || route.source.FromPi? {
        route := route.(credential := reloaded.credential);
      }
      routes := routes[id := route];
    }

    method ReloadRouteState(id: string, access: string, refresh: string)
      modifies this`routes
      ensures World(routes, files) == StateReloaded(World(old(routes), files), id, access, refresh)
    {
      hide Reload;
      if id !in routes || routes[id].ErrorRoute? {
        return;
      }
      var reloaded := Reload(files, routes[id]);
      if !reloaded.Found? {
        return;
      }
      var credential := reloaded.credential;
      if credential.access == access && credential.refresh == refresh {
        if routes[id].source.FromPi? {
          routes := routes[id := routes[id].(credential := credential)];
        }
        return;
      }
      routes := routes[id := routes[id].(credential := credential)];
    }

    method PersistRouteTokens(route: Route, tokens: Tokens, writable: bool)
      returns (ok: bool, selected: Option<Credential>)
      requires route.Route?
      modifies this`files
      ensures var rewritten := Rewritten(old(files), route, tokens);
              && ok == (rewritten.Some? && writable)
              && files == (if ok then old(files)[rewritten.value.0 := Doc(rewritten.value.1)] else old(files))
              && (ok ==>
                  selected == if route.source.FromPi? then Selection(rewritten.value.1, route.providerKey)
                    else route.selected)
    {
      hide AuthDoc, AccountsDoc, PiDoc, Selection;
      selected := route.selected;
      if route.source.FromPi? {
        ok, selected := PersistPiTokens(route, tokens, writable);
        return;
      }
      if route.source.FromAccounts? {
        if route.accountsPath.None? {
          return false, selected;
        }
        ok := PersistToAccountsFile(route.accountsPath.value, route.providerKey, route.index, tokens, route.accountId,
                                    writable);
        return;
      }
      if route.accountsPath.Some? {
        var entry := EntryAt(files, route.accountsPath.value, route.providerKey, route.index);
        if entry.None? || !StillNames(entry.value, route.accountId, true) {
          return false, selected;
        }
      }
      ok := PersistToAuthFile(route.path, route.providerKey, tokens, route.credentialAccountId, writable);
    }
  }

  // ----- what a save changes -----

  ghost predicate SameBut<V>(before: map<string, V>, after: map<string, V>, keys: set<string>) {
    forall key :: key !in keys ==> (key in before <==> key in after) && (key in before ==> before[key] == after[key])
  }

  const TOKEN_FIELDS: set<string> := {"access", "refresh", "type", "expires"}

  /** The account's block changed in its token fields, and nothing else did. */
  ghost predicate BlockChanged(before: Files, after: Files, route: Route)
    requires route.Route?
  {
    && SameBut(before, after, {route.path})
    && Fields(At(before, route.path)).Some? && Fields(At(after, route.path)).Some?
    && var was, becomes := Fields(At(before, route.path)).value, Fields(At(after, route.path)).value;
       && SameBut(was, becomes, {route.providerKey})
       && Get(was, route.providerKey).Some? && was[route.providerKey].Object?
       && Get(becomes, route.providerKey).Some? && becomes[route.providerKey].Object?
       && SameBut(was[route.providerKey].fields, becomes[route.providerKey].fields, TOKEN_FIELDS)
       && (route.credentialAccountId != "" ==>
           TextAt(was[route.providerKey].fields, "accountId") == route.credentialAccountId)
  }

  /** The account's entry changed in the token fields of its data, and nothing else did: no other entry either. */
  ghost predicate EntryChanged(before: Files, after: Files, route: Route)
    requires route.Route? && route.accountsPath.Some?
  {
    var path := route.accountsPath.value;
    && SameBut(before, after, {path})
    && Fields(At(before, path)).Some? && Fields(At(after, path)).Some?
    && var was, becomes := Fields(At(before, path)).value, Fields(At(after, path)).value;
       && SameBut(was, becomes, {route.providerKey})
       && route.providerKey in was && was[route.providerKey].List?
       && route.providerKey in becomes && becomes[route.providerKey].List?
       && var items, now := was[route.providerKey].items, becomes[route.providerKey].items;
          && |items| == |now| && route.index < |items|
          && (forall i :: 0 <= i < |items| && i != route.index ==> items[i] == now[i])
          && items[route.index].Object? && now[route.index].Object?
          && StillNames(items[route.index].fields, route.accountId, false)
          && SameBut(items[route.index].fields, now[route.index].fields, {"data"})
          && SameBut(EntryData(items[route.index].fields), EntryData(now[route.index].fields),
                     TOKEN_FIELDS + {"accountId"})
  }

  lemma TokenFieldsOnly(block: map<string, Json>, tokens: Tokens)
    ensures SameBut(block, WithTokens(block, tokens), TOKEN_FIELDS)
    ensures SameBut(block, Put(block, "refresh", tokens.refresh), {"refresh"})
  {
  }

  /** A save writes nothing unless it reports success, and then only what belongs to the account. */
  lemma SaveChangesOnlyItsOwnEntry(w: World, id: string, tokens: Option<Tokens>, writable: bool)
    ensures var (after, outcome) := Save(w, id, tokens, writable);
            && (outcome != Saved ==> after.files == w.files)
            && (outcome == Saved ==>
                  && id in w.routes && w.routes[id].Route?
                  && if w.routes[id].source.FromAccounts? && w.routes[id].accountsPath.Some? then
                    EntryChanged(w.files, after.files, w.routes[id])
                     else BlockChanged(w.files, after.files, w.routes[id]))
  {
    hide EntryChanged, BlockChanged, Rewritten;
    if Save(w, id, tokens, writable).1 == Saved {
      RewriteChangesOnlyItsOwnEntry(w.files, w.routes[id], tokens.value);
    }
  }

  lemma RewriteChangesOnlyItsOwnEntry(files: Files, route: Route, tokens: Tokens)
    requires route.Route? && Rewritten(files, route, tokens).Some?
    ensures var (path, json) := Rewritten(files, route, tokens).value;
            if route.source.FromAccounts? && route.accountsPath.Some? then
              EntryChanged(files, files[path := Doc(json)], route)
            else BlockChanged(files, files[path := Doc(json)], route)
  {
    hide AuthDoc, AccountsDoc, PiDoc, EntryChanged, BlockChanged;
    if route.source.FromAccounts? {
      AccountsDocIsClose(files, route, tokens);
    } else if route.source.FromPi? {
      PiDocIsClose(files, route, tokens);
    } else {
      AuthDocIsClose(files, route, tokens);
    }
  }

  lemma AuthDocIsClose(files: Files, route: Route, tokens: Tokens)
    requires route.Route?
    ensures var json := AuthDoc(At(files, route.path), route.providerKey, tokens, route.credentialAccountId);
            json.Some? ==> BlockChanged(files, files[route.path := Doc(json.value)], route)
  {
  }

  lemma AccountsDocIsClose(files: Files, route: Route, tokens: Tokens)
    requires route.Route? && route.accountsPath.Some?
    ensures var json := AccountsDoc(At(files, route.accountsPath.value), route.providerKey, route.index, tokens,
                                    route.accountId);
            json.Some? ==> EntryChanged(files, files[route.accountsPath.value := Doc(json.value)], route)
  {
    hide WithTokens, StillNames;
    if AccountsDoc(At(files, route.accountsPath.value), route.providerKey, route.index, tokens, route.accountId).Some? {
      var doc := Fields(At(files, route.accountsPath.value)).value;
      TokenFieldsOnly(EntryData(doc[route.providerKey].items[route.index].fields), tokens);
    }
  }

  lemma PiDocIsClose(files: Files, route: Route, tokens: Tokens)
    requires route.Route?
    ensures var json := PiDoc(At(files, route.path), route, tokens);
            json.Some? ==> BlockChanged(files, files[route.path := Doc(json.value)], route)
  {
  }

  // ----- other accounts -----

  ghost predicate Changed(before: Files, after: Files, route: Route)
    requires route.Route?
  {
    if route.source.FromAccounts? && route.accountsPath.Some? then EntryChanged(before, after, route)
      else BlockChanged(before, after, route)
  }

  lemma NamesAreKept(before: map<string, Json>, after: map<string, Json>, accountId: string, active: bool)
    requires SameBut(before, after, {"data"})
    ensures StillNames(before, accountId, active) == StillNames(after, accountId, active)
  {
  }

  lemma BlockOfAnother(before: Files, after: Files, a: Route, b: Route)
    requires a.Route? && b.Route? && Changed(before, after, a) && TargetOf(a) != TargetOf(b)
    requires (b.source.FromAccounts? ==> b.accountsPath.Some?)
    ensures !b.source.FromAccounts? ==> BlockAt(before, b.path, b.providerKey) == BlockAt(after, b.path, b.providerKey)
  {
    hide StillNames, EntryData;
  }

  lemma EntryOfAnother(before: Files, after: Files, a: Route, b: Route)
    requires a.Route? && b.Route? && Changed(before, after, a) && TargetOf(a) != TargetOf(b) && b.accountsPath.Some?
    ensures var was := EntryAt(before, b.accountsPath.value, b.providerKey, b.index);
            var now := EntryAt(after, b.accountsPath.value, b.providerKey, b.index);
            && was.Some? == now.Some?
            && (was.Some? ==> if b.source.FromAccounts? then was == now else SameBut(was.value, now.value, {"data"}))
  {
    hide StillNames, EntryData;
  }

  /** What a save wrote cannot be seen through a route with another target. */
  lemma OthersReadTheSame(before: Files, after: Files, a: Route, b: Route)
    requires a.Route? && b.Route? && Changed(before, after, a) && TargetOf(a) != TargetOf(b)
    requires (b.source.FromAccounts? ==> b.accountsPath.Some?)
    ensures Reload(before, b) == Reload(after, b)
  {
    hide Changed, TargetOf, BlockAt, EntryAt, StillNames, ParseCredential, SameBut;
    BlockOfAnother(before, after, a, b);
    if b.accountsPath.Some? {
      EntryOfAnother(before, after, a, b);
      var was := EntryAt(before, b.accountsPath.value, b.providerKey, b.index);
      var now := EntryAt(after, b.accountsPath.value, b.providerKey, b.index);
      if was.Some? && !b.source.FromAccounts? {
        NamesAreKept(was.value, now.value, b.accountId, true);
      }
    }
  }

  // ----- reading back -----

  /** The fields a route's tokens are stored in. */
  function Stored(files: Files, route: Route): map<string, Json>
    requires route.Route?
  {
    if route.source.FromAccounts? then
      if route.accountsPath.None? then map[]
      else match EntryAt(files, route.accountsPath.value, route.providerKey, route.index)
        case None => map[]
        case Some(entry) => EntryData(entry)
    else match BlockAt(files, route.path, route.providerKey)
      case Some(Object(fields)) => fields
      case _ => map[]
  }

  function Kept(token: string, stored: string): string { if token != "" then Trim(token) else stored }

  lemma TokensAreThere(block: map<string, Json>, tokens: Tokens)
    ensures TextAt(WithTokens(block, tokens), "access") == Kept(tokens.access, TextAt(block, "access"))
    ensures TextAt(WithTokens(block, tokens), "refresh") == Kept(tokens.refresh, TextAt(block, "refresh"))
    ensures TextAt(WithTokens(block, tokens), "accountId") == TextAt(block, "accountId")
  {
    hide Trim;
  }

  lemma AuthReadsBack(files: Files, route: Route, tokens: Tokens)
    requires route.Route? && route.source.FromAuth? && route.accountsPath != Some(route.path)
    requires Rewritten(files, route, tokens).Some?
    ensures var (path, json) := Rewritten(files, route, tokens).value;
            var access := Kept(tokens.access, TextAt(Stored(files, route), "access"));
            var refresh := Kept(tokens.refresh, TextAt(Stored(files, route), "refresh"));
            Reload(files[path := Doc(json)], route) == if access == "" then Nothing
              else Found(Credential(access, refresh, None))
  {
    hide StillNames, WithTokens, TextAt, Kept;
    TokensAreThere(Stored(files, route), tokens);
  }

  lemma AccountsReadsBack(files: Files, route: Route, tokens: Tokens)
    requires route.Route? && route.source.FromAccounts? && Rewritten(files, route, tokens).Some?
    ensures var (path, json) := Rewritten(files, route, tokens).value;
            var access := Kept(tokens.access, TextAt(Stored(files, route), "access"));
            var refresh := Kept(tokens.refresh, TextAt(Stored(files, route), "refresh"));
            Reload(files[path := Doc(json)], route) == if access == "" then Nothing
              else Found(Credential(access, refresh, None))
  {
    hide WithTokens, Kept, Trim, EntryData;
    var data := Stored(files, route);
    TokensAreThere(data, tokens);
    var entry := EntryAt(files, route.accountsPath.value, route.providerKey, route.index).value;
    var written := Put(WithTokens(data, tokens), "accountId", route.accountId);
    NamesAreKept(entry, entry["data" := Object(written)], route.accountId, false);
  }

  lemma PiReadsBack(files: Files, route: Route, tokens: Tokens)
    requires route.Route? && route.source.FromPi? && route.accountsPath.None? && Rewritten(files, route, tokens).Some?
    ensures var (path, json) := Rewritten(files, route, tokens).value;
            var refresh := Kept(tokens.refresh, TextAt(Stored(files, route), "refresh"));
            Reload(files[path := Doc(json)], route)
            == if Trim(tokens.access) == "" || refresh == "" then Nothing
              else Found(Credential(Trim(tokens.access), refresh, tokens.expiresAt))
  {
    hide Trim;
    TrimEmpty();
  }

  lemma TrimEmpty()
    ensures Trim("") == ""
  {
  }

  /** The tokens of a successful save are read back from the file, trimmed, an absent one being the one stored before;
      but Pi loses a stored access token when the save brings none, and blank tokens leave nothing to read. */
  lemma SavedTokensAreReadBack(w: World, id: string, tokens: Tokens)
    requires Save(w, id, Some(tokens), true).1 == Saved
    requires w.routes[id].accountsPath != Some(w.routes[id].path)
    requires (w.routes[id].source.FromPi? ==> w.routes[id].accountsPath.None?)
    ensures var route := w.routes[id];
            var after := Save(w, id, Some(tokens), true).0;
            var access := if route.source.FromPi? then Trim(tokens.access)
              else Kept(tokens.access, TextAt(Stored(w.files, route), "access"));
            var refresh := Kept(tokens.refresh, TextAt(Stored(w.files, route), "refresh"));
            var expires := if route.source.FromPi? then tokens.expiresAt else None;
            && after.routes[id].Route?
            && Reload(after.files, after.routes[id])
               == if access == "" || (route.source.FromPi? && refresh == "") then Nothing
                 else Found(Credential(access, refresh, expires))
  {
    hide Rewritten, Stored, Trim, Reload;
    var route := w.routes[id];
    var (path, json) := Rewritten(w.files, route, tokens).value;
    SamePlace(w.files[path := Doc(json)], route, Renewed(route, tokens, json));
    match route.source {
      case FromAuth => AuthReadsBack(w.files, route, tokens);
      case FromAccounts => AccountsReadsBack(w.files, route, tokens);
      case FromPi => PiReadsBack(w.files, route, tokens);
    }
  }

  /** Only the credential held in memory and the marks of the route differ. */
  predicate SamePlaceAs(a: Route, b: Route) {
    a.Route? && b.Route?
      && b == a.(credential := b.credential, selected := b.selected, persistFailed := b.persistFailed)
  }

  lemma SamePlace(files: Files, a: Route, b: Route)
    requires SamePlaceAs(a, b)
    ensures Reload(files, a) == Reload(files, b) && TargetOf(a) == TargetOf(b)
  {
  }

  // ----- runs -----

  /** A save, the reading that precedes a refresh, a credential that a refresh over the network leaves in memory, a
      reload of the state that holds the given tokens, or somebody else's edit of a file. */
  datatype Action =
    | SaveTokens(id: string, tokens: Option<Tokens>, writable: bool)
    | Reread(id: string)
    | Remember(id: string, credential: Credential)
    | ReloadState(id: string, access: string, refresh: string)
    | Edit(path: string, content: Content)

  function Step(w: World, action: Action): World {
    match action
    case SaveTokens(id, tokens, writable) => Save(w, id, tokens, writable).0
    case Reread(id) => Refreshed(w, id)
    case Remember(id, credential) =>
      if id in w.routes && w.routes[id].Route? then
        w.(routes := w.routes[id := w.routes[id].(credential := credential)]) else w
    case ReloadState(id, access, refresh) => StateReloaded(w, id, access, refresh)
    case Edit(path, content) => w.(files := w.files[path := content])
  }

  function After(w: World, actions: seq<Action>): World
    decreases |actions|
  {
    if actions == [] then w else After(Step(w, actions[0]), actions[1..])
  }

  lemma {:induction false} FailedRouteStays(w: World, actions: seq<Action>, id: string)
    requires id in w.routes && w.routes[id].Route? && w.routes[id].persistFailed
    ensures var now := After(w, actions);
            id in now.routes && now.routes[id].Route? && now.routes[id].persistFailed
    decreases |actions|
  {
    if actions != [] {
      hide Rewritten, Reload, Renewed;
      FailedRouteStays(Step(w, actions[0]), actions[1..], id);
    }
  }

  /** Once tokens could not be saved, the route never writes again, whatever happens in between: every save throws. */
  lemma FailedSaveIsFinal(w: World, id: string, tokens: Tokens, writable: bool, actions: seq<Action>,
                          later: Option<Tokens>, laterWritable: bool)
    requires Save(w, id, Some(tokens), writable).1 == NotSaved
    ensures var now := After(Save(w, id, Some(tokens), writable).0, actions);
            Save(now, id, later, laterWritable) == (now, Thrown)
  {
    hide Rewritten, Renewed;
    FailedRouteStays(Save(w, id, Some(tokens), writable).0, actions, id);
  }

  /** Nobody else edits the files of the route, and its own tokens are not saved. */
  predicate LeavesAlone(action: Action, id: string, route: Route)
    requires route.Route?
  {
    match action
    case SaveTokens(saved, _, _) => saved != id
    case Reread(_) => true
    case Remember(_, _) => true
    case ReloadState(_, _, _) => true
    case Edit(path, _) => path != route.path && Some(path) != route.accountsPath
  }

  /** All routes stay where they are. */
  predicate Preserved(before: map<string, Route>, after: map<string, Route>) {
    before.Keys == after.Keys && forall id :: id in before ==>
      before[id] == after[id] || SamePlaceAs(before[id], after[id])
  }

  lemma StepPreserves(w: World, action: Action)
    ensures Preserved(w.routes, Step(w, action).routes)
  {
    hide Rewritten, Reload, Selection;
  }

  lemma PreservedTargets(before: map<string, Route>, after: map<string, Route>)
    requires Preserved(before, after) && TargetsDiffer(before)
    ensures TargetsDiffer(after)
  {
  }

  lemma StepLeavesReadings(w: World, action: Action, id: string)
    requires TargetsDiffer(w.routes) && id in w.routes && w.routes[id].Route? && LeavesAlone(action, id, w.routes[id])
    requires w.routes[id].source.FromAccounts? ==> w.routes[id].accountsPath.Some?
    ensures Reload(Step(w, action).files, w.routes[id]) == Reload(w.files, w.routes[id])
  {
    hide Rewritten, Renewed, ParseCredential, StillNames;
    var route := w.routes[id];
    match action {
      case SaveTokens(other, tokens, writable) =>
        SaveChangesOnlyItsOwnEntry(w, other, tokens, writable);
        if Save(w, other, tokens, writable).1 == Saved {
          OthersReadTheSame(w.files, Step(w, action).files, w.routes[other], route);
        }
      case Reread(_) =>
      case Remember(_, _) =>
      case ReloadState(_, _, _) =>
      case Edit(path, content) =>
        assert At(Step(w, action).files, route.path) == At(w.files, route.path);
    }
  }

  /** Over any run of saves for other accounts, refreshes, and edits of other files, an account can read its credential
      exactly as it could at the start. */
  lemma AccountsStayApart(w: World, actions: seq<Action>, id: string)
    requires TargetsDiffer(w.routes) && id in w.routes && w.routes[id].Route? && Loads(w.files, w.routes[id])
    requires forall action :: action in actions ==> LeavesAlone(action, id, w.routes[id])
    ensures var now := After(w, actions);
            id in now.routes && now.routes[id].Route?
              && Reload(now.files, now.routes[id]) == Found(w.routes[id].credential)
  {
    ReadingsStay(w, actions, id);
  }

  lemma {:induction false} ReadingsStay(w: World, actions: seq<Action>, id: string)
    requires TargetsDiffer(w.routes) && id in w.routes && w.routes[id].Route?
    requires w.routes[id].source.FromAccounts? ==> w.routes[id].accountsPath.Some?
    requires forall action :: action in actions ==> LeavesAlone(action, id, w.routes[id])
    ensures var now := After(w, actions);
            id in now.routes && now.routes[id].Route?
              && Reload(now.files, now.routes[id]) == Reload(w.files, w.routes[id])
    decreases |actions|
  {
    if actions != [] {
      hide Step, Reload, TargetsDiffer;
      var next := Step(w, actions[0]);
      StepPreserves(w, actions[0]);
      PreservedTargets(w.routes, next.routes);
      StepLeavesReadings(w, actions[0], id);
      if next.routes[id] != w.routes[id] {
        SamePlace(next.files, w.routes[id], next.routes[id]);
      }
      forall action | action in actions[1..]
        ensures LeavesAlone(action, id, next.routes[id])
      {
        assert action in actions;
      }
      ReadingsStay(next, actions[1..], id);
    }
  }
}
