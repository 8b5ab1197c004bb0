/** Which of the discovered accounts can be used, and with which credential, in terms of what the files hold. */
module CodexReady {
  import opened Wrappers
  import opened CodexJson
  import opened CodexDiscovery

  // ----- texts -----

  /** Spaces are the code points with the property White_Space and the byte order mark, but for the next line control.
      */
  lemma SpaceCodes(c: char)
    ensures IsSpace(c) <==>
            c as int in {9, 10, 11, 12, 13, 32, 160, 5760, 8192, 8193, 8194, 8195, 8196, 8197, 8198, 8199, 8200, 8201,
                         8202, 8232, 8233, 8239, 8287, 12288, 65279}
  {
  }

  ghost predicate AllSpace(s: string) {
    forall i :: 0 <= i < |s| ==> IsSpace(s[i])
  }

  /** t is s without the white space around it. */
  ghost predicate IsTrimmed(s: string, t: string) {
    && (exists a, b :: s == a + t + b && AllSpace(a) && AllSpace(b))
    && (t != "" ==> !IsSpace(t[0]) && !IsSpace(t[|t| - 1]))
  }

  lemma {:induction false} TrimmedStart(s: string) returns (a: string)
    ensures s == a + TrimStart(s) && AllSpace(a) && (TrimStart(s) != "" ==> !IsSpace(TrimStart(s)[0]))
  {
    a := "";
    if s != "" && IsSpace(s[0]) {
      var b := TrimmedStart(s[1..]);
      a := [s[0]] + b;
    }
  }

  lemma {:induction false} TrimmedEnd(s: string) returns (b: string)
    ensures s == TrimEnd(s) + b && AllSpace(b) && TrimEnd(s) <= s
    ensures TrimEnd(s) != "" ==> !IsSpace(TrimEnd(s)[|TrimEnd(s)| - 1])
  {
    b := "";
    if s != "" && IsSpace(s[|s| - 1]) {
      var c := TrimmedEnd(s[..|s| - 1]);
      b := c + [s[|s| - 1]];
    }
  }

  lemma TrimTrims(s: string)
    ensures IsTrimmed(s, Trim(s))
  {
    var a := TrimmedStart(s);
    var b := TrimmedEnd(TrimStart(s));
    assert s == a + Trim(s) + b;
  }

  /** The text has something else than white space. */
  ghost predicate HasInk(s: string) {
    exists i :: 0 <= i < |s| && !IsSpace(s[i])
  }

  lemma InkIsLeft(s: string)
    ensures Trim(s) != "" <==> HasInk(s)
    ensures IsTrimmed(s, Trim(s))
  {
    TrimTrims(s);
    var t := Trim(s);
    var a, b :| s == a + t + b && AllSpace(a) && AllSpace(b);
    if t != "" {
      assert s[|a|] == t[0];
    } else {
      assert forall i :: 0 <= i < |s| ==> s[i] == if i < |a| then a[i] else b[i - |a|];
    }
  }

  // ----- fields -----

  ghost predicate HasText(fields: map<string, Json>, key: string) {
    key in fields && fields[key].Str? && HasInk(fields[key].text)
  }

  /** value is the trimmed text of the field, or empty if the field is missing or is no text. */
  ghost predicate IsTextOf(value: string, fields: map<string, Json>, key: string) {
    if key in fields && fields[key].Str? then IsTrimmed(fields[key].text, value) else value == ""
  }

  lemma TextOfField(fields: map<string, Json>, key: string)
    ensures TextAt(fields, key) != "" <==> HasText(fields, key)
    ensures IsTextOf(TextAt(fields, key), fields, key)
  {
    if key in fields && fields[key].Str? {
      InkIsLeft(fields[key].text);
    }
  }

  /** An OpenCode block can be used if it has an access token. */
  ghost predicate Usable(block: Option<Json>) {
    block.Some? && block.value.Object? && HasText(block.value.fields, "access")
  }

  /** A Pi block must also say that it is of type "oauth", until when it is valid, whose it is, and how to refresh it.
      */
  ghost predicate UsableForPi(block: Option<Json>) {
    && Usable(block)
    && var fields := block.value.fields;
    && "type" in fields && fields["type"] == Str("oauth") && HasText(fields, "refresh") && HasText(fields, "accountId")
    && "expires" in fields && fields["expires"].Number? && fields["expires"].number >= 0.0
  }

  ghost predicate TakenFrom(credential: Credential, fields: map<string, Json>) {
    IsTextOf(credential.access, fields, "access") && IsTextOf(credential.refresh, fields, "refresh")
  }

  lemma ParsedBlock(block: Option<Json>)
    ensures ParseCredential(block, false).Some? <==> Usable(block)
    ensures ParseCredential(block, true).Some? <==> UsableForPi(block)
    ensures forall pi :: ParseCredential(block, pi).Some? ==>
              var (credential, named) := ParseCredential(block, pi).value;
              && TakenFrom(credential, block.value.fields) && IsTextOf(named, block.value.fields, "accountId")
              && credential.expires == if pi then Some(block.value.fields["expires"].number) else None
  {
    hide TextAt, HasText, IsTextOf;
    if block.Some? && block.value.Object? {
      TextOfField(block.value.fields, "access");
      TextOfField(block.value.fields, "refresh");
      TextOfField(block.value.fields, "accountId");
    }
  }

  // ----- listed accounts -----

  /** The files of the two OpenCode sources. */
  predicate SourceFiles(i: nat, auth: string, listed: string) {
    || (i == 0 && auth == "~/.local/share/opencode/auth.json" && listed == "~/.local/share/opencode/accounts.json")
    || (i == 1 && auth == "~/.config/opencode/auth.json" && listed == "~/.config/opencode/accounts.json")
  }

  /** What the document in a file holds under a key. */
  function Member(files: Files, path: string, key: string): Option<Json> {
    if path in files && files[path].Doc? && files[path].json.Object? && key in files[path].json.fields then
      Some(files[path].json.fields[key])
    else None
  }

  ghost predicate NamedEntry(entry: Json) {
    entry.Object? && HasText(entry.fields, "accountId")
  }

  predicate ActiveEntry(entry: Json) {
    entry.Object? && "isActive" in entry.fields && entry.fields["isActive"] == Bool(true)
  }

  lemma NameOfEntry(entry: Json)
    ensures DeclaredId(entry) != "" <==> NamedEntry(entry)
    ensures NamedEntry(entry) ==> IsTextOf(DeclaredId(entry), entry.fields, "accountId")
  {
    if entry.Object? {
      TextOfField(entry.fields, "accountId");
    }
  }

  /** A list is accepted if exactly one entry is active, no two entries have the same name, and no name is one that
      every object inherits. */
  lemma AcceptedLists(entries: seq<Json>)
    ensures Accepted(entries) <==>
            && (exists a :: 0 <= a < |entries| && ActiveEntry(entries[a]))
            && (forall a, b :: 0 <= a < b < |entries| ==> !(ActiveEntry(entries[a]) && ActiveEntry(entries[b])))
            && (forall a, b :: 0 <= a < b < |entries| && NamedEntry(entries[a]) && NamedEntry(entries[b]) ==>
                DeclaredId(entries[a]) != DeclaredId(entries[b]))
            && (forall a :: 0 <= a < |entries| && NamedEntry(entries[a]) ==> DeclaredId(entries[a]) !in INHERITED)
  {
    hide DeclaredId, NamedEntry;
    forall a | 0 <= a < |entries|
      ensures DeclaredId(entries[a]) != "" <==> NamedEntry(entries[a])
    {
      NameOfEntry(entries[a]);
    }
    OneActiveEntry(entries);
    assert Names(entries) !! INHERITED <==>
           forall a :: 0 <= a < |entries| && NamedEntry(entries[a]) ==> DeclaredId(entries[a]) !in INHERITED;
  }

  lemma {:induction false} OneActiveEntry(entries: seq<Json>)
    ensures ActiveCount(entries) == 0 <==> forall a :: 0 <= a < |entries| ==> !ActiveEntry(entries[a])
    ensures ActiveCount(entries) <= 1 <==>
            forall a, b :: 0 <= a < b < |entries| ==> !(ActiveEntry(entries[a]) && ActiveEntry(entries[b]))
  {
    if entries != [] {
      var n := |entries| - 1;
      OneActiveEntry(entries[..n]);
      assert forall a :: 0 <= a < n ==> entries[..n][a] == entries[a];
    }
  }

  /** Where a listed account has its credential: the active one in the auth file, any other in its own entry. */
  function BlockOf(files: Files, auth: string, entry: Json): Option<Json>
    requires entry.Object?
  {
    if ActiveEntry(entry) then Member(files, auth, "openai")
    else if "data" in entry.fields then Some(entry.fields["data"])
    else None
  }

  lemma ReadMember(files: Files, path: string, key: string, blank: bool)
    ensures Member(files, path, key) ==
              match ReadJsonFile(files, path, blank) case Value(fields) => Get(fields, key) case _ => None
  {
  }

  /** Where a route's credential came from. */
  predicate ComesFrom(route: Route, source: Source, path: string, listed: Option<string>, index: nat, key: string)
    requires route.Route?
  {
    && route.source == source && route.path == path && route.accountsPath == listed && route.index == index
    && route.providerKey == key && route.selected.None? && !route.persistFailed
  }

  /** The route of a listed account: its name is the entry's, and if it is active it remembers whom its block names. */
  ghost predicate RouteOfEntry(route: Route, entry: Json, block: map<string, Json>, auth: string, listed: string,
                               j: nat)
    requires route.Route? && entry.Object?
  {
    && ComesFrom(route, if ActiveEntry(entry) then FromAuth else FromAccounts, auth, Some(listed), j, "openai")
    && IsTextOf(route.accountId, entry.fields, "accountId") && TakenFrom(route.credential, block)
    && if ActiveEntry(entry) then IsTextOf(route.credentialAccountId, block, "accountId")
       else route.credentialAccountId == ""
  }

  lemma EntryCredential(files: Files, i: nat, auth: string, listed: string, entry: Json)
    requires SourceFiles(i, auth, listed) && entry.Object?
    ensures (if IsActive(entry.fields) then ReadAuthCredential(files, AuthPath(i))
             else ParseCredential(Get(entry.fields, "data"), false))
              == ParseCredential(BlockOf(files, auth, entry), false)
    ensures IsActive(entry.fields) <==> ActiveEntry(entry)
  {
    hide ParseCredential, ReadJsonFile;
    ReadMember(files, auth, "openai", false);
    ParsedBlock(None);
  }

  lemma EntryIsReady(files: Files, i: nat, auth: string, listed: string, entries: seq<Json>, j: nat)
    requires SourceFiles(i, auth, listed) && j < |entries|
    ensures var route, entry := EntryRoute(files, i, entries, j), entries[j];
            && (route.Route? <==> NamedEntry(entry) && Usable(BlockOf(files, auth, entry)))
            && (route.Route? ==>
                  && RouteOfEntry(route, entry, BlockOf(files, auth, entry).value.fields, auth, listed, j)
                  && TargetOf(route) == if ActiveEntry(entry) then Block(auth) else Entry(listed, j))
  {
    hide ParseCredential, HasText, TakenFrom, IsTextOf, ReadAuthCredential, BlockOf, ActiveEntry, IsActive, Usable,
      DeclaredId;
    NameOfEntry(entries[j]);
    if entries[j].Object? {
      EntryCredential(files, i, auth, listed, entries[j]);
      ParsedBlock(BlockOf(files, auth, entries[j]));
    }
  }

  // ----- what discovery leads to -----

  /** What the registry holds after discovery. */
  ghost predicate Discovered(files: Files, plugin: seq<Account>, accounts: seq<Account>, routes: map<string, Route>) {
    && Registered(accounts, |plugin|, routes)
    && Added(plugin, map[], accounts, routes, SourceRoutes(files, 0) + SourceRoutes(files, 1) + PiRoutes(files))
  }

  /** The k-th of the routes that the files lead to is under the id of the k-th added account. */
  lemma RouteAt(files: Files, plugin: seq<Account>, accounts: seq<Account>, routes: map<string, Route>, k: nat)
    returns (id: string)
    requires Discovered(files, plugin, accounts, routes)
    requires k < |SourceRoutes(files, 0)| + |SourceRoutes(files, 1)| + |PiRoutes(files)|
    ensures |plugin| + k < |accounts| && accounts[|plugin| + k].id == Some(id)
    ensures id in routes
            && routes[id] == (SourceRoutes(files, 0) + SourceRoutes(files, 1) + PiRoutes(files))[k]
  {
    hide SourceRoutes, PiRoutes, Registered;
    var list := SourceRoutes(files, 0) + SourceRoutes(files, 1) + PiRoutes(files);
    assert Leads(accounts, routes, |plugin| + k, list[k]);
    id := accounts[|plugin| + k].id.value;
  }

  /** The added accounts: one that cannot be used counts as active and has no subject; a usable one counts as active
      unless it is listed as inactive, and its subject is the name of the account, or else its id. */
  lemma AddedAccounts(files: Files, plugin: seq<Account>, accounts: seq<Account>, routes: map<string, Route>, i: nat)
    requires Discovered(files, plugin, accounts, routes) && |plugin| <= i < |accounts|
    ensures accounts[i].id.Some? && accounts[i].id.value in routes
    ensures var account, route := accounts[i], routes[accounts[i].id.value];
            if route.ErrorRoute? then account.isActive && account.subject == ""
            else
              && (account.isActive <==> !route.source.FromAccounts?)
              && account.subject == if route.accountId != "" then route.accountId else account.id.value
  {
    hide SourceRoutes, PiRoutes, Registered;
    var list := SourceRoutes(files, 0) + SourceRoutes(files, 1) + PiRoutes(files);
    assert Leads(accounts, routes, i, list[i - |plugin|]);
  }

  lemma RouteOfSource(files: Files, plugin: seq<Account>, accounts: seq<Account>, routes: map<string, Route>, i: nat,
                      j: nat)
    returns (id: string)
    requires Discovered(files, plugin, accounts, routes) && i < 2 && j < |SourceRoutes(files, i)|
    ensures id in routes && routes[id] == SourceRoutes(files, i)[j]
  {
    hide SourceRoutes, PiRoutes, Discovered;
    id := RouteAt(files, plugin, accounts, routes, if i == 0 then j else |SourceRoutes(files, 0)| + j);
  }

  /** Every entry of an accepted list has a route. It is ready exactly if the entry has a name and its credential has an
      access token: the one in the auth file for the active entry, its own for any other. A ready route has the trimmed
      tokens, and is written back to where they came from. */
  lemma ListedAccount(files: Files, plugin: seq<Account>, accounts: seq<Account>, routes: map<string, Route>, i: nat,
                      auth: string, listed: string, entries: seq<Json>, j: nat)
    returns (id: string)
    requires Discovered(files, plugin, accounts, routes) && SourceFiles(i, auth, listed)
    requires Member(files, listed, "openai") == Some(List(entries)) && Accepted(entries) && j < |entries|
    ensures id in routes
    ensures var entry := entries[j];
            routes[id].Route? <==> NamedEntry(entry) && Usable(BlockOf(files, auth, entry))
    ensures routes[id].Route? ==>
              && RouteOfEntry(routes[id], entries[j], BlockOf(files, auth, entries[j]).value.fields, auth, listed, j)
              && TargetOf(routes[id]) == if ActiveEntry(entries[j]) then Block(auth) else Entry(listed, j)
  {
    hide Discovered, Accepted, EntryRoute, Usable, RouteOfEntry, TargetOf, BlockOf, NamedEntry, ReadJsonFile;
    ReadMember(files, listed, "openai", false);
    EntryIsReady(files, i, auth, listed, entries, j);
    id := RouteOfSource(files, plugin, accounts, routes, i, j);
  }

  /** The list of an accounts file that is not accepted leads to an error route. */
  lemma RefusedList(files: Files, plugin: seq<Account>, accounts: seq<Account>, routes: map<string, Route>, i: nat,
                    auth: string, listed: string, json: Json)
    returns (id: string)
    requires Discovered(files, plugin, accounts, routes) && SourceFiles(i, auth, listed)
    requires Member(files, listed, "openai") == Some(json) && !(json.List? && Accepted(json.items))
    ensures id in routes && routes[id].ErrorRoute?
  {
    hide Discovered, Accepted, ReadJsonFile;
    ReadMember(files, listed, "openai", false);
    id := RouteOfSource(files, plugin, accounts, routes, i, 0);
  }

  /** No accounts file, an empty one, or one that does not mention the provider. */
  predicate NoList(files: Files, listed: string) {
    || listed !in files || files[listed].Missing? || files[listed].EmptyText?
    || (files[listed].Doc? && files[listed].json.Object? && "openai" !in files[listed].json.fields)
  }

  /** Without a list the block of the auth file is an account, ready exactly if it has an access token. */
  lemma LegacyAccount(files: Files, plugin: seq<Account>, accounts: seq<Account>, routes: map<string, Route>, i: nat,
                      auth: string, listed: string)
    returns (id: string)
    requires Discovered(files, plugin, accounts, routes) && SourceFiles(i, auth, listed) && NoList(files, listed)
    requires Member(files, auth, "openai").Some?
    ensures id in routes && (routes[id].Route? <==> Usable(Member(files, auth, "openai")))
    ensures routes[id].Route? ==>
              && var fields := Member(files, auth, "openai").value.fields;
              && ComesFrom(routes[id], FromAuth, auth, None, 0, "openai") && TargetOf(routes[id]) == Block(auth)
              && TakenFrom(routes[id].credential, fields) && IsTextOf(routes[id].accountId, fields, "accountId")
              && routes[id].credentialAccountId == routes[id].accountId
  {
    hide Discovered, ParseCredential, Usable, TakenFrom, ReadJsonFile, Accepted;
    NothingListed(files, i, auth, listed);
    ReadMember(files, auth, "openai", false);
    ParsedBlock(Member(files, auth, "openai"));
    id := RouteOfSource(files, plugin, accounts, routes, i, 0);
  }

  lemma NothingListed(files: Files, i: nat, auth: string, listed: string)
    requires SourceFiles(i, auth, listed) && NoList(files, listed)
    ensures SourceRoutes(files, i) == LegacyRoutes(files, i)
  {
    hide LegacyRoutes, Accepted;
  }

  /** The Pi block is an account, ready exactly if it has all that Pi needs. */
  lemma PiAccount(files: Files, plugin: seq<Account>, accounts: seq<Account>, routes: map<string, Route>)
    returns (id: string)
    requires Discovered(files, plugin, accounts, routes)
    requires Member(files, "~/.pi/agent/auth.json", "openai-codex").Some?
    ensures id in routes
    ensures routes[id].Route? <==> UsableForPi(Member(files, "~/.pi/agent/auth.json", "openai-codex"))
    ensures routes[id].Route? ==>
              && var fields := Member(files, "~/.pi/agent/auth.json", "openai-codex").value.fields;
              && TakenFrom(routes[id].credential, fields)
              && routes[id].credential.expires == Some(fields["expires"].number)
              && IsTextOf(routes[id].accountId, fields, "accountId")
              && routes[id].credentialAccountId == routes[id].accountId
              && ComesFrom(routes[id], FromPi, "~/.pi/agent/auth.json", None, 0, "openai-codex")
              && TargetOf(routes[id]) == Block("~/.pi/agent/auth.json")
  {
    hide Discovered, ParseCredential, TakenFrom, IsTextOf, HasText, ReadJsonFile, SourceRoutes;
    ReadMember(files, PI_AUTH_PATH, PI_PROVIDER_KEY, true);
    ParsedBlock(Member(files, PI_AUTH_PATH, PI_PROVIDER_KEY));
    id := RouteAt(files, plugin, accounts, routes, |SourceRoutes(files, 0)| + |SourceRoutes(files, 1)|);
  }

  /** A file that cannot be read as a document leads to an error route; files that are missing or empty to none. */
  lemma OtherFiles(files: Files, i: nat, auth: string, listed: string)
    requires SourceFiles(i, auth, listed)
    ensures listed in files && Broken(files[listed], false) ==> SourceRoutes(files, i) == [ErrorRoute]
    ensures NoList(files, listed) && auth in files && Broken(files[auth], false) ==>
              SourceRoutes(files, i) == [ErrorRoute]
    ensures NoList(files, listed) && (auth !in files || files[auth].Missing? || files[auth].EmptyText?) ==>
              SourceRoutes(files, i) == []
    ensures var pi := "~/.pi/agent/auth.json";
            && (pi in files && Broken(files[pi], true) ==> PiRoutes(files) == [ErrorRoute])
            && (pi in files && (files[pi].Missing? || files[pi].EmptyText? || files[pi].BlankText?) ==>
                  PiRoutes(files) == [])
            && (pi !in files ==> PiRoutes(files) == [])
  {
    hide ParseCredential, Accepted, EntryRoutes;
  }

  /** The file is there, but it holds no JSON object; a blank Pi file counts as empty. */
  predicate Broken(content: Content, pi: bool) {
    || content.Unreadable? || content.Garbage? || (content.Doc? && !content.json.Object?)
    || (content.BlankText? && !pi)
  }
}
