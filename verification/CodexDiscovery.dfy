/** Finding the OpenCode and Pi accounts and giving each a route under an id of its own. */
module CodexDiscovery {
  import opened Wrappers
  import opened CodexJson

  const OPENAI_PROVIDER_KEY := "openai"
  const PI_PROVIDER_KEY := "openai-codex"
  const PI_AUTH_PATH := "~/.pi/agent/auth.json"

  function AuthPath(i: nat): string {
    if i == 0 then "~/.local/share/opencode/auth.json" else "~/.config/opencode/auth.json"
  }

  function AccountsPath(i: nat): string {
    if i == 0 then "~/.local/share/opencode/accounts.json" else "~/.config/opencode/accounts.json"
  }

  datatype Account = Account(id: Option<string>, isActive: bool, subject: string)

  // Looking up one of these names in an empty object finds a property every object inherits.
  const INHERITED: set<string> := {
    "constructor", "hasOwnProperty", "isPrototypeOf", "propertyIsEnumerable", "toLocaleString", "toString", "valueOf",
    "__proto__", "__defineGetter__", "__defineSetter__", "__lookupGetter__", "__lookupSetter__"
  }

  // ----- numbered ids -----

  function Digit(n: nat): char
    requires n < 10
  {
    "0123456789"[n]
  }

  function Decimal(n: nat): (r: string)
    ensures r != ""
  {
    if n < 10 then [Digit(n)] else Decimal(n / 10) + [Digit(n % 10)]
  }

  lemma {:induction false} DecimalsDiffer(m: nat, n: nat)
    requires Decimal(m) == Decimal(n)
    ensures m == n
  {
    var s := Decimal(m);
    assert s[|s| - 1] == Digit(m % 10) == Digit(n % 10);
    assert m >= 10 ==> s[..|s| - 1] == Decimal(m / 10);
    assert n >= 10 ==> s[..|s| - 1] == Decimal(n / 10);
    if m >= 10 && n >= 10 {
      DecimalsDiffer(m / 10, n / 10);
    }
  }

  function OpenCodeId(n: nat): string { "opencode-" + Decimal(n) }

  function PiId(n: nat): string { "pi-" + Decimal(n) }

  lemma IdsDiffer(m: nat, n: nat)
    ensures OpenCodeId(m) == OpenCodeId(n) ==> m == n
    ensures PiId(m) == PiId(n) ==> m == n
    ensures OpenCodeId(m) !in INHERITED && PiId(m) !in INHERITED
  {
    if OpenCodeId(m) == OpenCodeId(n) {
      assert Decimal(m) == OpenCodeId(m)[9..] == OpenCodeId(n)[9..] == Decimal(n);
      DecimalsDiffer(m, n);
    }
    if PiId(m) == PiId(n) {
      assert Decimal(m) == PiId(m)[3..] == PiId(n)[3..] == Decimal(n);
      DecimalsDiffer(m, n);
    }
    assert OpenCodeId(m)[0] == 'o' && PiId(m)[0] == 'p' && PiId(m)[1] == 'i';
  }

  // ----- reading -----

  datatype JsonFile = NoFile | EmptyFile | BadFile | Value(fields: map<string, Json>)

  function ReadJsonFile(files: Files, path: string, emptyWhitespace: bool): JsonFile {
    match At(files, path)
    case Missing => NoFile
    case Unreadable => BadFile
    case EmptyText => EmptyFile
    case BlankText => if emptyWhitespace then EmptyFile else BadFile
    case Garbage => BadFile
    case Doc(json) => if json.Object? then Value(json.fields) else BadFile
  }

  function ReadAuthCredential(files: Files, path: string): Option<(Credential, string)> {
    match ReadJsonFile(files, path, false)
    case Value(fields) => ParseCredential(Get(fields, OPENAI_PROVIDER_KEY), false)
    case _ => None
  }

  function ActiveCount(entries: seq<Json>): nat {
    if entries == [] then 0
    else ActiveCount(entries[..|entries| - 1]) + if entries[|entries| - 1].Object?
      && IsActive(entries[|entries| - 1].fields) then 1 else 0
  }

  function DeclaredId(entry: Json): string { if entry.Object? then TextAt(entry.fields, "accountId") else "" }

  predicate NamesDiffer(entries: seq<Json>) {
    forall i, j :: 0 <= i < j < |entries| ==>
      DeclaredId(entries[i]) == "" || DeclaredId(entries[i]) != DeclaredId(entries[j])
  }

  function Names(entries: seq<Json>): set<string> {
    set i | 0 <= i < |entries| && DeclaredId(entries[i]) != "" :: DeclaredId(entries[i])
  }

  /** Exactly one entry is active and no account is named twice; but a name that every object inherits is taken to be
      named twice even when it is not. */
  predicate Accepted(entries: seq<Json>) {
    ActiveCount(entries) == 1 && NamesDiffer(entries) && Names(entries) !! INHERITED
  }

  method ValidateAccountsEntries(entries: seq<Json>) returns (ok: bool)
    ensures ok <==> Accepted(entries)
  {
    hide NamesDiffer, Names, DeclaredId, IsActive;
    var activeCount := 0;
    var seen: set<string> := {};
    NoNames();
    for i := 0 to |entries|
      invariant activeCount == ActiveCount(entries[..i])
      invariant seen == Names(entries[..i]) && seen !! INHERITED && NamesDiffer(entries[..i])
    {
      OneMoreName(entries, i);
      NoName(entries[i]);
      assert entries[..i + 1][..i] == entries[..i];
      var entry := entries[i];
      if !entry.Object? {
        continue;
      }
      if IsActive(entry.fields) {
        activeCount := activeCount + 1;
      }
      var name := DeclaredId(entry);
      if name == "" {
        continue;
      }
      if name in seen || name in INHERITED {
        return false;
      }
      seen := seen + {name};
    }
    assert entries[..|entries|] == entries;
    return activeCount == 1;
  }

  lemma NoName(entry: Json)
    ensures !entry.Object? ==> DeclaredId(entry) == ""
  {
  }

  lemma NoNames()
    ensures Names([]) == {} && NamesDiffer([])
  {
  }

  lemma OneMoreName(entries: seq<Json>, i: nat)
    requires i < |entries|
    ensures var name := DeclaredId(entries[i]);
            && Names(entries[..i + 1]) == Names(entries[..i]) + (if name == "" then {} else {name})
            && (NamesDiffer(entries[..i + 1]) <==> NamesDiffer(entries[..i]) && name !in Names(entries[..i]))
            && (NamesDiffer(entries) ==> NamesDiffer(entries[..i + 1]))
            && Names(entries[..i + 1]) <= Names(entries)
            && "" !in Names(entries[..i])
  {
    hide DeclaredId;
    var shorter, longer := entries[..i], entries[..i + 1];
    assert forall j :: 0 <= j < i ==> shorter[j] == longer[j] == entries[j];
    forall name | name in Names(longer)
      ensures name in Names(shorter) || name == DeclaredId(entries[i])
    {
      var j :| 0 <= j < |longer| && DeclaredId(longer[j]) == name;
      assert j < i ==> DeclaredId(shorter[j]) == name;
    }
    forall name | name in Names(shorter)
      ensures name in Names(longer)
    {
      var j :| 0 <= j < |shorter| && DeclaredId(shorter[j]) == name;
      assert DeclaredId(longer[j]) == name;
    }
    assert DeclaredId(longer[i]) == DeclaredId(entries[i]);
  }

  // ----- the routes to expect -----

  function RouteOf(source: Source, i: nat, index: nat, name: string, parsed: Option<(Credential, string)>): Route {
    match parsed
    case None => ErrorRoute
    case Some((credential, named)) =>
      if source.FromPi? then
        Route(FromPi, PI_AUTH_PATH, None, 0, PI_PROVIDER_KEY, named, named, credential, None, false)
      else Route(source, AuthPath(i), Some(AccountsPath(i)), index, OPENAI_PROVIDER_KEY, name,
                 if source.FromAuth? then named else "", credential, None, false)
  }

  /** The single account of an auth file without an accounts file. */
  function LegacyRoutes(files: Files, i: nat): seq<Route> {
    match ReadJsonFile(files, AuthPath(i), false)
    case NoFile => []
    case EmptyFile => []
    case BadFile => [ErrorRoute]
    case Value(fields) =>
      if OPENAI_PROVIDER_KEY !in fields then []
      else match ParseCredential(Get(fields, OPENAI_PROVIDER_KEY), false)
        case None => [ErrorRoute]
        case Some((credential, named)) => [Route(FromAuth, AuthPath(i), None, 0, OPENAI_PROVIDER_KEY, named, named,
                                                 credential, None, false)]
  }

  /** An account of an accounts file; the credential of the active one is in the auth file. */
  function EntryRoute(files: Files, i: nat, entries: seq<Json>, j: nat): Route
    requires j < |entries|
  {
    var name := DeclaredId(entries[j]);
    if name == "" then ErrorRoute
    else if IsActive(entries[j].fields) then RouteOf(FromAuth, i, j, name, ReadAuthCredential(files, AuthPath(i)))
    else RouteOf(FromAccounts, i, j, name, ParseCredential(Get(entries[j].fields, "data"), false))
  }

  function EntryRoutes(files: Files, i: nat, entries: seq<Json>, n: nat): seq<Route>
    requires n <= |entries|
  {
    seq(n, j requires 0 <= j < |entries| => EntryRoute(files, i, entries, j))
  }

  function SourceRoutes(files: Files, i: nat): seq<Route> {
    match ReadJsonFile(files, AccountsPath(i), false)
    case NoFile => LegacyRoutes(files, i)
    case EmptyFile => LegacyRoutes(files, i)
    case BadFile => [ErrorRoute]
    case Value(fields) =>
      if OPENAI_PROVIDER_KEY !in fields then LegacyRoutes(files, i)
      else match fields[OPENAI_PROVIDER_KEY]
        case List(entries) => if Accepted(entries) then EntryRoutes(files, i, entries, |entries|) else [ErrorRoute]
        case _ => [ErrorRoute]
  }

  function PiRoutes(files: Files): seq<Route> {
    match ReadJsonFile(files, PI_AUTH_PATH, true)
    case NoFile => []
    case EmptyFile => []
    case BadFile => [ErrorRoute]
    case Value(fields) =>
      if PI_PROVIDER_KEY !in fields then []
        else [RouteOf(FromPi, 0, 0, "", ParseCredential(Get(fields, PI_PROVIDER_KEY), true))]
  }

  lemma PiIsNamed(block: Option<Json>)
    ensures ParseCredential(block, true).Some? ==> ParseCredential(block, true).value.1 != ""
  {
    hide TextAt;
  }

  // ----- the registry -----

  /** The first n accounts come with the plugin, the others were added: each under an id of its own that no other
      account has, and with exactly these ids as the keys of the routes. */
  ghost predicate Registered(accounts: seq<Account>, n: nat, routes: map<string, Route>) {
    && n <= |accounts|
    && (forall i :: n <= i < |accounts| ==>
        accounts[i].id.Some? && accounts[i].id.value != "" && accounts[i].id.value in routes)
    && (forall i, j :: n <= i < |accounts| && 0 <= j < |accounts| && i != j ==> accounts[i].id != accounts[j].id)
    && (forall id :: id in routes ==> exists i :: n <= i < |accounts| && accounts[i].id == Some(id))
  }

  /** The routes in list were added at the end, in this order; nothing else changed. */
  ghost predicate Added(before: seq<Account>, was: map<string, Route>, after: seq<Account>, routes: map<string, Route>,
                        list: seq<Route>) {
    && |after| == |before| + |list| && before <= after
    && (forall id :: id in was ==> id in routes && routes[id] == was[id])
    && (forall k :: 0 <= k < |list| ==> Leads(after, routes, |before| + k, list[k]))
  }

  /** What an account says of its route: it counts as inactive only if it is usable and listed as such, and its subject
      is the name that its credential came under, or else its id. */
  predicate Describes(account: Account, route: Route) {
    && account.id.Some? && (account.isActive <==> !(route.Route? && route.source.FromAccounts?))
    && account.subject == if route.ErrorRoute? then "" else if route.accountId != "" then route.accountId
                          else account.id.value
  }

  /** The i-th account has this route. */
  predicate Leads(accounts: seq<Account>, routes: map<string, Route>, i: nat, route: Route) {
    && i < |accounts| && Describes(accounts[i], route)
    && accounts[i].id.value in routes && routes[accounts[i].id.value] == route
  }

  lemma AddedMore(a: seq<Account>, r: map<string, Route>, b: seq<Account>, s: map<string, Route>, c: seq<Account>,
                  t: map<string, Route>,
                  first: seq<Route>, second: seq<Route>)
    requires Added(a, r, b, s, first) && Added(b, s, c, t, second)
    ensures Added(a, r, c, t, first + second)
  {
  }

  lemma NothingAdded(accounts: seq<Account>, routes: map<string, Route>)
    ensures Added(accounts, routes, accounts, routes, [])
  {
  }

  lemma RegisterOneMore(accounts: seq<Account>, n: nat, routes: map<string, Route>, id: string, route: Route,
                        isActive: bool, subject: string)
    requires Registered(accounts, n, routes) && id != "" && forall i :: 0 <= i < |accounts| ==>
               accounts[i].id != Some(id)
    ensures id !in routes && Registered(accounts + [Account(Some(id), isActive, subject)], n, routes[id := route])
  {
    var more := accounts + [Account(Some(id), isActive, subject)];
    forall key | key in routes[id := route]
      ensures exists i :: n <= i < |more| && more[i].id == Some(key)
    {
      if key == id {
        assert more[|accounts|].id == Some(key);
      } else {
        var i :| n <= i < |accounts| && accounts[i].id == Some(key);
        assert more[i].id == Some(key);
      }
    }
  }

  class Discovery {
    var routes: map<string, Route>
    var accounts: seq<Account>
    var used: set<string>
    var counter: nat
    ghost var base: nat

    ghost predicate Valid()
      reads this
    {
      && Registered(accounts, base, routes)
      && forall i :: 0 <= i < |accounts| && accounts[i].id.Some? && accounts[i].id.value != "" ==>
           accounts[i].id.value in used
    }

    /** The id is reserved but not given away yet. */
    ghost predicate Fresh(id: string)
      reads this
    {
      id != "" && id in used && forall i :: 0 <= i < |accounts| ==> accounts[i].id != Some(id)
    }

    /** Counts on until an id is free; only finitely many are not. */
    method NextRouteId() returns (id: string, ghost n: nat)
      requires Valid()
      modifies this`used, this`counter
      ensures Valid() && Fresh(id) && id == OpenCodeId(n) && id !in old(used) && used == old(used) + {id}
    {
      ghost var left := used;
      while true
        invariant counter >= old(counter) && left <= used == old(used)
        invariant forall n :: n >= counter && OpenCodeId(n) in used ==> OpenCodeId(n) in left
        decreases left
      {
        id, n := OpenCodeId(counter), counter;
        forall m: nat
          ensures OpenCodeId(m) == id ==> m == counter
        {
          IdsDiffer(counter, m);
        }
        counter := counter + 1;
        if id !in used {
          break;
        }
        left := left - {id};
      }
      used := used + {id};
    }

    /** Gives the preferred id if it is free and a numbered one otherwise. */
    method ReserveRouteId(preferred: string) returns (id: string, ghost n: nat)
      requires Valid()
      modifies this`used, this`counter
      ensures Valid() && Fresh(id) && id !in old(used) && used == old(used) + {id}
      ensures if preferred != "" && preferred !in old(used) && preferred !in INHERITED then id == preferred
                else id == OpenCodeId(n)
    {
      n := 0;
      if preferred != "" && preferred !in used && preferred !in INHERITED {
        used := used + {preferred};
        return preferred, n;
      }
      id, n := NextRouteId();
    }

    method Push(id: string, route: Route, isActive: bool, subject: string)
      requires Valid() && Fresh(id) && Describes(Account(Some(id), isActive, subject), route)
      modifies this`routes, this`accounts
      ensures Valid() && accounts == old(accounts) + [Account(Some(id), isActive, subject)]
      ensures Added(old(accounts), old(routes), accounts, routes, [route])
    {
      hide Registered;
      RegisterOneMore(accounts, base, routes, id, route, isActive, subject);
      routes := routes[id := route];
      accounts := accounts + [Account(Some(id), isActive, subject)];
    }

    method PushErrorRoute(id: string)
      requires Valid() && Fresh(id)
      modifies this`routes, this`accounts
      ensures Valid() && accounts == old(accounts) + [Account(Some(id), true, "")]
      ensures Added(old(accounts), old(routes), accounts, routes, [ErrorRoute])
    {
      Push(id, ErrorRoute, true, "");
    }

    method DiscoverLegacyAuthRoute(files: Files, i: nat)
      requires Valid()
      modifies this`routes, this`accounts, this`used, this`counter
      ensures Valid() && Added(old(accounts), old(routes), accounts, routes, LegacyRoutes(files, i))
    {
      hide Registered, ParseCredential, Added;
      NothingAdded(accounts, routes);
      var file := ReadJsonFile(files, AuthPath(i), false);
      if file.NoFile? || file.EmptyFile? {
        return;
      }
      if file.BadFile? {
        var errorId, _ := ReserveRouteId(OpenCodeId(i));
        PushErrorRoute(errorId);
        return;
      }
      var block := Get(file.fields, OPENAI_PROVIDER_KEY);
      if block.None? {
        return;
      }
      var parsed := ParseCredential(block, false);
      var routeId, _ := ReserveRouteId(OpenCodeId(i));
      if parsed.None? {
        PushErrorRoute(routeId);
        return;
      }
      var (credential, named) := parsed.value;
      var route := Route(FromAuth, AuthPath(i), None, 0, OPENAI_PROVIDER_KEY, named, named, credential, None, false);
      Push(routeId, route, true, if named != "" then named else routeId);
    }

    method DiscoverEntry(files: Files, i: nat, entries: seq<Json>, j: nat) returns (id: string, ghost n: nat)
      requires Valid() && j < |entries|
      modifies this`routes, this`accounts, this`used, this`counter
      ensures Valid() && Added(old(accounts), old(routes), accounts, routes, [EntryRoute(files, i, entries, j)])
      ensures used == old(used) + {id} && |accounts| == |old(accounts)| + 1 && accounts[|old(accounts)|].id == Some(id)
      ensures var name := DeclaredId(entries[j]);
              if name != "" && name !in old(used) && name !in INHERITED then id == name else id == OpenCodeId(n)
    {
      hide Registered, ParseCredential, ReadAuthCredential, Added, DeclaredId, IsActive;
      NoName(entries[j]);
      var entry := entries[j];
      var name := DeclaredId(entry);
      if name == "" {
        id, n := NextRouteId();
        PushErrorRoute(id);
        return;
      }
      id, n := ReserveRouteId(name);
      var isActive := IsActive(entry.fields);
      var parsed := if isActive then ReadAuthCredential(files, AuthPath(i))
        else ParseCredential(Get(entry.fields, "data"), false);
      if parsed.None? {
        PushErrorRoute(id);
        return;
      }
      var route := Route(if isActive then FromAuth
                         else FromAccounts, AuthPath(i), Some(AccountsPath(i)), j, OPENAI_PROVIDER_KEY,
                         name, if isActive then parsed.value.1 else "", parsed.value.0, None, false);
      Push(id, route, isActive, name);
    }

    /** An account goes by the name it declares, unless the plugin or an earlier account has an id of that name, or it
        looks like a numbered one. */
    method DiscoverEntries(files: Files, i: nat, entries: seq<Json>)
      requires Valid() && Accepted(entries)
      modifies this`routes, this`accounts, this`used, this`counter
      ensures Valid() && Added(old(accounts), old(routes), accounts, routes, EntryRoutes(files, i, entries, |entries|))
      ensures |accounts| == |old(accounts)| + |entries|
      ensures forall j :: 0 <= j < |entries| && DeclaredId(entries[j]) != "" && DeclaredId(entries[j]) !in old(used) ==>
                || accounts[|old(accounts)| + j].id == Some(DeclaredId(entries[j]))
                || exists n :: DeclaredId(entries[j]) == OpenCodeId(n)
    {
      hide Registered, Added, DeclaredId, Names, NamesDiffer, EntryRoutes, EntryRoute;
      NothingAdded(accounts, routes);
      NoNames();
      OneMoreEntry(files, i, entries, 0);
      for j := 0 to |entries|
        invariant Valid() && Added(old(accounts), old(routes), accounts, routes, EntryRoutes(files, i, entries, j))
        invariant |accounts| == |old(accounts)| + j
        invariant forall name :: name in used ==>
                    name in old(used) || name in Names(entries[..j]) || exists n :: name == OpenCodeId(n)
        invariant forall k :: 0 <= k < j && DeclaredId(entries[k]) != "" && DeclaredId(entries[k]) !in old(used) ==>
                    || accounts[|old(accounts)| + k].id == Some(DeclaredId(entries[k]))
                    || exists n :: DeclaredId(entries[k]) == OpenCodeId(n)
      {
        OneMoreName(entries, j);
        OneMoreEntry(files, i, entries, j);
        ghost var accountsThen, routesThen := accounts, routes;
        var id, n := DiscoverEntry(files, i, entries, j);
        AddedLength(accountsThen, routesThen, accounts, routes, [EntryRoute(files, i, entries, j)]);
        AddedMore(old(accounts), old(routes), accountsThen, routesThen, accounts, routes,
                  EntryRoutes(files, i, entries, j), [EntryRoute(files, i, entries, j)]);
      }
    }

    method DiscoverSource(files: Files, i: nat)
      requires Valid()
      modifies this`routes, this`accounts, this`used, this`counter
      ensures Valid() && Added(old(accounts), old(routes), accounts, routes, SourceRoutes(files, i))
    {
      hide Registered, Added, LegacyRoutes, Accepted;
      var file := ReadJsonFile(files, AccountsPath(i), false);
      if file.NoFile? || file.EmptyFile? {
        DiscoverLegacyAuthRoute(files, i);
        return;
      }
      if file.BadFile? {
        var parseErrorId, _ := NextRouteId();
        PushErrorRoute(parseErrorId);
        return;
      }
      var listed := Get(file.fields, OPENAI_PROVIDER_KEY);
      if listed.None? {
        DiscoverLegacyAuthRoute(files, i);
        return;
      }
      if !listed.value.List? {
        var badProviderId, _ := NextRouteId();
        PushErrorRoute(badProviderId);
        return;
      }
      var valid := ValidateAccountsEntries(listed.value.items);
      if !valid {
        var validationErrorId, _ := ReserveRouteId(OpenCodeId(i));
        PushErrorRoute(validationErrorId);
        return;
      }
      DiscoverEntries(files, i, listed.value.items);
    }

    method DiscoverPi(files: Files)
      requires Valid()
      modifies this`routes, this`accounts, this`used
      ensures Valid() && Added(old(accounts), old(routes), accounts, routes, PiRoutes(files))
    {
      hide Registered, Added, ParseCredential;
      NothingAdded(accounts, routes);
      var file := ReadJsonFile(files, PI_AUTH_PATH, true);
      if !(file.BadFile? || (file.Value? && PI_PROVIDER_KEY in file.fields)) {
        return;
      }
      var index := 0;
      ghost var left := used;
      while PiId(index) in used
        invariant left <= used == old(used) && forall n :: n >= index && PiId(n) in used ==> PiId(n) in left
        decreases left
      {
        forall n: nat
          ensures PiId(n) == PiId(index) ==> n == index
        {
          IdsDiffer(index, n);
        }
        left := left - {PiId(index)};
        index := index + 1;
      }
      var piId := PiId(index);
      used := used + {piId};  // nothing is reserved after this
      var parsed := if file.Value? then ParseCredential(Get(file.fields, PI_PROVIDER_KEY), true) else None;
      if parsed.None? {
        PushErrorRoute(piId);
        return;
      }
      var (credential, named) := parsed.value;
      PiIsNamed(Get(file.fields, PI_PROVIDER_KEY));
      var route := Route(FromPi, PI_AUTH_PATH, None, 0, PI_PROVIDER_KEY, named, named, credential, None, false);
      Push(piId, route, true, named);
    }

    /** Starts over: every route is dropped and found again, source by source. */
    method Discover(files: Files, plugin: seq<Account>, hasFs: bool)
      modifies this
      ensures Registered(accounts, |plugin|, routes)
      ensures Added(plugin, map[], accounts, routes, if hasFs then
                    SourceRoutes(files, 0) + SourceRoutes(files, 1) + PiRoutes(files) else [])
    {
      hide Registered, Added, SourceRoutes, PiRoutes;
      NothingYet(plugin);
      NothingAdded(plugin, map[]);
      routes, accounts, used, counter := map[], plugin, {}, 0;
      base := |plugin|;
      if !hasFs {
        return;
      }
      used := set i | 0 <= i < |plugin| && plugin[i].id.Some? && plugin[i].id.value != "" :: plugin[i].id.value;
      DiscoverSource(files, 0);
      ghost var accounts1, routes1 := accounts, routes;
      DiscoverSource(files, 1);
      AddedMore(plugin, map[], accounts1, routes1, accounts, routes, SourceRoutes(files, 0), SourceRoutes(files, 1));
      ghost var accounts2, routes2 := accounts, routes;
      DiscoverPi(files);
      AddedMore(plugin, map[], accounts2, routes2, accounts, routes, SourceRoutes(files, 0) + SourceRoutes(files, 1),
                PiRoutes(files));
    }
  }

  lemma AddedLength(before: seq<Account>, was: map<string, Route>, after: seq<Account>, routes: map<string, Route>,
                    list: seq<Route>)
    requires Added(before, was, after, routes, list)
    ensures before <= after && |after| == |before| + |list|
  {
  }

  lemma OneMoreEntry(files: Files, i: nat, entries: seq<Json>, j: nat)
    requires j <= |entries|
    ensures EntryRoutes(files, i, entries, 0) == []
    ensures j < |entries| ==>
              EntryRoutes(files, i, entries, j + 1)
                == EntryRoutes(files, i, entries, j) + [EntryRoute(files, i, entries, j)]
  {
    hide EntryRoute;
  }

  lemma NothingYet(plugin: seq<Account>)
    ensures Registered(plugin, |plugin|, map[])
  {
  }

  /** With distinct ids from the plugin, all ids are distinct, and the added ones are exactly the keys of the routes. */
  lemma IdsAreDistinct(accounts: seq<Account>, n: nat, routes: map<string, Route>)
    requires Registered(accounts, n, routes)
    requires forall i, j :: 0 <= i < j < n ==> accounts[i].id != accounts[j].id
    ensures forall i, j :: 0 <= i < j < |accounts| ==> accounts[i].id != accounts[j].id
    ensures forall id :: id in routes <==> exists i :: n <= i < |accounts| && accounts[i].id == Some(id)
  {
  }

  // ----- the routes are sound -----

  /** Every ready route loads, and no two write to the same place. */
  predicate Sound(files: Files, routes: map<string, Route>) {
    TargetsDiffer(routes) && forall id :: id in routes && routes[id].Route? ==> Loads(files, routes[id])
  }

  predicate SoundList(files: Files, list: seq<Route>) {
    && (forall k :: 0 <= k < |list| && list[k].Route? ==> Loads(files, list[k]))
    && (forall k, l :: 0 <= k < l < |list| && list[k].Route? && list[l].Route? ==>
        TargetOf(list[k]) != TargetOf(list[l]))
  }

  /** Whatever the files hold, what discovery finds is sound. */
  lemma DiscoveredRoutesAreSound(files: Files, plugin: seq<Account>, accounts: seq<Account>, routes: map<string, Route>)
    requires Registered(accounts, |plugin|, routes)
    requires Added(plugin, map[], accounts, routes, SourceRoutes(files, 0) + SourceRoutes(files, 1) + PiRoutes(files))
    ensures Sound(files, routes)
  {
    hide SoundList, Sound, Registered, Added, SourceRoutes, PiRoutes;
    SourceIsSound(files, 0);
    SourceIsSound(files, 1);
    PiIsSound(files);
    PathsDiffer();
    var list := SourceRoutes(files, 0) + SourceRoutes(files, 1);
    SoundTogether(files, SourceRoutes(files, 0), SourceRoutes(files, 1), {AuthPath(0), AccountsPath(0)},
                  {AuthPath(1), AccountsPath(1)});
    SoundTogether(files, list, PiRoutes(files), {AuthPath(0), AccountsPath(0), AuthPath(1), AccountsPath(1)},
                  {PI_AUTH_PATH});
    SoundRoutes(files, plugin, accounts, routes, list + PiRoutes(files));
  }

  /** The files that the routes write to. */
  predicate Within(list: seq<Route>, paths: set<string>) {
    forall k :: 0 <= k < |list| && list[k].Route? ==> TargetOf(list[k]).file in paths
  }

  lemma SoundTogether(files: Files, a: seq<Route>, b: seq<Route>, pathsA: set<string>, pathsB: set<string>)
    requires SoundList(files, a) && SoundList(files, b) && Within(a, pathsA) && Within(b, pathsB) && pathsA !! pathsB
    ensures SoundList(files, a + b) && Within(a + b, pathsA + pathsB)
  {
  }

  lemma SoundRoutes(files: Files, plugin: seq<Account>, accounts: seq<Account>, routes: map<string, Route>,
                    list: seq<Route>)
    requires Registered(accounts, |plugin|, routes) && Added(plugin, map[], accounts, routes, list)
    requires SoundList(files, list)
    ensures Sound(files, routes)
  {
    hide Loads, TargetOf, Registered, Added, SoundList;
    forall a | a in routes && routes[a].Route?
      ensures Loads(files, routes[a])
    {
      var k := Listed(files, plugin, accounts, routes, list, a);
    }
    forall a, b | a in routes && b in routes && a != b && routes[a].Route? && routes[b].Route?
      ensures TargetOf(routes[a]) != TargetOf(routes[b])
    {
      var k := Listed(files, plugin, accounts, routes, list, a);
      var l := Listed(files, plugin, accounts, routes, list, b);
    }
  }

  /** Where in the list a route comes from. */
  lemma Listed(files: Files, plugin: seq<Account>, accounts: seq<Account>, routes: map<string, Route>,
               list: seq<Route>, id: string)
    returns (k: nat)
    requires Registered(accounts, |plugin|, routes) && Added(plugin, map[], accounts, routes, list)
    requires SoundList(files, list)
    requires id in routes
    ensures k < |list| && |accounts| == |plugin| + |list| && accounts[|plugin| + k].id == Some(id)
    ensures list[k] == routes[id]
    ensures list[k].Route? ==> Loads(files, list[k])
    ensures forall l :: 0 <= l < |list| && l != k && list[l].Route? && list[k].Route? ==>
              TargetOf(list[l]) != TargetOf(list[k])
  {
    hide Loads, TargetOf;
    var i :| |plugin| <= i < |accounts| && accounts[i].id == Some(id);
    k := i - |plugin|;
    assert Leads(accounts, routes, |plugin| + k, list[k]);
  }

  lemma PathsDiffer()
    ensures |AuthPath(0)| == 33 && |AuthPath(1)| == 28 && |AccountsPath(0)| == 37 && |AccountsPath(1)| == 32
    ensures |PI_AUTH_PATH| == 21
  {
  }

  lemma NoCredential(block: Option<Json>, pi: bool)
    ensures block.Some? && !block.value.Object? ==> ParseCredential(block, pi) == None
  {
  }

  lemma PiIsSound(files: Files)
    ensures SoundList(files, PiRoutes(files)) && Within(PiRoutes(files), {PI_AUTH_PATH})
  {
    hide ParseCredential;
    var file := ReadJsonFile(files, PI_AUTH_PATH, true);
    if file.Value? {
      NoCredential(Get(file.fields, PI_PROVIDER_KEY), true);
    }
  }

  lemma LegacyIsSound(files: Files, i: nat)
    ensures SoundList(files, LegacyRoutes(files, i)) && Within(LegacyRoutes(files, i), {AuthPath(i), AccountsPath(i)})
  {
    hide ParseCredential;
    var file := ReadJsonFile(files, AuthPath(i), false);
    if file.Value? {
      NoCredential(Get(file.fields, OPENAI_PROVIDER_KEY), false);
    }
  }

  lemma SourceIsSound(files: Files, i: nat)
    ensures SoundList(files, SourceRoutes(files, i)) && Within(SourceRoutes(files, i), {AuthPath(i), AccountsPath(i)})
  {
    hide LegacyRoutes, EntryRoute, Loads, TargetOf;
    LegacyIsSound(files, i);
    match ReadJsonFile(files, AccountsPath(i), false) {
      case Value(fields) =>
        if OPENAI_PROVIDER_KEY in fields && fields[OPENAI_PROVIDER_KEY].List?
          && Accepted(fields[OPENAI_PROVIDER_KEY].items) {
          EntriesAreSound(files, i, fields[OPENAI_PROVIDER_KEY].items);
        }
      case _ =>
    }
  }

  lemma EntriesAreSound(files: Files, i: nat, entries: seq<Json>)
    requires ListedAt(files, i, entries) && ActiveCount(entries) == 1
    ensures SoundList(files, EntryRoutes(files, i, entries, |entries|))
    ensures Within(EntryRoutes(files, i, entries, |entries|), {AuthPath(i), AccountsPath(i)})
  {
    hide EntryRoute, Loads, TargetOf, IsActive;
    forall j | 0 <= j < |entries|
      ensures EntryRoute(files, i, entries, j).Route? ==>
                Loads(files, EntryRoute(files, i, entries, j)) && entries[j].Object?
                && TargetOf(EntryRoute(files, i, entries, j))
                   == if IsActive(entries[j].fields) then Block(AuthPath(i)) else Entry(AccountsPath(i), j)
    {
      EntryLoads(files, i, entries, j);
    }
    forall k, l | 0 <= k < l < |entries| && entries[k].Object? && entries[l].Object?
      ensures !(IsActive(entries[k].fields) && IsActive(entries[l].fields))
    {
      OneActive(entries, k, l);
    }
  }

  /** The accounts file of the i-th source lists these entries. */
  predicate ListedAt(files: Files, i: nat, entries: seq<Json>) {
    match At(files, AccountsPath(i))
    case Doc(Object(doc)) => Get(doc, OPENAI_PROVIDER_KEY) == Some(List(entries))
    case _ => false
  }

  /** The route made from a listed entry reads back the credential it was made with. */
  lemma EntryLoads(files: Files, i: nat, entries: seq<Json>, j: nat)
    requires ListedAt(files, i, entries) && j < |entries|
    ensures var route := EntryRoute(files, i, entries, j);
            route.Route? ==> Loads(files, route) && entries[j].Object?
                             && TargetOf(route) == if IsActive(entries[j].fields) then Block(AuthPath(i))
                               else Entry(AccountsPath(i), j)
  {
    hide IsActive, ParseCredential;
    if EntryRoute(files, i, entries, j).Route? {
      assert EntryAt(files, AccountsPath(i), OPENAI_PROVIDER_KEY, j) == Some(entries[j].fields);
      var file := ReadJsonFile(files, AuthPath(i), false);
      if file.Value? {
        NoCredential(Get(file.fields, OPENAI_PROVIDER_KEY), false);
      }
    }
  }

  lemma {:induction false} ActiveCountGrows(entries: seq<Json>, n: nat)
    requires n <= |entries|
    ensures ActiveCount(entries[..n]) <= ActiveCount(entries)
  {
    if n < |entries| {
      ActiveCountGrows(entries[..|entries| - 1], n);
      assert entries[..|entries| - 1][..n] == entries[..n];
    } else {
      assert entries[..n] == entries;
    }
  }

  lemma {:induction false} OneActive(entries: seq<Json>, k: nat, l: nat)
    requires k < l < |entries| && entries[k].Object? && entries[l].Object?
    ensures IsActive(entries[k].fields) && IsActive(entries[l].fields) ==> ActiveCount(entries) >= 2
  {
    assert entries[..l + 1][..l] == entries[..l] && entries[..l][..k + 1] == entries[..k + 1]
             && entries[..k + 1][..k] == entries[..k];
    ActiveCountGrows(entries, l + 1);
    ActiveCountGrows(entries[..l], k + 1);
  }
}
