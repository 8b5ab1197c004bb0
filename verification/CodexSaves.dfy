/** What a save of tokens does, in terms of what the files hold: when it succeeds, what it writes, and what the
    account's route remembers. */
module CodexSaves {
  import opened Wrappers
  import opened CodexJson
  import opened CodexPersist
  import opened CodexReady

  // ----- when a save succeeds -----

  /** The field holds this text, white space around it aside. */
  predicate Says(fields: map<string, Json>, key: string, text: string) {
    key in fields && fields[key].Str? && fields[key].text != "" && Trim(fields[key].text) == text
  }

  predicate Active(entry: map<string, Json>) {
    "isActive" in entry && entry["isActive"] == Bool(true)
  }

  /** The entry of a list at an index, if it is an object. */
  function Listed(files: Files, path: Option<string>, key: string, index: nat): Option<map<string, Json>> {
    var list := if path.Some? then Member(files, path.value, key) else None;
    if list.Some? && list.value.List? && index < |list.value.items| && list.value.items[index].Object? then
      Some(list.value.items[index].fields)
    else None
  }

  /** The files still hold the account at the route's place: an inactive entry that names it; or the block of the auth
      file, with the account's name if the route knows one, and the entry, if there is one, active and named so; or the
      Pi block with the name and the credential last selected. Pi also needs an expiry that is not negative. */
  ghost predicate Holds(files: Files, route: Route, tokens: Tokens)
    requires route.Route?
  {
    var entry := Listed(files, route.accountsPath, route.providerKey, route.index);
    var block := Member(files, route.path, route.providerKey);
    match route.source
    case FromAccounts => entry.Some? && Says(entry.value, "accountId", route.accountId) && !Active(entry.value)
    case FromAuth =>
      && (route.accountsPath.Some? ==>
            entry.Some? && Says(entry.value, "accountId", route.accountId) && Active(entry.value))
      && block.Some? && block.value.Object?
      && (route.credentialAccountId != "" ==> Says(block.value.fields, "accountId", route.credentialAccountId))
    case FromPi =>
      && UsableForPi(block) && Says(block.value.fields, "accountId", route.credentialAccountId)
      && var fields := block.value.fields;
      && route.selected.Some? && Says(fields, "access", route.selected.value.access)
      && Says(fields, "refresh", route.selected.value.refresh)
      && route.selected.value.expires == Some(fields["expires"].number)
      && tokens.expiresAt.Some? && tokens.expiresAt.value >= 0.0
  }

  lemma TextSays(fields: map<string, Json>, key: string, text: string)
    ensures Says(fields, key, text) <==> IsText(Get(fields, key)) && TextAt(fields, key) == text
  {
  }

  lemma WrittenWhenHeld(files: Files, route: Route, tokens: Tokens)
    requires route.Route?
    ensures Rewritten(files, route, tokens).Some? <==> Holds(files, route, tokens)
  {
    hide Trim, WithTokens, ParseCredential, UsableForPi;
    match route.source
    case FromAccounts =>
    case FromAuth =>
    case FromPi => PiWrittenWhenHeld(files, route, tokens);
  }

  lemma PiWrittenWhenHeld(files: Files, route: Route, tokens: Tokens)
    requires route.Route? && route.source.FromPi?
    ensures PiDoc(At(files, route.path), route, tokens).Some? <==> Holds(files, route, tokens)
  {
    hide Trim, ParseCredential, HasText, Says;
    PiBlockIsSelected(Member(files, route.path, route.providerKey), route);
  }

  /** The credential read from a Pi block is the one selected exactly if the block says so. */
  lemma PiBlockIsSelected(block: Option<Json>, route: Route)
    requires route.Route?
    ensures var parsed := ParseCredential(block, true);
            && (parsed.Some? <==> UsableForPi(block))
            && (parsed.Some? ==>
                  (parsed.value.1 == route.credentialAccountId && Some(parsed.value.0) == route.selected <==>
                    && var fields := block.value.fields;
                    && Says(fields, "accountId", route.credentialAccountId) && route.selected.Some?
                    && Says(fields, "access", route.selected.value.access)
                    && Says(fields, "refresh", route.selected.value.refresh)
                    && route.selected.value.expires == Some(fields["expires"].number)))
  {
    ParsedBlock(block);
    hide Trim, HasText, IsTextOf;
    if UsableForPi(block) {
      var fields := block.value.fields;
      TextOfField(fields, "access");
      TextOfField(fields, "refresh");
      TextOfField(fields, "accountId");
    }
  }

  /** A save succeeds exactly if the account is known and in order, there are tokens, the files still hold the account
      at its place, and they can be written; it is left to the original for no account or the default one, and throws
      for an unknown or erroneous account and after a failed save. */
  lemma SaveSucceeds(w: World, id: string, tokens: Option<Tokens>, writable: bool)
    ensures var outcome := Save(w, id, tokens, writable).1;
            var own := id != "" && id != "default";
            var ready := id in w.routes && w.routes[id].Route? && !w.routes[id].persistFailed;
            && (outcome == Delegated <==> !own) && (outcome == Thrown <==> own && !ready)
            && (outcome == Saved <==>
                  own && ready && tokens.Some? && writable && Holds(w.files, w.routes[id], tokens.value))
  {
    hide Holds, Rewritten;
    if id in w.routes && w.routes[id].Route? && tokens.Some? {
      WrittenWhenHeld(w.files, w.routes[id], tokens.value);
    }
  }

  // ----- what the route remembers -----

  /** After a successful save the route holds the tokens that came with it and otherwise those it had, and it is in
      order; after one that could not be written it is marked, once and for all; no other route changes. */
  lemma RouteAfterSave(w: World, id: string, tokens: Option<Tokens>, writable: bool)
    ensures var (after, outcome) := Save(w, id, tokens, writable);
            && after.routes.Keys == w.routes.Keys && (forall other :: other in w.routes && other != id ==>
                after.routes[other] == w.routes[other])
            && (outcome in {Thrown, Delegated} || tokens.None? ==> after == w)
            && (outcome == NotSaved && tokens.Some? ==>
                  after.files == w.files && after.routes[id] == w.routes[id].(persistFailed := true))
            && (outcome == Saved ==>
                  var route, held := after.routes[id], w.routes[id].credential;
                  && SamePlaceAs(w.routes[id], route) && !route.persistFailed
                  && route.credential.access == (if tokens.value.access == "" then held.access else tokens.value.access)
                  && route.credential.refresh == (if tokens.value.refresh == "" then held.refresh
                                                  else tokens.value.refresh)
                  && route.credential.expires == (if route.source.FromPi? then tokens.value.expiresAt
                                                  else held.expires))
  {
    hide Rewritten, Selection;
  }

  // ----- what is written -----

  /** A token that came is written as it is; otherwise the field stays as it was. */
  predicate TokenWritten(before: map<string, Json>, after: map<string, Json>, key: string, token: string) {
    if token != "" then key in after && after[key] == Str(token) else Get(after, key) == Get(before, key)
  }

  /** The block of an OpenCode account with the tokens: it is of type "oauth" and has a number for its expiry. */
  predicate BlockWritten(before: map<string, Json>, after: map<string, Json>, tokens: Tokens) {
    && TokenWritten(before, after, "access", tokens.access) && TokenWritten(before, after, "refresh", tokens.refresh)
    && Get(after, "type") == Some(Str("oauth"))
    && (if "expires" in before && before["expires"].Number? then Get(after, "expires") == Get(before, "expires")
        else Get(after, "expires") == Some(Number(0.0)))
  }

  /** The block of an auth file gets the tokens. */
  lemma AuthTokensAreWritten(w: World, id: string, tokens: Tokens)
    requires Save(w, id, Some(tokens), true).1 == Saved && w.routes[id].source.FromAuth?
    ensures var files, route := Save(w, id, Some(tokens), true).0.files, w.routes[id];
            var before, after := Member(w.files, route.path, route.providerKey),
                                 Member(files, route.path, route.providerKey);
            && before.Some? && before.value.Object? && after.Some? && after.value.Object?
            && BlockWritten(before.value.fields, after.value.fields, tokens)
  {
    hide StillNames, WithTokens, BlockWritten, Renewed;
    var route := w.routes[id];
    WithTokensWrites(Member(w.files, route.path, route.providerKey).value.fields, tokens);
  }

  /** The entry of an accounts file gets the tokens and its name into its data, which is made if there is none. */
  lemma ListedTokensAreWritten(w: World, id: string, tokens: Tokens)
    requires Save(w, id, Some(tokens), true).1 == Saved && w.routes[id].source.FromAccounts?
    ensures var files, route := Save(w, id, Some(tokens), true).0.files, w.routes[id];
            var before, after := Listed(w.files, route.accountsPath, route.providerKey, route.index),
                                 Listed(files, route.accountsPath, route.providerKey, route.index);
            && before.Some? && after.Some? && "data" in after.value && after.value["data"].Object?
            && var data := if "data" in before.value && before.value["data"].Object? then before.value["data"].fields
                           else map[];
            && BlockWritten(data, after.value["data"].fields, tokens)
            && TokenWritten(data, after.value["data"].fields, "accountId", route.accountId)
  {
    hide StillNames, WithTokens, Renewed, BlockWritten, TokenWritten;
    var route := w.routes[id];
    var before := Listed(w.files, route.accountsPath, route.providerKey, route.index);
    NameIsWritten(EntryData(before.value), tokens, route.accountId);
  }

  /** Pi keeps the block's type, gets the new expiry, and loses a stored access token if none came. */
  lemma PiTokensAreWritten(w: World, id: string, tokens: Tokens)
    requires Save(w, id, Some(tokens), true).1 == Saved && w.routes[id].source.FromPi?
    ensures var files, route := Save(w, id, Some(tokens), true).0.files, w.routes[id];
            var before, after := Member(w.files, route.path, route.providerKey),
                                 Member(files, route.path, route.providerKey);
            && before.Some? && before.value.Object? && after.Some? && after.value.Object?
            && TokenWritten(before.value.fields, after.value.fields, "refresh", tokens.refresh)
            && Get(after.value.fields, "access") == (if tokens.access == "" then None else Some(Str(tokens.access)))
            && tokens.expiresAt.Some? && Get(after.value.fields, "expires") == Some(Number(tokens.expiresAt.value))
            && Get(after.value.fields, "type") == Get(before.value.fields, "type")
  {
    hide StillNames, Trim, TextAt, Renewed;
  }

  /** A Pi route then selects what is in the file; another route's selection stays. */
  lemma SelectedAfterSave(w: World, id: string, tokens: Tokens)
    requires Save(w, id, Some(tokens), true).1 == Saved
    ensures var after, route := Save(w, id, Some(tokens), true).0, w.routes[id];
            var selected := after.routes[id].selected;
            if !route.source.FromPi? then selected == route.selected
            else
              var block := Member(w.files, route.path, route.providerKey);
              && block.Some? && block.value.Object? && IsText(Get(block.value.fields, "refresh"))
              && selected == Some(Selected(block.value.fields, tokens))
  {
    hide PiDoc, AuthDoc, AccountsDoc, Selection, Selected, StillNames;
    var route := w.routes[id];
    if route.source.FromPi? {
      PiSelection(w.files, route, tokens);
    }
  }

  /** The tokens in a Pi block after they were written to it. */
  function Selected(block: map<string, Json>, tokens: Tokens): Credential
    requires IsText(Get(block, "refresh"))
  {
    Credential(tokens.access, if tokens.refresh != "" then tokens.refresh else block["refresh"].text, tokens.expiresAt)
  }

  lemma PiSelection(files: Files, route: Route, tokens: Tokens)
    requires route.Route? && PiDoc(At(files, route.path), route, tokens).Some?
    ensures var block := Member(files, route.path, route.providerKey);
            && block.Some? && block.value.Object? && IsText(Get(block.value.fields, "refresh"))
            && Selection(PiDoc(At(files, route.path), route, tokens).value, route.providerKey)
               == Some(Selected(block.value.fields, tokens))
  {
    hide Trim, HasText, ParseCredential;
    var block := Member(files, route.path, route.providerKey);
    PiHasRefresh(block);
  }

  lemma PiHasRefresh(block: Option<Json>)
    requires ParseCredential(block, true).Some?
    ensures block.Some? && block.value.Object? && IsText(Get(block.value.fields, "refresh"))
  {
    hide Trim;
  }

  lemma WithTokensWrites(block: map<string, Json>, tokens: Tokens)
    ensures BlockWritten(block, WithTokens(block, tokens), tokens)
  {
  }

  lemma NameIsWritten(block: map<string, Json>, tokens: Tokens, name: string)
    ensures var after := Put(WithTokens(block, tokens), "accountId", name);
            BlockWritten(block, after, tokens) && TokenWritten(block, after, "accountId", name)
  {
    WithTokensWrites(block, tokens);
  }

  // ----- reading a credential again -----

  /** The block that the route's credential is in. */
  function BlockOfRoute(files: Files, route: Route): Option<Json>
    requires route.Route?
  {
    if !route.source.FromAccounts? then Member(files, route.path, route.providerKey)
    else
      var entry := Listed(files, route.accountsPath, route.providerKey, route.index);
      if entry.Some? && "data" in entry.value then Some(entry.value["data"]) else None
  }

  /** The list, if there is one, still has the account at its place, and as active as it was. */
  predicate StillListed(files: Files, route: Route)
    requires route.Route?
  {
    var entry := Listed(files, route.accountsPath, route.providerKey, route.index);
    && entry.Some? && Says(entry.value, "accountId", route.accountId)
    && (Active(entry.value) <==> !route.source.FromAccounts?)
  }

  /** The credential is found again exactly if the list still has the account and the block holds a credential that is
      not known to be somebody else's. */
  lemma ReadAgain(files: Files, route: Route)
    requires route.Route?
    ensures var r, block := Reload(files, route), BlockOfRoute(files, route);
            var usable := if route.source.FromPi? then UsableForPi(block) else Usable(block);
            && (r.Found? <==>
                  && usable && (route.source.FromAccounts? || route.accountsPath.Some? ==> StillListed(files, route))
                  && (!route.source.FromAccounts? && route.credentialAccountId != "" ==>
                        Says(block.value.fields, "accountId", route.credentialAccountId)))
            && (r.Found? ==> TakenFrom(r.credential, block.value.fields))
  {
    hide Trim, ParseCredential, HasText, IsTextOf;
    var block := BlockOfRoute(files, route);
    ParsedBlock(None);
    ParsedBlock(block);
    if block.Some? && block.value.Object? {
      if ParseCredential(block, route.source.FromPi?).Some? {
        ParsedName(block, route.source.FromPi?);
      }
      TextSays(block.value.fields, "accountId", route.credentialAccountId);
    }
  }

  lemma ParsedName(block: Option<Json>, pi: bool)
    requires ParseCredential(block, pi).Some?
    ensures ParseCredential(block, pi).value.1 == TextAt(block.value.fields, "accountId")
  {
    hide TextAt;
  }

  /** Reloading the state of an account adopts a credential that is found and is not the one that the state has; a Pi
      account adopts any. A failed account stays failed, and no other account changes. */
  lemma AfterReloading(w: World, id: string, access: string, refresh: string)
    ensures var after := StateReloaded(w, id, access, refresh);
            && after.files == w.files && after.routes.Keys == w.routes.Keys
            && (forall other :: other in w.routes && other != id ==> after.routes[other] == w.routes[other])
            && (id in w.routes ==>
                  var was, route := w.routes[id], after.routes[id];
                  if was.Route? && Reload(w.files, was).Found? then
                    var found := Reload(w.files, was).credential;
                    var differs := found.access != access || found.refresh != refresh;
                    route == was.(credential := if differs || was.source.FromPi? then found else was.credential)
                  else route == was)
  {
    hide Reload;
  }

  /** Reading the credential ahead of a refresh: a new access token is adopted with the credential it came in; Pi adopts
      what it finds and selects it. */
  lemma AfterReread(w: World, id: string)
    ensures var after := Refreshed(w, id);
            && after.files == w.files && after.routes.Keys == w.routes.Keys
            && (forall other :: other in w.routes && other != id ==> after.routes[other] == w.routes[other])
            && (id in w.routes ==>
                  var was, route := w.routes[id], after.routes[id];
                  if was.Route? && !was.persistFailed && Reload(w.files, was).Found? then
                    var found := Reload(w.files, was).credential;
                    && SamePlaceAs(was, route) && !route.persistFailed
                    && (route.credential == found <==>
                          was.credential == found || was.source.FromPi? || found.access != was.credential.access)
                    && (route.credential == found || route.credential == was.credential)
                    && route.selected == (if was.source.FromPi? then Some(found) else was.selected)
                  else route == was)
  {
    hide Reload;
  }
}
