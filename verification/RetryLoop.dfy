/** The provider cache of the daemon and the loop that refreshes providers whose reset time has passed. */
module RetryLoop {
  import opened Wrappers

  /** A cached account of a provider, with the reset times it shows. */
  datatype Snapshot = Snapshot(providerId: string, account: string, resets: seq<int>)

  type Cache = map<string, seq<Snapshot>>

  predicate ShowsPastReset(snapshots: seq<Snapshot>, margin: nat, now: int) {
    exists i, j :: 0 <= i < |snapshots| && 0 <= j < |snapshots[i].resets| && snapshots[i].resets[j] + margin <= now
  }

  function Stale(cache: Cache, margin: nat, now: int): set<string> {
    set id | id in cache && ShowsPastReset(cache[id], margin, now)
  }

  /** A provider is not stale as long as every reset time that it shows, plus the margin, is still to come. */
  lemma FreshUntilReset(cache: Cache, margin: nat, now: int, id: string)
    ensures id !in Stale(cache, margin, now) <==>
            (id in cache ==>
               forall snapshot :: snapshot in cache[id] ==> forall t :: t in snapshot.resets ==> now < t + margin)
  {
    if id in cache && id !in Stale(cache, margin, now) {
      forall snapshot, t | snapshot in cache[id] && t in snapshot.resets
        ensures now < t + margin
      {
        var i :| 0 <= i < |cache[id]| && cache[id][i] == snapshot;
        var j :| 0 <= j < |snapshot.resets| && snapshot.resets[j] == t;
        assert !(cache[id][i].resets[j] + margin <= now);
      }
    }
    if id in Stale(cache, margin, now) {
      var i, j :| 0 <= i < |cache[id]| && 0 <= j < |cache[id][i].resets| && cache[id][i].resets[j] + margin <= now;
      assert cache[id][i] in cache[id] && cache[id][i].resets[j] in cache[id][i].resets;
    }
  }

  /** The snapshots of one provider, in order. */
  function OfProvider(snapshots: seq<Snapshot>, id: string): seq<Snapshot> {
    if snapshots == [] then []
    else (if snapshots[0].providerId == id then [snapshots[0]] else []) + OfProvider(snapshots[1..], id)
  }

  /** The provider that a plugin's outputs are filed under. */
  function ProviderOf(plugin: string, outputs: seq<Snapshot>): string {
    if outputs == [] then plugin else outputs[0].providerId
  }

  /** A plugin that was probed and what it put out. */
  datatype Report = Report(plugin: string, outputs: seq<Snapshot>)

  function Providers(reports: seq<Report>): set<string> {
    set r | r in reports :: ProviderOf(r.plugin, r.outputs)
  }

  function Outputs(reports: seq<Report>): seq<Snapshot> {
    if reports == [] then [] else Outputs(reports[..|reports| - 1]) + reports[|reports| - 1].outputs
  }

  /** The selected plugins, in order. */
  function Selected(plugins: seq<string>, ids: Option<set<string>>): seq<string> {
    if plugins == [] then []
    else
      var last := plugins[|plugins| - 1];
      Selected(plugins[..|plugins| - 1], ids) + if ids.None? || last in ids.value then [last] else []
  }

  function PluginsOf(reports: seq<Report>): seq<string> {
    seq(|reports|, i requires 0 <= i < |reports| => reports[i].plugin)
  }

  /** The cache with the entry of every provider that was reported for replaced by all its outputs. */
  function Replaced(cache: Cache, reports: seq<Report>): Cache {
    map id | id in cache.Keys + Providers(reports) :: if id in Providers(reports) then OfProvider(Outputs(reports), id)
      else cache[id]
  }

  /** The host builds every output with the id of its plugin. */
  predicate Owned(reports: seq<Report>) {
    forall r :: r in reports ==> forall o :: o in r.outputs ==> o.providerId == r.plugin
  }

  /** A refresh and what the cache held and the clock showed when it was asked for. */
  datatype Asked = Asked(ids: Option<set<string>>, cache: Cache, now: int)

  class Daemon {
    const plugins: seq<string>
    var cache: Cache
    var now: int
    ghost var asked: seq<Asked>  // the refreshes so far

    constructor (plugins: seq<string>, now: int)
      ensures this.plugins == plugins && this.now == now && cache == map[] && asked == []
    {
      this.plugins, this.now, cache, asked := plugins, now, map[], [];
    }

    /** Runs a plugin; this takes some time and may fail. Each output names an account and some reset times. */
    method Probe(plugin: string) returns (outputs: Option<seq<Snapshot>>)
      modifies this`now
      ensures now >= old(now)
      ensures outputs.Some? ==> forall o :: o in outputs.value ==> o.providerId == plugin
    {
      var found: Option<seq<(string, seq<int>)>> := *;
      outputs := match found
                 case None => None
                 case Some(list) => Some(seq(|list|,
                                             i requires 0 <= i < |list| => Snapshot(plugin, list[i].0, list[i].1)));
      var time: int := *;
      now := now + if time > 0 then time else 0;
    }

    method Sleep(delay: nat)
      modifies this`now
      ensures now >= old(now) + delay
    {
      var late: int := *;
      now := now + delay + if late > 0 then late else 0;
    }

    /** Probes the selected plugins in order, up to the first that fails. */
    method ProbeSelected(ids: Option<set<string>>)
      returns (ok: bool, snapshots: seq<Snapshot>, refreshed: seq<string>, ghost reports: seq<Report>)
      modifies this`now
      ensures now >= old(now)
      ensures ok ==>
                PluginsOf(reports) == Selected(plugins, ids) && snapshots == Outputs(reports)
                  && FiledUnder(reports, refreshed)
      ensures Owned(reports)
    {
      hide Outputs, PluginsOf, FiledUnder;
      snapshots, refreshed, reports := [], [], [];
      NoReports();
      for i := 0 to |plugins|
        invariant now >= old(now)
        invariant PluginsOf(reports) == Selected(plugins[..i], ids) && snapshots == Outputs(reports)
        invariant FiledUnder(reports, refreshed)
        invariant Owned(reports)
      {
        assert plugins[..i + 1][..i] == plugins[..i];
        var plugin := plugins[i];
        if ids.Some? && plugin !in ids.value {
          continue;
        }
        var probed := Probe(plugin);
        if probed.None? {
          ok := false;
          return;
        }
        OneMoreReport(reports, refreshed, Report(plugin, probed.value));
        refreshed := refreshed + [ProviderOf(plugin, probed.value)];
        snapshots := snapshots + probed.value;
        reports := reports + [Report(plugin, probed.value)];
      }
      assert plugins[..|plugins|] == plugins;
      ok := true;
    }

    method ReplaceProviderCaches(refreshed: seq<string>, snapshots: seq<Snapshot>)
      modifies this`cache
      ensures cache.Keys == old(cache).Keys + (set id | id in refreshed)
      ensures forall id :: id in cache ==>
                cache[id] == if id in refreshed then OfProvider(snapshots, id) else old(cache)[id]
    {
      hide OfProvider;
      for i := 0 to |refreshed|
        invariant cache.Keys == old(cache).Keys + (set id | id in refreshed[..i])
        invariant forall id :: id in cache ==>
                    cache[id] == if id in refreshed[..i] then OfProvider(snapshots, id) else old(cache)[id]
      {
        assert refreshed[..i + 1] == refreshed[..i] + [refreshed[i]];
        cache := cache[refreshed[i] := OfProvider(snapshots, refreshed[i])];
      }
      assert refreshed[..|refreshed|] == refreshed;
    }

    /** Replaces the entries of the providers that the selected plugins report for; a probe that fails leaves the whole
        cache as it was. */
    method Refresh(ids: Option<set<string>>) returns (ok: bool, ghost reports: seq<Report>)
      modifies this`now, this`cache, this`asked
      ensures now >= old(now) && asked == old(asked) + [Asked(ids, old(cache), old(now))]
      ensures ids.Some? ==> cache - ids.value == old(cache) - ids.value
      ensures if ok then PluginsOf(reports) == Selected(plugins, ids) && cache == Replaced(old(cache), reports)
                else cache == old(cache)
      ensures Owned(reports)
    {
      hide OfProvider, Outputs, PluginsOf, Providers, FiledUnder, Selected;
      asked := asked + [Asked(ids, cache, now)];
      var snapshots, refreshed;
      ok, snapshots, refreshed, reports := ProbeSelected(ids);
      if !ok {
        return;
      }
      ReportedProviders(reports, refreshed);
      ghost var before := cache;
      ReplaceProviderCaches(refreshed, snapshots);
      if ids.Some? {
        OnlyRequested(plugins, ids.value, reports, before);
      }
    }

    /** Refreshes the stale providers after each delay until none is stale or the window since the trigger is over; made
        are the refreshes, and looked the times at which the cache was looked through for them. */
    method RunPastResetRetryLoop(proactiveTrigger: Option<int>, margin: nat, delay: nat, maxAge: nat)
      returns (attempts: nat, ghost made: seq<Asked>, ghost looked: seq<int>)
      requires delay > 0 && (proactiveTrigger.Some? ==> proactiveTrigger.value <= now)
      modifies this`now, this`cache, this`asked
      ensures now >= old(now)
      ensures asked == old(asked) + made && |made| == attempts
      ensures AllForStale(made, looked, margin, delay) && OthersKept(old(cache), made, cache)
      ensures attempts > 0 ==> (attempts - 1) * delay < maxAge
      ensures var started := if proactiveTrigger.Some? then proactiveTrigger.value else old(now);
              Stale(cache, margin, now) == {} || now - started >= maxAge
      ensures attempts == 0 ==> cache == old(cache)
      ensures forall id :: id in old(cache) && !ShowsPastReset(old(cache)[id], margin, now) ==>
                id in cache && cache[id] == old(cache)[id]
    {
      hide ShowsPastReset, Stale, OfProvider, Selected, Providers, PluginsOf, OthersKept, AllForStale;
      var started := if proactiveTrigger.Some? then proactiveTrigger.value else now;
      attempts, made, looked := 0, [], [];
      NoRefresh(cache, margin, delay);
      var active := proactiveTrigger.Some?;
      if !active && Stale(cache, margin, now) != {} {
        active := true;
      }
      if !active {
        return;
      }
      while true
        invariant now >= old(now) && now - started >= attempts * delay
        invariant attempts > 0 ==> (attempts - 1) * delay < maxAge
        invariant asked == old(asked) + made && |made| == attempts
        invariant AllForStale(made, looked, margin, delay) && OthersKept(old(cache), made, cache)
        invariant attempts == 0 ==> cache == old(cache)
        invariant forall id :: id in old(cache) && !ShowsPastReset(old(cache)[id], margin, now) ==>
                    id in cache && cache[id] == old(cache)[id]
        decreases maxAge - (now - started)
      {
        var stale := Stale(cache, margin, now);
        if stale == {} {
          break;
        }
        if now - started >= maxAge {
          break;
        }
        ghost var before, startedAt := cache, now;
        Sleep(delay);
        ghost var refresh := Asked(Some(stale), cache, now);
        var ok, reports := Refresh(Some(stale));
        OneMoreRefresh(old(cache), made, looked, before, refresh, startedAt, margin, delay, cache);
        attempts, made, looked := attempts + 1, made + [refresh], looked + [startedAt];
        LaterIsStaler(old(cache), before, margin, startedAt, now);
        SameOutside(before, cache, stale);
      }
    }
  }

  /** The refresh was for exactly the providers that were stale when the cache was looked through, a delay before. */
  predicate AsksForStale(asked: Asked, looked: int, margin: nat, delay: nat) {
    asked.ids == Some(Stale(asked.cache, margin, looked)) && asked.ids != Some({}) && looked + delay <= asked.now
  }

  ghost predicate AllForStale(made: seq<Asked>, looked: seq<int>, margin: nat, delay: nat) {
    |looked| == |made| && forall i :: 0 <= i < |made| ==> AsksForStale(made[i], looked[i], margin, delay)
  }

  /** The cache before refresh i, or after the last one. */
  function CacheAt(made: seq<Asked>, last: Cache, i: nat): Cache {
    if i < |made| then made[i].cache else last
  }

  /** The refreshes lead from the first cache to the last, and none changed an entry of a provider it was not for. */
  ghost predicate OthersKept(first: Cache, made: seq<Asked>, last: Cache) {
    && CacheAt(made, last, 0) == first
    && forall i :: 0 <= i < |made| && made[i].ids.Some? ==>
      CacheAt(made, last, i + 1) - made[i].ids.value == CacheAt(made, last, i) - made[i].ids.value
  }

  lemma NoRefresh(cache: Cache, margin: nat, delay: nat)
    ensures OthersKept(cache, [], cache) && AllForStale([], [], margin, delay)
  {
  }

  lemma OneMoreRefresh(first: Cache, made: seq<Asked>, looked: seq<int>, before: Cache, refresh: Asked, time: int,
                       margin: nat, delay: nat, cache: Cache)
    requires OthersKept(first, made, before) && AllForStale(made, looked, margin, delay)
    requires refresh.cache == before && AsksForStale(refresh, time, margin, delay)
    requires refresh.ids.Some? ==> cache - refresh.ids.value == before - refresh.ids.value
    ensures OthersKept(first, made + [refresh], cache)
    ensures AllForStale(made + [refresh], looked + [time], margin, delay)
  {
    hide AsksForStale;
    var more := made + [refresh];
    forall i | 0 <= i <= |made|
      ensures CacheAt(more, cache, i) == CacheAt(made, before, i)
    {
    }
    forall i | 0 <= i < |more| && more[i].ids.Some?
      ensures CacheAt(more, cache, i + 1) - more[i].ids.value == CacheAt(more, cache, i) - more[i].ids.value
    {
      if i < |made| {
        assert more[i] == made[i];
      }
    }
  }

  lemma SameOutside(before: Cache, after: Cache, ids: set<string>)
    requires after - ids == before - ids
    ensures forall id :: id in before && id !in ids ==> id in after && after[id] == before[id]
  {
    forall id | id in before && id !in ids
      ensures id in after && after[id] == before[id]
    {
      assert id in before - ids && id in after - ids;
    }
  }

  /** What shows no past reset at the end showed none before. */
  lemma LaterIsStaler(first: Cache, cache: Cache, margin: nat, earlier: int, later: int)
    requires earlier <= later
    ensures forall id :: id in first && !ShowsPastReset(first[id], margin, later) ==>
              !ShowsPastReset(first[id], margin, earlier)
    ensures forall id ::
              id in first && id in cache && cache[id] == first[id] && !ShowsPastReset(first[id], margin, later) ==>
              id !in Stale(cache, margin, earlier)
  {
  }

  /** The providers that the reports are filed under, in order. */
  predicate FiledUnder(reports: seq<Report>, refreshed: seq<string>) {
    |refreshed| == |reports| && forall k :: 0 <= k < |reports| ==>
      refreshed[k] == ProviderOf(reports[k].plugin, reports[k].outputs)
  }

  lemma NoReports()
    ensures PluginsOf([]) == [] && Outputs([]) == [] && FiledUnder([], [])
  {
  }

  lemma OneMoreReport(reports: seq<Report>, refreshed: seq<string>, report: Report)
    ensures Outputs(reports + [report]) == Outputs(reports) + report.outputs
    ensures PluginsOf(reports + [report]) == PluginsOf(reports) + [report.plugin]
    ensures FiledUnder(reports, refreshed) ==>
              FiledUnder(reports + [report], refreshed + [ProviderOf(report.plugin, report.outputs)])
  {
    assert (reports + [report])[..|reports|] == reports;
  }

  lemma ReportedProviders(reports: seq<Report>, refreshed: seq<string>)
    requires FiledUnder(reports, refreshed)
    ensures Providers(reports) == set id | id in refreshed
  {
    forall id | id in refreshed
      ensures id in Providers(reports)
    {
      var k :| 0 <= k < |refreshed| && refreshed[k] == id;
      assert reports[k] in reports;
    }
  }

  /** A refresh of some providers changes no other entry, whatever the cache holds. */
  lemma OnlyRequested(plugins: seq<string>, ids: set<string>, reports: seq<Report>, cache: Cache)
    requires PluginsOf(reports) == Selected(plugins, Some(ids)) && Owned(reports)
    ensures Providers(reports) <= ids && Replaced(cache, reports) - ids == cache - ids
  {
    hide OfProvider, Outputs;
    SelectedAreRequested(plugins, ids);
    forall r | r in reports
      ensures ProviderOf(r.plugin, r.outputs) == r.plugin && r.plugin in ids
    {
      var i :| 0 <= i < |reports| && reports[i] == r;
      assert PluginsOf(reports)[i] == r.plugin;
    }
  }

  lemma {:induction false} SelectedAreRequested(plugins: seq<string>, ids: set<string>)
    ensures forall plugin :: plugin in Selected(plugins, Some(ids)) ==> plugin in ids
  {
    if plugins != [] {
      SelectedAreRequested(plugins[..|plugins| - 1], ids);
    }
  }

  /** Selecting keeps the order; without ids every plugin is selected, and otherwise exactly those asked for. */
  lemma {:induction false} SelectedPlugins(plugins: seq<string>, plugin: string, ids: set<string>)
    ensures Selected(plugins, None) == plugins
    ensures Selected([], Some(ids)) == []
    ensures Selected(plugins + [plugin], Some(ids))
              == Selected(plugins, Some(ids)) + if plugin in ids then [plugin] else []
    ensures plugin in Selected(plugins, Some(ids)) <==> plugin in plugins && plugin in ids
  {
    assert (plugins + [plugin])[..|plugins|] == plugins;
    if plugins != [] {
      var most := plugins[..|plugins| - 1];
      SelectedPlugins(most, plugin, ids);
      assert plugins == most + [plugins[|plugins| - 1]];
    }
  }

  /** The first of some snapshots, if it is the provider's. */
  function First(snapshots: seq<Snapshot>, id: string): seq<Snapshot> {
    if snapshots != [] && snapshots[0].providerId == id then [snapshots[0]] else []
  }

  lemma OfFirst(snapshots: seq<Snapshot>, id: string)
    ensures snapshots == [] ==> OfProvider(snapshots, id) == []
    ensures snapshots != [] ==> OfProvider(snapshots, id) == First(snapshots, id) + OfProvider(snapshots[1..], id)
  {
  }

  lemma {:induction false} OfConcatenation(a: seq<Snapshot>, b: seq<Snapshot>, id: string)
    ensures OfProvider(a + b, id) == OfProvider(a, id) + OfProvider(b, id)
  {
    hide OfProvider;
    OfFirst(a, id);
    if a == [] {
      assert a + b == b;
    } else {
      assert (a + b)[1..] == a[1..] + b && First(a + b, id) == First(a, id);
      OfFirst(a + b, id);
      hide First;
      OfConcatenation(a[1..], b, id);
    }
  }

  lemma {:induction false} OfOnePlugin(outputs: seq<Snapshot>, plugin: string, id: string)
    requires forall o :: o in outputs ==> o.providerId == plugin
    ensures OfProvider(outputs, id) == if plugin == id then outputs else []
  {
    if outputs != [] {
      OfOnePlugin(outputs[1..], plugin, id);
      assert outputs == [outputs[0]] + outputs[1..];
    }
  }

  lemma {:induction false} OutputsOfPlugin(reports: seq<Report>, id: string, i: int)
    requires Owned(reports)
    requires forall k :: 0 <= k < |reports| ==> (reports[k].plugin == id <==> k == i)
    ensures OfProvider(Outputs(reports), id) == if 0 <= i < |reports| then reports[i].outputs else []
  {
    if reports != [] {
      var most, last := reports[..|reports| - 1], reports[|reports| - 1];
      OutputsOfPlugin(most, id, i);
      OfConcatenation(Outputs(most), last.outputs, id);
      OfOnePlugin(last.outputs, last.plugin, id);
    }
  }

  /** After a refresh each probed plugin's entry is what this plugin put out, even if that is nothing, if no two plugins
      have the same id. */
  lemma EntryIsOutput(reports: seq<Report>, cache: Cache, i: nat)
    requires Owned(reports) && i < |reports|
    requires forall j, k :: 0 <= j < k < |reports| ==> reports[j].plugin != reports[k].plugin
    ensures var id := reports[i].plugin;
            id in Replaced(cache, reports) && Replaced(cache, reports)[id] == reports[i].outputs
  {
    hide OfProvider, Outputs;
    var id := reports[i].plugin;
    OutputsOfPlugin(reports, id, i);
    assert reports[i] in reports && ProviderOf(id, reports[i].outputs) == id;
  }
}
