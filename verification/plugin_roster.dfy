/** The installed-plugins page as a whole: `loadInstalledPlugins` and
    `search`, with the server's answers, the configuration requests and the
    child-bridge table supplied as inputs. */
module PluginRoster {
  import opened Wrappers
  import opened Seqs
  import opened ChildBridges
  import opened Plugins
  import opened PluginOrder

  /** What the page shows after an action has settled. */
  datatype Roster = Roster(plugins: seq<Plugin>, loading: bool, showExitButton: bool, errorShown: bool)

  function PluginName(p: Plugin): string { p.name }

  function Names(plugins: seq<Plugin>): (r: seq<string>)
    ensures |r| == |plugins|
    ensures forall i :: 0 <= i < |plugins| ==> r[i] == plugins[i].name
  {
    Map(plugins, PluginName)
  }

  /** Enrichment never renames, drops or reorders a plugin. */
  lemma EnrichAllKeepsNames(plugins: seq<Plugin>, configs: map<string, seq<ConfigBlock>>, env: Settings,
                            table: seq<ChildBridge>)
    ensures Names(EnrichAll(plugins, configs, env, table)) == Names(plugins)
  {
  }

  /** Every enriched plugin is the enrichment of one of the input plugins. */
  lemma EnrichAllOrigin(plugins: seq<Plugin>, configs: map<string, seq<ConfigBlock>>, env: Settings,
                        table: seq<ChildBridge>)
    ensures forall p :: p in EnrichAll(plugins, configs, env, table) ==>
              exists q :: q in plugins && p == Enrich(q, Fetched(configs, q.name), env, table)
  {
    var enriched := EnrichAll(plugins, configs, env, table);
    forall p | p in enriched
      ensures exists q :: q in plugins && p == Enrich(q, Fetched(configs, q.name), env, table)
    {
      var i :| 0 <= i < |enriched| && enriched[i] == p;
      assert plugins[i] in plugins;
    }
  }

  /** `loadInstalledPlugins`: `listing` is the answer to `GET /plugins`
      (`None` when the request fails). On success the management plugin is
      dropped, the rest enriched and sorted; on failure the list stays empty,
      an error is shown and the spinner is never cleared. */
  function LoadInstalled(listing: Option<seq<Plugin>>, configs: map<string, seq<ConfigBlock>>, env: Settings,
                         table: seq<ChildBridge>): (r: Roster)
    ensures forall p :: p in r.plugins ==> p.name != ManagementPlugin
    ensures !r.showExitButton
    ensures listing.None? ==> r == Roster([], true, false, true)
    ensures listing.Some? ==>
              && !r.loading && !r.errorShown
              && multiset(r.plugins) == multiset(EnrichAll(ExcludeSelf(listing.value), configs, env, table))
              && multiset(Names(r.plugins)) == multiset(Names(ExcludeSelf(listing.value)))
              && forall p :: p in r.plugins ==>
                   exists q :: q in listing.value && q.name != ManagementPlugin
                            && p == Enrich(q, Fetched(configs, q.name), env, table)
  {
    match listing
    case None => Roster([], true, false, true)
    case Some(plugins) =>
      var enriched := EnrichAll(ExcludeSelf(plugins), configs, env, table);
      PermutationKeepsNames(SortPlugins(enriched, env.recommendChildBridges), enriched);
      EnrichAllKeepsNames(ExcludeSelf(plugins), configs, env, table);
      EnrichAllOrigin(ExcludeSelf(plugins), configs, env, table);
      Roster(SortPlugins(enriched, env.recommendChildBridges), false, false, false)
  }

  /** Two lists that are permutations of each other hold the same plugins
      and the same names; the sort's output is one such list. */
  lemma PermutationKeepsNames(a: seq<Plugin>, b: seq<Plugin>)
    requires multiset(a) == multiset(b)
    ensures multiset(Names(a)) == multiset(Names(b))
    ensures forall p :: p in a ==> p in b
  {
    MapPermutation(a, b, PluginName);
    forall p | p in a
      ensures p in b
    {
      assert p in multiset(a);
    }
  }

  /** When every listed plugin is installed and its configuration loaded,
      all flags are defined and the loaded list is in comparator order. */
  lemma LoadInstalledSorted(listing: seq<Plugin>, configs: map<string, seq<ConfigBlock>>, env: Settings,
                            table: seq<ChildBridge>)
    requires forall p :: p in listing && p.name != ManagementPlugin ==> Installed(p) && p.name in configs
    ensures Sorted(LoadInstalled(Some(listing), configs, env, table).plugins, env.recommendChildBridges)
  {
    var enriched := EnrichAll(ExcludeSelf(listing), configs, env, table);
    assert LoadInstalled(Some(listing), configs, env, table).plugins
        == SortPlugins(enriched, env.recommendChildBridges);
    forall i | 0 <= i < |enriched|
      ensures FlagsDefined(enriched[i], env.recommendChildBridges)
    {
      assert ExcludeSelf(listing)[i] in ExcludeSelf(listing);
    }
    SortPluginsSorted(enriched, env.recommendChildBridges);
  }

  /** The answer to the search request: the results, or an error response
      whose `error` property is an object (`hasBody`) or missing. */
  datatype SearchAnswer = Found(results: seq<Plugin>) | Failed(hasBody: bool)

  /** `search`: the management plugin is dropped and the rest enriched, in
      server order. On an error with a body, an error is shown and the
      installed list is reloaded from `listing`; on one without, reading
      `error.error.message` throws inside the handler, so neither happens and
      the page is left empty with the exit button showing. */
  function Search(answer: SearchAnswer, listing: Option<seq<Plugin>>,
                  configs: map<string, seq<ConfigBlock>>, env: Settings, table: seq<ChildBridge>): (r: Roster)
    ensures forall p :: p in r.plugins ==> p.name != ManagementPlugin
    ensures answer.Found? ==>
              && r.showExitButton && !r.loading && !r.errorShown
              && Names(r.plugins) == Names(ExcludeSelf(answer.results))
              && forall i :: 0 <= i < |r.plugins| ==>
                   r.plugins[i] == Enrich(ExcludeSelf(answer.results)[i],
                                          Fetched(configs, r.plugins[i].name), env, table)
    ensures answer == Failed(true) ==> r == LoadInstalled(listing, configs, env, table).(errorShown := true)
    ensures answer == Failed(false) ==> r.plugins == [] && r.showExitButton && !r.loading && !r.errorShown
  {
    match answer
    case Found(found) =>
      EnrichAllKeepsNames(ExcludeSelf(found), configs, env, table);
      Roster(EnrichAll(ExcludeSelf(found), configs, env, table), false, true, false)
    case Failed(hasBody) =>
      if hasBody then LoadInstalled(listing, configs, env, table).(errorShown := true)
      else Roster([], false, true, false)
  }
}
