/** Plugin records of the plugins page and the per-plugin enrichment
    (`appendMetaInfo`) that derives flags from a plugin's configuration
    blocks and from the child-bridge status table. */
module Plugins {
  import opened Wrappers
  import opened Js
  import opened Seqs
  import opened ChildBridges

  /** The management UI's own plugin, never listed. */
  const ManagementPlugin: string := "homebridge-config-ui-x"
  /** The bridge host itself, never recommended a child bridge. */
  const BridgeHost: string := "homebridge"

  /** A plugin as the server lists it. The derived flags start `None`
      (JavaScript `undefined`) and are set by `Enrich`. */
  datatype Plugin = Plugin(
    name: string,
    installedVersion: Option<string>,
    updateAvailable: bool,
    disabled: bool,
    isConfigured: Option<bool>,
    isConfiguredDynamicPlatform: Option<bool>,
    recommendChildBridge: Option<bool>,
    hasChildBridges: Option<bool>,
    hasChildBridgesUnpaired: Option<bool>)

  /** The `_bridge` section of a configuration block. */
  datatype BridgeSettings = BridgeSettings(username: Option<string>)

  /** One configuration block as the config editor returns it: whether it
      has an own `platform` property, and its `_bridge` section if any. */
  datatype ConfigBlock = ConfigBlock(hasPlatform: bool, bridge: Option<BridgeSettings>)

  /** The two server settings the page consults. */
  datatype Settings = Settings(recommendChildBridges: bool, serviceMode: bool)

  /** `x._bridge && x._bridge.username` is truthy. */
  predicate HasBridgeUsername(block: ConfigBlock)
  {
    block.bridge.Some? && TruthyString(block.bridge.value.username)
  }

  /** `plugin.installedVersion` is truthy: only such plugins are enriched. */
  predicate Installed(p: Plugin)
  {
    TruthyString(p.installedVersion)
  }

  function NotSelf(): Plugin -> bool
  {
    (p: Plugin) => p.name != ManagementPlugin
  }

  /** `plugins.filter(x => x.name !== 'homebridge-config-ui-x')`. */
  function ExcludeSelf(plugins: seq<Plugin>): (r: seq<Plugin>)
    ensures |r| <= |plugins|
    ensures forall p :: p in r <==> p in plugins && p.name != ManagementPlugin
  {
    Filter(plugins, NotSelf())
  }

  /** The exclusion keeps every other plugin, as often as it occurs and in
      its original order. */
  lemma ExcludeSelfKeepsOthers(a: seq<Plugin>, b: seq<Plugin>, p: Plugin)
    ensures ExcludeSelf(a + b) == ExcludeSelf(a) + ExcludeSelf(b)
    ensures multiset(ExcludeSelf(a))[p] == if p.name == ManagementPlugin then 0 else multiset(a)[p]
  {
    FilterAppend(a, b, NotSelf());
    FilterCount(a, NotSelf(), p);
  }

  /** The derivations of one `appendMetaInfo` task. `fetched` is the outcome
      of the plugin's config request: `None` when it failed. */
  function Enrich(p: Plugin, fetched: Option<seq<ConfigBlock>>, env: Settings, table: seq<ChildBridge>): (r: Plugin)
    ensures r.name == p.name && r.installedVersion == p.installedVersion
    ensures r.updateAvailable == p.updateAvailable && r.disabled == p.disabled
    ensures !Installed(p) ==> r == p
    ensures Installed(p) && fetched.None? ==>
              r == p.(isConfigured := Some(true), hasChildBridges := Some(true))
    ensures Installed(p) && fetched.Some? ==>
              var blocks := fetched.value;
              && r.isConfigured == Some(|blocks| > 0)
              && r.isConfiguredDynamicPlatform == Some(|blocks| > 0 && blocks[0].hasPlatform)
              && r.hasChildBridges == Some(|blocks| > 0 && exists i :: 0 <= i < |blocks| && HasBridgeUsername(blocks[i]))
              && r.hasChildBridgesUnpaired
                 == Some(exists row :: row in table && row.plugin == Some(p.name) && !Truthy(row.paired))
              && r.recommendChildBridge
                 == Some(&& r.isConfiguredDynamicPlatform == Some(true)
                         && env.recommendChildBridges && env.serviceMode
                         && p.name != BridgeHost && p.name != ManagementPlugin)
  {
    if !Installed(p) then p
    else
      match fetched
      case None =>
        // the conservative fallback when the configuration cannot be loaded
        p.(isConfigured := Some(true), hasChildBridges := Some(true))
      case Some(blocks) => EnrichLoaded(p, blocks, env, table)
  }

  /** The success path of `appendMetaInfo` for one plugin. */
  function EnrichLoaded(p: Plugin, blocks: seq<ConfigBlock>, env: Settings, table: seq<ChildBridge>): (r: Plugin)
    ensures r == p.(isConfigured := r.isConfigured, isConfiguredDynamicPlatform := r.isConfiguredDynamicPlatform,
                    recommendChildBridge := r.recommendChildBridge, hasChildBridges := r.hasChildBridges,
                    hasChildBridgesUnpaired := r.hasChildBridgesUnpaired)
    ensures r.isConfigured == Some(|blocks| > 0)
    ensures r.isConfiguredDynamicPlatform == Some(|blocks| > 0 && blocks[0].hasPlatform)
    ensures r.hasChildBridges == Some(|blocks| > 0 && exists i :: 0 <= i < |blocks| && HasBridgeUsername(blocks[i]))
    ensures r.hasChildBridgesUnpaired == Some(exists row :: row in table && row.plugin == Some(p.name) && !Truthy(row.paired))
    ensures r.recommendChildBridge
            == Some(&& r.isConfiguredDynamicPlatform == Some(true)
                    && env.recommendChildBridges && env.serviceMode
                    && p.name != BridgeHost && p.name != ManagementPlugin)
  {
    var configured := |blocks| > 0;
    var dynamic := configured && blocks[0].hasPlatform;
    p.(isConfigured := Some(configured),
       isConfiguredDynamicPlatform := Some(dynamic),
       recommendChildBridge := Some(dynamic && env.recommendChildBridges && env.serviceMode
                                    && p.name !in [BridgeHost, ManagementPlugin]),
       hasChildBridges := Some(configured && Any(blocks, HasBridgeUsername)),
       hasChildBridgesUnpaired := Some(AnyUnpaired(ByPlugin(table, p.name))))
  }

  /** The config request's outcome per plugin name: absent when it failed. */
  function Fetched(configs: map<string, seq<ConfigBlock>>, name: string): Option<seq<ConfigBlock>>
  {
    if name in configs then Some(configs[name]) else None
  }

  /** `appendMetaInfo` once every request has settled: each plugin enriched
      independently, the list itself untouched. */
  function EnrichAll(plugins: seq<Plugin>, configs: map<string, seq<ConfigBlock>>, env: Settings, table: seq<ChildBridge>)
    : (r: seq<Plugin>)
    ensures |r| == |plugins|
    ensures forall i :: 0 <= i < |r| ==> r[i] == Enrich(plugins[i], Fetched(configs, plugins[i].name), env, table)
  {
    seq(|plugins|, i requires 0 <= i < |plugins| => Enrich(plugins[i], Fetched(configs, plugins[i].name), env, table))
  }

  /** A recommended child bridge needs a configured dynamic platform, both
      settings on, and a plugin other than the host and the management UI. */
  lemma RecommendationConditions(p: Plugin, fetched: Option<seq<ConfigBlock>>, env: Settings, table: seq<ChildBridge>)
    requires Truthy(Enrich(p, fetched, env, table).recommendChildBridge)
    requires p.recommendChildBridge.None?
    ensures Truthy(Enrich(p, fetched, env, table).isConfiguredDynamicPlatform)
    ensures Truthy(Enrich(p, fetched, env, table).isConfigured)
    ensures env.recommendChildBridges && env.serviceMode
    ensures p.name != BridgeHost && p.name != ManagementPlugin
  {
  }
}
