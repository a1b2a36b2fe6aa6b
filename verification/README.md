# Plugin roster and reset-accessories dialog, modelled in Dafny

This project models two pieces of logic from the Homebridge administration UI
(`homebridge-config-ui-x`).

**The installed-plugins page** (`plugins.component.ts`) has four parts:

- It drops the UI's own plugin from every listing.
- It enriches each installed plugin with flags derived from the plugin's
  configuration blocks and from the live child-bridge status table.
- It sorts the list with a five-level comparator that ends in a name tie-break.
- It keeps the status table current: pushed `child-bridge-status-update`
  records are upserted by `username` and merged field by field.

**The reset-accessories dialog** (`reset-accessories.component.ts`) has three parts:

- It lists the non-main bridge pairings of known child bridges.
- It tracks a small `deleting`/`deleted` state while pairings are removed.
- When it is destroyed, it opens the restart dialog for the removed bridges.

HTTP answers, pushed records and settings are all inputs. The model represents
them as follows:

- An answer that can fail is an `Option`, with `None` for a failed request.
- The per-plugin configuration requests are a map from plugin name to the
  blocks returned. A missing key means that request failed.
- The derived plugin flags are `Option<bool>`, because JavaScript leaves them
  `undefined` on plugins that are never enriched.

Modules, one per concept:

- `Wrappers`, `Js` and `Seqs` hold shared definitions: `Option`, JavaScript
  truthiness, and `filter`/`some`/`map` over sequences.
- `LexOrder` holds the name order.
- `ChildBridges` holds the status table.
- `Plugins` holds the plugin records and their enrichment.
- `PluginOrder` holds the comparator and the sort.
- `PluginRoster` holds load and search.
- `ResetAccessories` holds the dialog.

**The comparator is not antisymmetric when a flag is undefined.** Each level
compares flags with `!==` and then decides by the truthiness of the left
argument, so an `undefined` flag counts as `false` whenever it is `a`'s.
Take a plugin whose configuration request failed: its
`hasChildBridgesUnpaired` stays `undefined`. Compare it with a loaded plugin
that is configured, has the same `updateAvailable` and `disabled`, and whose
flag is `false`, and both directions return 1. The lemma
`PluginOrder.UndefinedFlagBreaksAntisymmetry` shows this on plugins built by
`Enrich` itself. For that reason, antisymmetry, transitivity and sortedness are
proved only under `FlagsDefined`. Under `FlagsDefined` the comparator is proved
equal to the lexicographic order of a rank key (`PluginOrder.Rank`). With an
undefined flag nothing is claimed beyond that counterexample.

Four behaviours of the code are easy to miss:

- A failed `GET /plugins` leaves the list empty and also leaves `loading` set.
- Search results are enriched but not sorted.
- The ranking can stop being a total order when a flag is undefined:
  `undefined` against `false` on one level, with the higher levels tied,
  gives the same sign in both directions.
- A failed search whose error response has no `error` body throws while
  building the toast message (plugins.component.ts:182). No toast is shown and
  the installed list is not reloaded, so the page stays empty with the exit
  button showing.

## Model

| member | source | states |
|---|---|---|
| `Plugins.ExcludeSelf` | ui/src/app/modules/plugins/plugins.component.ts:95 | the result holds exactly the input plugins not named `homebridge-config-ui-x` |
| `Plugins.ExcludeSelfKeepsOthers` | ui/src/app/modules/plugins/plugins.component.ts:175 | the exclusion distributes over concatenation (original order kept) and keeps every other plugin as often as it occurs |
| `Plugins.Enrich` | ui/src/app/modules/plugins/plugins.component.ts:139-166 | a plugin without a truthy `installedVersion` is untouched. A failed fetch sets only `isConfigured` and `hasChildBridges` to true. A successful fetch sets: `isConfigured` iff there are blocks; `isConfiguredDynamicPlatform` iff configured and block 0 has `platform`; `hasChildBridges` iff configured and some block has a truthy `_bridge.username`; `hasChildBridgesUnpaired` iff some table row of this plugin is not paired; `recommendChildBridge` iff dynamic platform, both settings on, and a name other than the host and the UI |
| `Plugins.EnrichLoaded` | ui/src/app/modules/plugins/plugins.component.ts:146-158 | a loaded configuration changes only the five derived flags, each set as for `Enrich` on success |
| `Plugins.EnrichAll` | ui/src/app/modules/plugins/plugins.component.ts:139-166 | the list keeps its length, and each position holds that plugin enriched with its own configuration request's outcome |
| `Plugins.RecommendationConditions` | ui/src/app/modules/plugins/plugins.component.ts:150-153 | a recommended child bridge implies a configured dynamic platform, both settings on, and a name other than `homebridge` and `homebridge-config-ui-x` |
| `PluginRoster.EnrichAllKeepsNames` | ui/src/app/modules/plugins/plugins.component.ts:141-165 | enrichment keeps the list's length, names and order |
| `PluginOrder.Compare` | ui/src/app/modules/plugins/plugins.component.ts:101-129 | the comparator answers -1, 0 or 1, and 0 only for two plugins with the same name |
| `PluginOrder.CompareIsRankOrder` | ui/src/app/modules/plugins/plugins.component.ts:101-129 | with defined flags the comparator equals the lexicographic order of the rank key: update, enabled, unconfigured, unpaired, no child bridges (setting on only), then name |
| `PluginOrder.CompareAntisymmetric` | ui/src/app/modules/plugins/plugins.component.ts:101-129 | with defined flags, `cmp(a,b) == -cmp(b,a)` |
| `PluginOrder.CompareTransitive` | ui/src/app/modules/plugins/plugins.component.ts:101-129 | with defined flags, `cmp(a,b) <= 0` and `cmp(b,c) <= 0` give `cmp(a,c) <= 0` |
| `PluginOrder.CompareCascade` | ui/src/app/modules/plugins/plugins.component.ts:102-128 | each level puts its preferred value first once the higher levels tie; the `hasChildBridges` level applies only with the setting on; otherwise the name order decides |
| `PluginOrder.ChildBridgesIgnoredWhenNotRecommended` | ui/src/app/modules/plugins/plugins.component.ts:122-128 | with the setting off, plugins that differ only in `hasChildBridges` are ordered by name alone |
| `PluginOrder.UndefinedFlagBreaksAntisymmetry` | ui/src/app/modules/plugins/plugins.component.ts:117-120 | a configured loaded plugin without unpaired child bridges and a fetch-failed plugin, tied on the first three levels, compare as 1 in both directions |
| `PluginOrder.SortPlugins` | ui/src/app/modules/plugins/plugins.component.ts:101 | the sorted list is a permutation of its input |
| `PluginOrder.SortPluginsSorted` | ui/src/app/modules/plugins/plugins.component.ts:101-129 | with every flag defined, no pair of the sorted list is out of comparator order |
| `PluginRoster.EnrichAllOrigin` | ui/src/app/modules/plugins/plugins.component.ts:139-166 | every enriched plugin is the enrichment of some plugin of the input list |
| `PluginRoster.PermutationKeepsNames` | ui/src/app/modules/plugins/plugins.component.ts:101 | a reordering of the list, such as the sort's output, has the same multiset of names and no new plugin |
| `PluginRoster.LoadInstalled` | ui/src/app/modules/plugins/plugins.component.ts:87-137 | no loaded plugin is the UI itself. On success the list is a permutation of the enriched non-UI listed plugins, counted with multiplicity, so its names are exactly theirs. Each loaded plugin is the enrichment of a listed one, and loading ends. On failure the list is empty, an error is shown and `loading` stays set |
| `PluginRoster.LoadInstalledSorted` | ui/src/app/modules/plugins/plugins.component.ts:93-132 | when every listed plugin is installed and its configuration loaded, the loaded list is in comparator order |
| `PluginRoster.Search` | ui/src/app/modules/plugins/plugins.component.ts:168-186 | no result is the UI itself. On success the results are the enriched non-UI plugins in server order, with the exit button shown. A failed answer with an `error` body shows an error and reloads the installed list. A failed answer without one leaves the list empty, `loading` cleared, the exit button shown and no error shown |
| `LexOrder.NameCompare` | ui/src/app/modules/plugins/plugins.component.ts:128 | the name order answers -1, 0 or 1, and 0 exactly for equal names |
| `LexOrder.LexAntisymmetric` | ui/src/app/modules/plugins/plugins.component.ts:128 | swapping the arguments of the name/key order negates it |
| `LexOrder.LexTransitive` | ui/src/app/modules/plugins/plugins.component.ts:128 | the name/key order is transitive |
| `ChildBridges.Merge` | ui/src/app/modules/plugins/plugins.component.ts:73 | every property the update carries replaces the row's, every other property is kept |
| `ChildBridges.MergeIdempotent` | ui/src/app/modules/plugins/plugins.component.ts:73 | merging the same update twice equals merging it once |
| `ChildBridges.MergeComplete` | ui/src/app/modules/plugins/plugins.component.ts:73 | an update carrying every property replaces the row |
| `ChildBridges.FindIndex` | ui/src/app/modules/plugins/plugins.component.ts:71 | returns the first row with the username, or nothing exactly when no row has it |
| `ChildBridges.Upsert` | ui/src/app/modules/plugins/plugins.component.ts:70-77 | a known username keeps the length and merges into its first row, leaving all other rows unchanged; an unknown one appends the update as one new row |
| `ChildBridges.UpsertUsernames` | ui/src/app/modules/plugins/plugins.component.ts:70-77 | after an upsert the usernames are the old ones plus the update's |
| `ChildBridges.UpsertKeepsUnique` | ui/src/app/modules/plugins/plugins.component.ts:70-77 | unique usernames stay unique |
| `ChildBridges.UpsertIdempotent` | ui/src/app/modules/plugins/plugins.component.ts:70-77 | applying the same update twice equals applying it once |
| `ChildBridges.PartialUpdateScenario` | ui/src/app/modules/plugins/plugins.component.ts:70-77 | a full row, then an update of `paired` only, leaves one row with only `paired` changed |
| `ChildBridges.ByPlugin` | ui/src/app/modules/plugins/plugins.component.ts:206-208 | returns exactly the rows whose `plugin` is the given name |
| `ChildBridges.ByPluginInTableOrder` | ui/src/app/modules/plugins/plugins.component.ts:206-208 | the lookup distributes over concatenation (table order) and keeps each owned row as often as it occurs |
| `ChildBridges.AnyUnpaired` | ui/src/app/modules/plugins/plugins.component.ts:157-158 | true iff some row is not paired |
| `ResetAccessories.RetainedPairings` | ui/src/app/core/manage-plugins/reset-accessories/reset-accessories.component.ts:55-57 | a pairing is kept iff its category is `bridge`, it is not main, and some child bridge has its username; each kept pairing occurs as often as in the server's list |
| `ResetAccessories.PairingOrder` | ui/src/app/core/manage-plugins/reset-accessories/reset-accessories.component.ts:58 | the comparator never reports a tie and puts `b` first exactly when `b` is a main pairing, never consulting `a` |
| `ResetAccessories.RetainedOrderIsArbitrary` | ui/src/app/core/manage-plugins/reset-accessories/reset-accessories.component.ts:58 | on kept pairings the sort comparator returns -1 in both directions |
| `ResetAccessories.LoadPairings` | ui/src/app/core/manage-plugins/reset-accessories/reset-accessories.component.ts:52-64 | on success only the pairings change: they become a permutation of the kept server pairings. On failure the pairings are kept and the dialog closes |
| `ResetAccessories.BeginRemove` | ui/src/app/core/manage-plugins/reset-accessories/reset-accessories.component.ts:66-67 | the id is marked as in flight and nothing else changes |
| `ResetAccessories.FinishRemove` | ui/src/app/core/manage-plugins/reset-accessories/reset-accessories.component.ts:69-83 | the in-flight mark is cleared. On success the pairings are reloaded and the id is appended to `deleted`. On error `deleted` and the pairings are unchanged |
| `ResetAccessories.DialogListsOnlyRetained` | ui/src/app/core/manage-plugins/reset-accessories/reset-accessories.component.ts:52-84 | the selection rule holds of the listed pairings initially and after every transition |
| `ResetAccessories.FindById` | ui/src/app/core/manage-plugins/reset-accessories/reset-accessories.component.ts:94 | returns a listed pairing with the id, or nothing exactly when none has it |
| `ResetAccessories.FindByIdFirst` | ui/src/app/core/manage-plugins/reset-accessories/reset-accessories.component.ts:94 | the pairing found is the first one in the list with the id |
| `ResetAccessories.BridgesFor` | ui/src/app/core/manage-plugins/reset-accessories/reset-accessories.component.ts:93-96 | when built, the list has one entry per removed id |
| `ResetAccessories.BridgesForDefined` | ui/src/app/core/manage-plugins/reset-accessories/reset-accessories.component.ts:93-96 | the list is built iff every id has a pairing |
| `ResetAccessories.BridgesForEntries` | ui/src/app/core/manage-plugins/reset-accessories/reset-accessories.component.ts:93-96 | when built, entry `i` carries the display name and `_username` of the pairing found for id `i` |
| `ResetAccessories.Close` | ui/src/app/core/manage-plugins/reset-accessories/reset-accessories.component.ts:86-98 | the restart dialog opens iff something was removed. If every removed id is listed, its bridges follow `deleted` in order, each built from the first pairing with that id. Otherwise the assignment fails |
| `ResetAccessories.RemovalOfferedForRestart` | ui/src/app/core/manage-plugins/reset-accessories/reset-accessories.component.ts:70-98 | after a successful removal, closing opens the restart dialog, whose last entry, if built, is the first pairing with the removed id; with a failed reload this assumes the dialog is torn down after the removal is recorded |

## Left out

- Angular dependency injection, lifecycle hooks, router navigation and the `installed` query parameter (plugins.component.ts:50-68, 79-85) are framework glue.
- `onSubmit` and `onClearSearch` are not modelled. They only choose between search and reload.
- The plugins page's `ngOnDestroy` is not modelled. It only releases the subscriptions.
- HTTP and WebSocket transport, toasts, translation lookups and console logging are I/O. Their outcomes are inputs. A shown error is a flag.
- Seeding the status table (`getChildBridgeMetadata`) is not modelled separately. It replaces the table wholesale, so the table is an input to enrichment.
- The `Promise.all` fan-out is a sequential map over one table snapshot. Table updates that arrive while requests are in flight are not modelled.
- `search` does not await the enrichment. The model gives the state once the enrichment has settled.
- `String.prototype.localeCompare` is locale-dependent. Names are compared by character-code lexicographic order instead.
- PluginOrder.SortPlugins: `Array.prototype.sort` is modelled as a stable insertion sort. That sort is the only stable outcome when the comparator is consistent. When a flag is undefined, the engine's order is implementation-defined, and no order is claimed.
- ResetAccessories.LoadPairings: the engine's order under the inconsistent pairing comparator is an input (`arrange`), constrained only to be a permutation.
- ChildBridges.Merge: a property an update carries as an explicit `undefined` or `null` is treated like an absent one, so it does not erase the row's value as `Object.assign` would.
- Rows and updates without a `username` are not modelled. The key is a required string.
- Plugin properties the page does not read are not modelled. Neither are exceptions thrown by malformed configuration blocks (for example a `null` first block).
- `updateAvailable` and `disabled` are booleans, as the server sends them.
- How the dialog's closing, inside a reload after a successful removal, interleaves with the `deleted.push` is not modelled. The model records the removal and a closed flag.
- ResetAccessories.RemovalOfferedForRestart: when the reload fails, the dialog is closed (reset-accessories.component.ts:62) before the removal is recorded (:74). The lemma's claim for that case holds only if the teardown runs after the record.
- The users-edit form, the logs widget and the Linux shutdown page are not part of this model: they are form wiring and I/O with no logic to verify.
