/** The live child-bridge status table of the plugins page: rows pushed by the
    `child-bridge-status-update` event are upserted by `username`, merged
    field by field, and looked up by owning plugin. */
module ChildBridges {
  import opened Wrappers
  import opened Js
  import opened Seqs

  /** One status row. Only `username` is assumed present; every other
      property may be missing from a partial update. */
  datatype ChildBridge = ChildBridge(
    username: string,
    identifier: Option<string>,
    name: Option<string>,
    plugin: Option<string>,
    pid: Option<int>,
    pin: Option<string>,
    setupUri: Option<string>,
    status: Option<string>,
    paired: Option<bool>,
    manuallyStopped: Option<bool>)

  /** The properties of a row other than its key, and the values they hold. */
  datatype Field = Identifier | Name | OwningPlugin | Pid | Pin | SetupUri | Status | Paired | ManuallyStopped
  datatype Value = Absent | Text(text: string) | Number(number: int) | Flag(flag: bool)

  function TextOf(o: Option<string>): Value { if o.Some? then Text(o.value) else Absent }
  function NumberOf(o: Option<int>): Value { if o.Some? then Number(o.value) else Absent }
  function FlagOf(o: Option<bool>): Value { if o.Some? then Flag(o.value) else Absent }

  /** Read one property of a row, `Absent` when the row does not carry it. */
  function Get(row: ChildBridge, f: Field): Value
  {
    match f
    case Identifier => TextOf(row.identifier)
    case Name => TextOf(row.name)
    case OwningPlugin => TextOf(row.plugin)
    case Pid => NumberOf(row.pid)
    case Pin => TextOf(row.pin)
    case SetupUri => TextOf(row.setupUri)
    case Status => TextOf(row.status)
    case Paired => FlagOf(row.paired)
    case ManuallyStopped => FlagOf(row.manuallyStopped)
  }

  /** `Object.assign(row, incoming)`: every property the update carries
      overwrites the row's, every property it omits is kept. */
  function Merge(row: ChildBridge, incoming: ChildBridge): (r: ChildBridge)
    ensures r.username == incoming.username
    ensures forall f :: Get(r, f) == (if Get(incoming, f) == Absent then Get(row, f) else Get(incoming, f))
  {
    ChildBridge(
      incoming.username,
      Overlay(row.identifier, incoming.identifier),
      Overlay(row.name, incoming.name),
      Overlay(row.plugin, incoming.plugin),
      Overlay(row.pid, incoming.pid),
      Overlay(row.pin, incoming.pin),
      Overlay(row.setupUri, incoming.setupUri),
      Overlay(row.status, incoming.status),
      Overlay(row.paired, incoming.paired),
      Overlay(row.manuallyStopped, incoming.manuallyStopped))
  }

  /** Merging the same update a second time changes nothing. */
  lemma MergeIdempotent(row: ChildBridge, incoming: ChildBridge)
    ensures Merge(Merge(row, incoming), incoming) == Merge(row, incoming)
  {
  }

  /** A complete update replaces the row outright. */
  lemma MergeComplete(row: ChildBridge, incoming: ChildBridge)
    requires forall f :: Get(incoming, f) != Absent
    ensures Merge(row, incoming) == incoming
  {
    var r := Merge(row, incoming);
    assert Get(incoming, Identifier) != Absent && Get(incoming, Name) != Absent;
    assert Get(incoming, OwningPlugin) != Absent && Get(incoming, Pid) != Absent;
    assert Get(incoming, Pin) != Absent && Get(incoming, SetupUri) != Absent;
    assert Get(incoming, Status) != Absent && Get(incoming, Paired) != Absent;
    assert Get(incoming, ManuallyStopped) != Absent;
  }

  ghost predicate HasUsername(table: seq<ChildBridge>, username: string)
  {
    exists i :: 0 <= i < |table| && table[i].username == username
  }

  /** Row `i` is the first one carrying `username`: the one `Array.prototype.find` returns. */
  ghost predicate FirstWith(table: seq<ChildBridge>, username: string, i: int)
  {
    && 0 <= i < |table|
    && table[i].username == username
    && forall j :: 0 <= j < i ==> table[j].username != username
  }

  /** Usernames are a key: no two rows share one. */
  ghost predicate UniqueUsernames(table: seq<ChildBridge>)
  {
    forall i, j :: 0 <= i < j < |table| ==> table[i].username != table[j].username
  }

  /** The index of the first row carrying `username`, if any. */
  function FindIndex(table: seq<ChildBridge>, username: string): (r: Option<nat>)
    ensures r.Some? ==> FirstWith(table, username, r.value)
    ensures r.None? <==> !HasUsername(table, username)
  {
    if |table| == 0 then None
    else if table[0].username == username then Some(0)
    else
      match FindIndex(table[1..], username)
      case None => None
      case Some(i) => Some(i + 1)
  }

  /** The `child-bridge-status-update` handler: merge into the first row with
      the same username, or append the update as a new row. */
  function Upsert(table: seq<ChildBridge>, incoming: ChildBridge): (r: seq<ChildBridge>)
    ensures HasUsername(table, incoming.username) ==> |r| == |table|
    ensures !HasUsername(table, incoming.username) ==> r == table + [incoming]
    ensures forall i :: FirstWith(table, incoming.username, i) ==>
              && r[i] == Merge(table[i], incoming)
              && forall j :: 0 <= j < |table| && j != i ==> r[j] == table[j]
  {
    match FindIndex(table, incoming.username)
    case Some(i) => table[i := Merge(table[i], incoming)]
    case None => table + [incoming]
  }

  function Usernames(table: seq<ChildBridge>): set<string>
  {
    set row | row in table :: row.username
  }

  /** After an upsert the table's usernames are the old ones plus the update's. */
  lemma UpsertUsernames(table: seq<ChildBridge>, incoming: ChildBridge)
    ensures Usernames(Upsert(table, incoming)) == Usernames(table) + {incoming.username}
  {
  }

  /** An upsert keeps usernames unique. */
  lemma UpsertKeepsUnique(table: seq<ChildBridge>, incoming: ChildBridge)
    requires UniqueUsernames(table)
    ensures UniqueUsernames(Upsert(table, incoming))
  {
  }

  /** Applying the same update twice is the same as applying it once. */
  lemma UpsertIdempotent(table: seq<ChildBridge>, incoming: ChildBridge)
    ensures Upsert(Upsert(table, incoming), incoming) == Upsert(table, incoming)
  {
    var once := Upsert(table, incoming);
    match FindIndex(table, incoming.username)
    case None =>
      assert FirstWith(once, incoming.username, |table|);
      assert FindIndex(once, incoming.username) == Some(|table|);
      assert Merge(incoming, incoming) == incoming;
    case Some(i) =>
      assert FirstWith(once, incoming.username, i);
      assert FindIndex(once, incoming.username) == Some(i);
      MergeIdempotent(table[i], incoming);
  }

  /** The filter predicate `x => x.plugin === pluginName`. */
  function OwnedBy(pluginName: string): ChildBridge -> bool
  {
    (row: ChildBridge) => row.plugin == Some(pluginName)
  }

  /** `getPluginChildBridges`: the rows owned by the plugin called `pluginName`. */
  function ByPlugin(table: seq<ChildBridge>, pluginName: string): (r: seq<ChildBridge>)
    ensures |r| <= |table|
    ensures forall row :: row in r <==> row in table && row.plugin == Some(pluginName)
  {
    Filter(table, OwnedBy(pluginName))
  }

  /** The lookup keeps table order: it distributes over concatenation, and
      each owned row occurs as often as in the table. */
  lemma ByPluginInTableOrder(a: seq<ChildBridge>, b: seq<ChildBridge>, pluginName: string, row: ChildBridge)
    ensures ByPlugin(a + b, pluginName) == ByPlugin(a, pluginName) + ByPlugin(b, pluginName)
    ensures multiset(ByPlugin(a, pluginName))[row]
         == if row.plugin == Some(pluginName) then multiset(a)[row] else 0
  {
    FilterAppend(a, b, OwnedBy(pluginName));
    FilterCount(a, OwnedBy(pluginName), row);
  }

  /** `rows.some(x => !x.paired)`: some row is not (known to be) paired. */
  function AnyUnpaired(rows: seq<ChildBridge>): (r: bool)
    ensures r <==> exists row :: row in rows && !Truthy(row.paired)
  {
    Any(rows, (row: ChildBridge) => !Truthy(row.paired))
  }

  /** A fresh table receives a complete row, then a partial update that
      only flips `paired`: the row keeps every other property. */
  lemma PartialUpdateScenario()
    ensures
      var first := ChildBridge("u1", None, None, Some("x"), None, None, None, Some("ok"), Some(true), None);
      var update := ChildBridge("u1", None, None, None, None, None, None, None, Some(false), None);
      && Upsert([], first) == [first]
      && Upsert(Upsert([], first), update) == [first.(paired := Some(false))]
  {
  }
}
