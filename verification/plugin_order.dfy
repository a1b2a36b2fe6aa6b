/** The ranking of the installed-plugins list: the five-level comparator of
    `loadInstalledPlugins` with a name tie-break, and the sort that applies it. */
module PluginOrder {
  import opened Wrappers
  import opened Js
  import opened LexOrder
  import opened Plugins

  /** The comparator handed to `Array.prototype.sort`. Each level compares
      two flags with `!==` and decides by the truthiness of `a`'s flag;
      `recommend` is the `recommendChildBridges` setting. */
  function Compare(a: Plugin, b: Plugin, recommend: bool): (r: int)
    ensures -1 <= r <= 1
    ensures r == 0 ==> a.name == b.name
  {
    if a.updateAvailable != b.updateAvailable then (if a.updateAvailable then -1 else 1)
    else if a.disabled != b.disabled then (if a.disabled then 1 else -1)
    else if a.isConfigured != b.isConfigured then (if Truthy(a.isConfigured) then 1 else -1)
    else if a.hasChildBridgesUnpaired != b.hasChildBridgesUnpaired then
      (if Truthy(a.hasChildBridgesUnpaired) then -1 else 1)
    else if a.hasChildBridges != b.hasChildBridges && recommend then
      (if Truthy(a.hasChildBridges) then 1 else -1)
    else NameCompare(a.name, b.name)
  }

  /** The flags the comparator looks at are all defined. */
  predicate FlagsDefined(p: Plugin, recommend: bool)
  {
    && p.isConfigured.Some?
    && p.hasChildBridgesUnpaired.Some?
    && (recommend ==> p.hasChildBridges.Some?)
  }

  /** The five comparator levels as numbers; lower sorts first. */
  function RankFlags(p: Plugin, recommend: bool): seq<int>
  {
    [ if p.updateAvailable then 0 else 1,
      if p.disabled then 1 else 0,
      if Truthy(p.isConfigured) then 1 else 0,
      if Truthy(p.hasChildBridgesUnpaired) then 0 else 1,
      if recommend && Truthy(p.hasChildBridges) then 1 else 0 ]
  }

  /** An independent statement of the intended order: a rank key whose
      lexicographic order is the ranking, the levels first, then the name. */
  function Rank(p: Plugin, recommend: bool): seq<int>
  {
    RankFlags(p, recommend) + Codes(p.name)
  }

  /** With defined flags the comparator is exactly the rank-key order. */
  lemma CompareIsRankOrder(a: Plugin, b: Plugin, recommend: bool)
    requires FlagsDefined(a, recommend) && FlagsDefined(b, recommend)
    ensures Compare(a, b, recommend) == LexCompare(Rank(a, recommend), Rank(b, recommend))
  {
    var fa, fb := RankFlags(a, recommend), RankFlags(b, recommend);
    var ca, cb := Codes(a.name), Codes(b.name);
    if a.updateAvailable != b.updateAvailable {
      LexFirstDifference(fa, fb, ca, cb, 0);
    } else if a.disabled != b.disabled {
      assert fa[..1] == fb[..1];
      LexFirstDifference(fa, fb, ca, cb, 1);
    } else if a.isConfigured != b.isConfigured {
      assert a.isConfigured.value != b.isConfigured.value;
      assert fa[..2] == fb[..2];
      LexFirstDifference(fa, fb, ca, cb, 2);
    } else if a.hasChildBridgesUnpaired != b.hasChildBridgesUnpaired {
      assert a.hasChildBridgesUnpaired.value != b.hasChildBridgesUnpaired.value;
      assert fa[..3] == fb[..3];
      LexFirstDifference(fa, fb, ca, cb, 3);
    } else if a.hasChildBridges != b.hasChildBridges && recommend {
      assert a.hasChildBridges.value != b.hasChildBridges.value;
      assert fa[..4] == fb[..4];
      LexFirstDifference(fa, fb, ca, cb, 4);
    } else {
      assert fa == fb;
      LexCommonPrefix(fa, ca, cb);
    }
  }

  /** With defined flags, swapping the arguments negates the comparison. */
  lemma CompareAntisymmetric(a: Plugin, b: Plugin, recommend: bool)
    requires FlagsDefined(a, recommend) && FlagsDefined(b, recommend)
    ensures Compare(a, b, recommend) == -Compare(b, a, recommend)
  {
    CompareIsRankOrder(a, b, recommend);
    CompareIsRankOrder(b, a, recommend);
    LexAntisymmetric(Rank(a, recommend), Rank(b, recommend));
  }

  /** With defined flags, "sorts no later than" is transitive. */
  lemma CompareTransitive(a: Plugin, b: Plugin, c: Plugin, recommend: bool)
    requires FlagsDefined(a, recommend) && FlagsDefined(b, recommend) && FlagsDefined(c, recommend)
    requires Compare(a, b, recommend) <= 0 && Compare(b, c, recommend) <= 0
    ensures Compare(a, c, recommend) <= 0
  {
    CompareIsRankOrder(a, b, recommend);
    CompareIsRankOrder(b, c, recommend);
    CompareIsRankOrder(a, c, recommend);
    LexTransitive(Rank(a, recommend), Rank(b, recommend), Rank(c, recommend));
  }

  /** The cascade, level by level: a plugin sorts first when it has an
      update, else when enabled, else when not configured, else when it has
      an unpaired child bridge, else (only with the setting on) when it has
      no child bridge; otherwise names decide. */
  lemma CompareCascade(a: Plugin, b: Plugin, recommend: bool)
    ensures a.updateAvailable && !b.updateAvailable ==> Compare(a, b, recommend) < 0
    ensures a.updateAvailable == b.updateAvailable && !a.disabled && b.disabled
            ==> Compare(a, b, recommend) < 0
    ensures a.updateAvailable == b.updateAvailable && a.disabled == b.disabled
            && a.isConfigured == Some(false) && b.isConfigured == Some(true)
            ==> Compare(a, b, recommend) < 0
    ensures a.updateAvailable == b.updateAvailable && a.disabled == b.disabled
            && a.isConfigured == b.isConfigured
            && a.hasChildBridgesUnpaired == Some(true) && b.hasChildBridgesUnpaired == Some(false)
            ==> Compare(a, b, recommend) < 0
    ensures a.updateAvailable == b.updateAvailable && a.disabled == b.disabled
            && a.isConfigured == b.isConfigured && a.hasChildBridgesUnpaired == b.hasChildBridgesUnpaired
            && recommend && a.hasChildBridges == Some(false) && b.hasChildBridges == Some(true)
            ==> Compare(a, b, recommend) < 0
    ensures a.updateAvailable == b.updateAvailable && a.disabled == b.disabled
            && a.isConfigured == b.isConfigured && a.hasChildBridgesUnpaired == b.hasChildBridgesUnpaired
            && (!recommend || a.hasChildBridges == b.hasChildBridges)
            ==> Compare(a, b, recommend) == NameCompare(a.name, b.name)
  {
  }

  /** With the setting off, plugins that differ only in `hasChildBridges`
      are ordered by name alone. */
  lemma ChildBridgesIgnoredWhenNotRecommended(a: Plugin, b: Plugin)
    requires b == a.(name := b.name, hasChildBridges := b.hasChildBridges)
    ensures Compare(a, b, false) == NameCompare(a.name, b.name)
  {
  }

  /** The flaw of the `!==` tests: a plugin whose config request failed keeps
      `hasChildBridgesUnpaired` undefined, and against a plugin whose flag is
      `false` both directions of the comparison return 1. */
  lemma UndefinedFlagBreaksAntisymmetry()
    ensures
      var env := Settings(false, false);
      var listed := Plugin("a", Some("1.0.0"), false, false, None, None, None, None, None);
      var loaded := Enrich(listed, Some([ConfigBlock(true, None)]), env, []);
      var failed := Enrich(listed.(name := "b"), None, env, []);
      && Compare(loaded, failed, false) == 1
      && Compare(failed, loaded, false) == 1
  {
  }

  /** Sorted by the comparator: no pair out of order. */
  ghost predicate Sorted(s: seq<Plugin>, recommend: bool)
  {
    forall i, j :: 0 <= i < j < |s| ==> Compare(s[i], s[j], recommend) <= 0
  }

  /** Insert `x` before the first element it does not sort after. */
  function Insert(x: Plugin, s: seq<Plugin>, recommend: bool): (r: seq<Plugin>)
    ensures multiset(r) == multiset(s) + multiset{x}
  {
    if |s| == 0 then [x]
    else if Compare(x, s[0], recommend) <= 0 then [x] + s
    else
      assert s == [s[0]] + s[1..];
      [s[0]] + Insert(x, s[1..], recommend)
  }

  /** `Array.prototype.sort` with the comparator, as a stable insertion sort. */
  function SortPlugins(s: seq<Plugin>, recommend: bool): (r: seq<Plugin>)
    ensures multiset(r) == multiset(s)
  {
    if |s| == 0 then []
    else
      assert s == [s[0]] + s[1..];
      Insert(s[0], SortPlugins(s[1..], recommend), recommend)
  }

  lemma {:induction false} InsertSorted(x: Plugin, s: seq<Plugin>, recommend: bool)
    requires Sorted(s, recommend)
    requires FlagsDefined(x, recommend)
    requires forall i :: 0 <= i < |s| ==> FlagsDefined(s[i], recommend)
    ensures Sorted(Insert(x, s, recommend), recommend)
  {
    if |s| == 0 {
    } else if Compare(x, s[0], recommend) <= 0 {
      var r := [x] + s;
      forall i, j | 0 <= i < j < |r|
        ensures Compare(r[i], r[j], recommend) <= 0
      {
        if i == 0 && j > 1 {
          CompareTransitive(x, s[0], s[j - 1], recommend);
        }
      }
    } else {
      CompareAntisymmetric(x, s[0], recommend);
      var tail := Insert(x, s[1..], recommend);
      InsertSorted(x, s[1..], recommend);
      var r := [s[0]] + tail;
      forall i, j | 0 <= i < j < |r|
        ensures Compare(r[i], r[j], recommend) <= 0
      {
        if i == 0 {
          assert r[j] in multiset(tail);
          assert r[j] == x || r[j] in s[1..];
        }
      }
    }
  }

  /** With every flag defined, the sort's output is sorted. */
  lemma {:induction false} SortPluginsSorted(s: seq<Plugin>, recommend: bool)
    requires forall i :: 0 <= i < |s| ==> FlagsDefined(s[i], recommend)
    ensures Sorted(SortPlugins(s, recommend), recommend)
  {
    if |s| > 0 {
      var rest := SortPlugins(s[1..], recommend);
      SortPluginsSorted(s[1..], recommend);
      forall i | 0 <= i < |rest|
        ensures FlagsDefined(rest[i], recommend)
      {
        assert rest[i] in multiset(s[1..]);
      }
      InsertSorted(s[0], rest, recommend);
    }
  }
}
