/** The "reset accessories" dialog: it lists the pairings of known child
    bridges, removes the accessories of one pairing at a time, and on close
    offers to restart the child bridges whose accessories were removed. */
module ResetAccessories {
  import opened Wrappers
  import opened Seqs
  import opened ChildBridges

  /** A pairing record of `GET /server/pairings` (`_id`, `_category`,
      `_main`, `_username`, `displayName`). */
  datatype Pairing = Pairing(id: string, category: string, main: bool, username: string, displayName: string)

  /** The open dialog: the listed pairings, the id whose removal is in
      flight, the ids removed so far, and whether the dialog is still open. */
  datatype Dialog = Dialog(pairings: seq<Pairing>, deleting: Option<string>, deleted: seq<string>, open: bool)

  /** One entry of the restart dialog's `bridges` input. */
  datatype BridgeRef = BridgeRef(displayName: string, username: string)

  /** What closing the dialog leads to: no restart dialog, or one whose
      `bridges` were assigned (`Some`) or whose assignment threw on a pairing
      that could not be found (`None`). */
  datatype Teardown = NoRestart | Restart(bridges: Option<seq<BridgeRef>>)

  const Initial: Dialog := Dialog([], None, [], true)

  /** The intended selection: a non-main bridge pairing of a known child bridge. */
  ghost predicate Retained(p: Pairing, childBridges: seq<ChildBridge>)
  {
    p.category == "bridge" && !p.main && exists cb :: cb in childBridges && cb.username == p.username
  }

  /** The filter callback of `loadPairings`. */
  function Keep(childBridges: seq<ChildBridge>): Pairing -> bool
  {
    (p: Pairing) => p.category == "bridge" && !p.main
                    && Any(childBridges, (cb: ChildBridge) => cb.username == p.username)
  }

  /** The pairings `loadPairings` keeps, in server order: every retained
      pairing as often as the server lists it, and no other. */
  function RetainedPairings(pairings: seq<Pairing>, childBridges: seq<ChildBridge>): (r: seq<Pairing>)
    ensures forall p :: p in r <==> p in pairings && Retained(p, childBridges)
    ensures forall p :: multiset(r)[p] == if Retained(p, childBridges) then multiset(pairings)[p] else 0
  {
    var r := Filter(pairings, Keep(childBridges));
    assert forall p :: multiset(r)[p] == if Retained(p, childBridges) then multiset(pairings)[p] else 0 by {
      forall p
        ensures multiset(r)[p] == if Retained(p, childBridges) then multiset(pairings)[p] else 0
      {
        FilterCount(pairings, Keep(childBridges), p);
      }
    }
    r
  }

  /** The sort comparator `(_a, b) => b._main ? 1 : -1`: it never reports a
      tie, and it puts `b` first exactly when `b` is a main pairing: `a` is
      never consulted. */
  function PairingOrder(a: Pairing, b: Pairing): (r: int)
    ensures r == 1 || r == -1
    ensures r > 0 <==> b.main
  {
    if b.main then 1 else -1
  }

  /** On the retained pairings the comparator answers -1 in both directions,
      so it is inconsistent and the order the engine leaves is unspecified. */
  lemma RetainedOrderIsArbitrary(pairings: seq<Pairing>, childBridges: seq<ChildBridge>, a: Pairing, b: Pairing)
    requires a in RetainedPairings(pairings, childBridges) && b in RetainedPairings(pairings, childBridges)
    ensures PairingOrder(a, b) == -1 && PairingOrder(b, a) == -1
  {
  }

  /** The engine's `Array.prototype.sort` under an inconsistent comparator:
      some permutation of its input. */
  ghost predicate IsPermuter(arrange: seq<Pairing> -> seq<Pairing>)
  {
    forall s :: multiset(arrange(s)) == multiset(s)
  }

  /** `loadPairings`: `response` is the answer to `GET /server/pairings`,
      `None` when it fails, in which case the pairings are kept and the
      dialog is closed. */
  function LoadPairings(d: Dialog, response: Option<seq<Pairing>>, childBridges: seq<ChildBridge>,
                        arrange: seq<Pairing> -> seq<Pairing>): (r: Dialog)
    requires IsPermuter(arrange)
    ensures response.None? ==> r == d.(open := false)
    ensures response.Some? ==>
              && r == d.(pairings := r.pairings)
              && multiset(r.pairings) == multiset(RetainedPairings(response.value, childBridges))
              && forall p :: p in r.pairings <==> p in response.value && Retained(p, childBridges)
  {
    match response
    case None => d.(open := false)
    case Some(all) =>
      var kept := RetainedPairings(all, childBridges);
      var arranged := arrange(kept);
      assert multiset(arranged) == multiset(kept);
      assert forall p :: p in arranged <==> p in kept by {
        forall p ensures p in arranged <==> p in kept {
          assert p in arranged <==> p in multiset(arranged);
          assert p in kept <==> p in multiset(kept);
        }
      }
      d.(pairings := arranged)
  }

  /** `removeAccessories(id)` up to the request: the id is marked in flight. */
  function BeginRemove(d: Dialog, id: string): (r: Dialog)
    ensures r.deleting == Some(id)
    ensures r.pairings == d.pairings && r.deleted == d.deleted && r.open == d.open
  {
    d.(deleting := Some(id))
  }

  /** The completion of `removeAccessories(id)`. On success the pairings are
      reloaded from `reload`, nothing is in flight any more and `id` is
      recorded as removed; on failure only the in-flight mark is cleared. */
  function FinishRemove(d: Dialog, id: string, succeeded: bool, reload: Option<seq<Pairing>>,
                        childBridges: seq<ChildBridge>, arrange: seq<Pairing> -> seq<Pairing>): (r: Dialog)
    requires IsPermuter(arrange)
    ensures r.deleting.None?
    ensures !succeeded ==> r.pairings == d.pairings && r.deleted == d.deleted && r.open == d.open
    ensures succeeded ==> r.deleted == d.deleted + [id]
    ensures succeeded ==> r.pairings == LoadPairings(d, reload, childBridges, arrange).pairings
    ensures succeeded ==> r.open == (d.open && reload.Some?)
  {
    if succeeded then
      var loaded := LoadPairings(d, reload, childBridges, arrange);
      loaded.(deleting := None, deleted := loaded.deleted + [id])
    else
      d.(deleting := None)
  }

  /** Every listed pairing satisfies the selection rule. */
  ghost predicate ListsRetained(d: Dialog, childBridges: seq<ChildBridge>)
  {
    forall p :: p in d.pairings ==> Retained(p, childBridges)
  }

  /** The selection rule holds of the dialog from the start and through
      every transition. */
  lemma DialogListsOnlyRetained(d: Dialog, id: string, succeeded: bool, response: Option<seq<Pairing>>,
                                childBridges: seq<ChildBridge>, arrange: seq<Pairing> -> seq<Pairing>)
    requires IsPermuter(arrange)
    requires ListsRetained(d, childBridges)
    ensures ListsRetained(Initial, childBridges)
    ensures ListsRetained(LoadPairings(d, response, childBridges, arrange), childBridges)
    ensures ListsRetained(BeginRemove(d, id), childBridges)
    ensures ListsRetained(FinishRemove(d, id, succeeded, response, childBridges, arrange), childBridges)
  {
  }

  /** `pairings.find(pairing => pairing._id === id)`. */
  function FindById(pairings: seq<Pairing>, id: string): (r: Option<Pairing>)
    ensures r.Some? ==> r.value in pairings && r.value.id == id
    ensures r.None? <==> forall p :: p in pairings ==> p.id != id
  {
    if |pairings| == 0 then None
    else if pairings[0].id == id then Some(pairings[0])
    else FindById(pairings[1..], id)
  }

  /** The pairing found is the first one carrying `id`. */
  lemma {:induction false} FindByIdFirst(pairings: seq<Pairing>, id: string)
    ensures FindById(pairings, id).Some? ==>
              exists i :: 0 <= i < |pairings| && pairings[i] == FindById(pairings, id).value
                          && forall j :: 0 <= j < i ==> pairings[j].id != id
  {
    if |pairings| > 0 && pairings[0].id != id && FindById(pairings, id).Some? {
      var tail := pairings[1..];
      FindByIdFirst(tail, id);
      var i :| 0 <= i < |tail| && tail[i] == FindById(tail, id).value
               && forall j :: 0 <= j < i ==> tail[j].id != id;
      assert pairings[i + 1] == tail[i];
      forall j | 0 <= j < i + 1
        ensures pairings[j].id != id
      {
        if j > 0 { assert pairings[j] == tail[j - 1]; }
      }
    }
  }

  /** The entry the destructuring `{ _username: username, displayName }` builds. */
  function RefOf(p: Pairing): BridgeRef
  {
    BridgeRef(p.displayName, p.username)
  }

  /** `deleted.map(...)`: one entry per id, built from the first pairing
      with that id; `None` when some id has no pairing, where the
      destructuring of `undefined` throws. */
  function BridgesFor(ids: seq<string>, pairings: seq<Pairing>): (r: Option<seq<BridgeRef>>)
    ensures r.Some? ==> |r.value| == |ids|
  {
    if |ids| == 0 then Some([])
    else
      match FindById(pairings, ids[0])
      case None => None
      case Some(p) =>
        match BridgesFor(ids[1..], pairings)
        case None => None
        case Some(rest) => Some([RefOf(p)] + rest)
  }

  /** The list can be built exactly when every id has a pairing. */
  lemma {:induction false} BridgesForDefined(ids: seq<string>, pairings: seq<Pairing>)
    ensures BridgesFor(ids, pairings).Some? <==> forall i :: 0 <= i < |ids| ==> exists p :: p in pairings && p.id == ids[i]
  {
    if |ids| > 0 {
      var tail := ids[1..];
      BridgesForDefined(tail, pairings);
      assert forall i :: 1 <= i < |ids| ==> ids[i] == tail[i - 1];
      if FindById(pairings, ids[0]).Some? && BridgesFor(tail, pairings).None? {
        var k :| 0 <= k < |tail| && !(exists p :: p in pairings && p.id == tail[k]);
        assert tail[k] == ids[k + 1];
      }
    }
  }

  /** When built, entry `i` describes the pairing found for `ids[i]`, in
      the order of `ids`. */
  lemma {:induction false} BridgesForEntries(ids: seq<string>, pairings: seq<Pairing>)
    ensures BridgesFor(ids, pairings).Some? ==>
              forall i :: 0 <= i < |ids| ==>
                && FindById(pairings, ids[i]).Some?
                && BridgesFor(ids, pairings).value[i] == RefOf(FindById(pairings, ids[i]).value)
  {
    if |ids| > 0 && BridgesFor(ids, pairings).Some? {
      var tail := ids[1..];
      BridgesForEntries(tail, pairings);
      assert forall i :: 1 <= i < |ids| ==> ids[i] == tail[i - 1];
    }
  }

  /** `ngOnDestroy`: the restart dialog opens exactly when something was
      removed, and lists the removed bridges in removal order, each built
      from the first pairing `find` returns for its id. */
  function Close(d: Dialog): (r: Teardown)
    ensures r.Restart? <==> |d.deleted| > 0
    ensures r.Restart? && (forall i :: 0 <= i < |d.deleted| ==> exists p :: p in d.pairings && p.id == d.deleted[i]) ==>
              && r.bridges.Some?
              && |r.bridges.value| == |d.deleted|
              && forall i :: 0 <= i < |d.deleted| ==>
                   && FindById(d.pairings, d.deleted[i]).Some?
                   && r.bridges.value[i] == RefOf(FindById(d.pairings, d.deleted[i]).value)
    ensures r.Restart? && (exists i :: 0 <= i < |d.deleted| && forall p :: p in d.pairings ==> p.id != d.deleted[i]) ==>
              r.bridges.None?
  {
    if |d.deleted| > 0 then
      BridgesForDefined(d.deleted, d.pairings);
      BridgesForEntries(d.deleted, d.pairings);
      Restart(BridgesFor(d.deleted, d.pairings))
    else NoRestart
  }

  /** A successful removal leads to the restart dialog on close, and when
      its list could be built the removed bridge is its last entry. When the
      reload fails, the source closes the dialog before it records the
      removal; the statement then assumes the teardown runs after the
      record, an interleaving this model does not order. */
  lemma RemovalOfferedForRestart(d: Dialog, id: string, reload: Option<seq<Pairing>>,
                                 childBridges: seq<ChildBridge>, arrange: seq<Pairing> -> seq<Pairing>)
    requires IsPermuter(arrange)
    ensures var r := FinishRemove(d, id, true, reload, childBridges, arrange);
            && Close(r).Restart?
            && (Close(r).bridges.Some? ==>
                  var bridges := Close(r).bridges.value;
                  |bridges| == |r.deleted|
                  && FindById(r.pairings, id).Some?
                  && bridges[|bridges| - 1] == RefOf(FindById(r.pairings, id).value))
  {
    var r := FinishRemove(d, id, true, reload, childBridges, arrange);
    var last := |r.deleted| - 1;
    assert r.deleted[last] == id;
    var bridges := BridgesFor(r.deleted, r.pairings);
    assert Close(r) == Restart(bridges);
    if bridges.Some? {
      BridgesForEntries(r.deleted, r.pairings);
      var p := FindById(r.pairings, id).value;
      assert bridges.value[last] == RefOf(p);
    }
  }
}
