/**
 The `referenced-packs` command once the repository is open and its index
 loaded: mark the blobs used by the selected snapshots, sharing the `used`
 and `seen` sets across them, stop at the first snapshot whose trees cannot
 be loaded, and report every pack that holds a used blob.
 */
module ReferencedPacks {
  import opened Wrappers
  import opened Blobs
  import opened Trees
  import opened FindUsed
  import opened Packs

  /** The snapshot loop: `FindUsedBlobs` on each root in order, starting
      from two empty sets and threading them through; the first failure
      ends the loop. */
  function Accumulate(repo: Repo, roots: seq<ID>): (r: Result<Marks, Error>)
    ensures r.Success? ==> forall k :: 0 <= k < |roots| ==> TreeHandle(roots[k]) in r.value.seen
  {
    if roots == [] then Success(Marks({}, {}))
    else
      var m :- Accumulate(repo, roots[..|roots| - 1]);
      FindUsedBlobs(repo, roots[|roots| - 1], m)
  }

  /** The sets are shared and only grow: what the first k snapshots marked
      is still marked after snapshot k + 1. */
  lemma AccumulateGrows(repo: Repo, roots: seq<ID>, k: nat)
    requires k < |roots|
    requires Accumulate(repo, roots[..k + 1]).Success?
    ensures Accumulate(repo, roots[..k]).Success?
    ensures Grows(Accumulate(repo, roots[..k]).value, Accumulate(repo, roots[..k + 1]).value)
  {
    assert roots[..k + 1][..k] == roots[..k];
  }

  /** Once a snapshot fails, the later snapshots are not processed and the
      whole loop ends with that snapshot's error. */
  lemma {:induction false} AccumulateStopsAtFailure(repo: Repo, roots: seq<ID>, k: nat)
    requires k <= |roots|
    requires Accumulate(repo, roots[..k]).Failure?
    ensures Accumulate(repo, roots) == Accumulate(repo, roots[..k])
    decreases |roots| - k
  {
    if k == |roots| {
      assert roots[..k] == roots;
    } else {
      var init := roots[..|roots| - 1];
      assert init[..k] == roots[..k];
      AccumulateStopsAtFailure(repo, init, k);
    }
  }

  /** A snapshot whose root was already marked costs nothing and changes
      nothing: the `seen` guard skips it. */
  lemma RepeatedSnapshotIsSkipped(repo: Repo, roots: seq<ID>, x: ID)
    requires x in roots
    requires Accumulate(repo, roots).Success?
    ensures Accumulate(repo, roots + [x]) == Accumulate(repo, roots)
  {
    assert (roots + [x])[..|roots + [x]| - 1] == roots;
  }

  /** What the loop computes. On success the sets are closed and `used` is
      exactly the set of blobs some snapshot uses; on failure the error
      names a tree some snapshot uses that the repository cannot load. */
  lemma {:induction false} AccumulateCorrect(repo: Repo, roots: seq<ID>)
    ensures var r := Accumulate(repo, roots);
      && (r.Success? ==> Closed(repo, r.value))
      && (r.Success? ==> forall h :: h in r.value.used <==> ReachableFromAny(repo, roots, h))
      && (r.Failure? ==> r.error.id !in repo && ReachableFromAny(repo, roots, TreeHandle(r.error.id)))
  {
    if roots != [] {
      var init := roots[..|roots| - 1];
      var x := roots[|roots| - 1];
      AccumulateCorrect(repo, init);
      var r := Accumulate(repo, roots);
      match Accumulate(repo, init)
      case Failure(e) =>
        EarlierRootsReach(repo, roots);
      case Success(m) =>
        FindUsedBlobsSound(repo, x, m);
        if r.Success? {
          LastRootUsed(repo, roots, m, r.value);
        } else {
          assert Reachable(repo, roots[|roots| - 1], TreeHandle(r.error.id));
        }
    }
  }

  /** A blob used by one of the earlier snapshots is used by one of all. */
  lemma EarlierRootsReach(repo: Repo, roots: seq<ID>)
    requires roots != []
    ensures forall h :: ReachableFromAny(repo, roots[..|roots| - 1], h) ==> ReachableFromAny(repo, roots, h)
  {
    var init := roots[..|roots| - 1];
    forall h | ReachableFromAny(repo, init, h)
      ensures ReachableFromAny(repo, roots, h)
    {
      var k :| 0 <= k < |init| && Reachable(repo, init[k], h);
      assert roots[k] == init[k];
    }
  }

  /** After the last snapshot, `used` is exactly what the snapshots use:
      the earlier blobs came from the earlier snapshots, the new ones from
      the last, and closure gives the converse. */
  lemma LastRootUsed(repo: Repo, roots: seq<ID>, m: Marks, m': Marks)
    requires roots != []
    requires Closed(repo, m')
    requires forall k :: 0 <= k < |roots| ==> TreeHandle(roots[k]) in m'.seen
    requires forall h :: h in m.used <==> ReachableFromAny(repo, roots[..|roots| - 1], h)
    requires forall h :: h in m'.used && h !in m.used ==> Reachable(repo, roots[|roots| - 1], h)
    ensures forall h :: h in m'.used <==> ReachableFromAny(repo, roots, h)
  {
    EarlierRootsReach(repo, roots);
    forall h
      ensures h in m'.used <==> ReachableFromAny(repo, roots, h)
    {
      if h in m'.used && h !in m.used {
        assert Reachable(repo, roots[|roots| - 1], h);
      }
      if ReachableFromAny(repo, roots, h) {
        var k :| 0 <= k < |roots| && Reachable(repo, roots[k], h);
        ClosedComplete(repo, m', roots[k], h);
      }
    }
  }

  /** The loop succeeds exactly when every tree the snapshots use can be
      loaded. */
  lemma AccumulateSucceedsIffComplete(repo: Repo, roots: seq<ID>)
    ensures Accumulate(repo, roots).Success? <==> Complete(repo, roots)
  {
    AccumulateCorrect(repo, roots);
    var r := Accumulate(repo, roots);
    if r.Success? {
      forall h | ReachableFromAny(repo, roots, h) && h.typ == TreeBlob
        ensures h.id in repo
      {
        var k :| 0 <= k < |roots| && Reachable(repo, roots[k], h);
        ClosedComplete(repo, r.value, roots[k], h);
      }
    }
  }

  /** Some blob stored in pack `p` is used by one of the snapshots. */
  ghost predicate PackUsed(repo: Repo, roots: seq<ID>, p: Pack) {
    exists i :: 0 <= i < |p.entries| && ReachableFromAny(repo, roots, p.entries[i].Handle())
  }

  /** The command's result: the referenced packs, or the error that ended
      the snapshot loop (no pack is reported then). */
  function Referenced(repo: Repo, packs: seq<Pack>, roots: seq<ID>): (r: Result<set<ID>, Error>)
    ensures r.Success? <==> Complete(repo, roots)
    ensures r.Success? ==> forall id :: id in r.value <==>
      exists k :: 0 <= k < |packs| && packs[k].id == id && PackUsed(repo, roots, packs[k])
    ensures r.Failure? ==> r.error.id !in repo && ReachableFromAny(repo, roots, TreeHandle(r.error.id))
  {
    AccumulateCorrect(repo, roots);
    AccumulateSucceedsIffComplete(repo, roots);
    match Accumulate(repo, roots)
    case Failure(e) => Failure(e)
    case Success(m) =>
      var ids := LivePacks(m.used, packs);
      assert forall p: Pack :: HasUsedEntry(m.used, p.entries) <==> PackUsed(repo, roots, p);
      Success(ids)
  }

  /** With no snapshot selected nothing is used and no pack is reported. */
  lemma NoSnapshotsNoPacks(repo: Repo, packs: seq<Pack>)
    ensures Referenced(repo, packs, []) == Success({})
  {
    LivePacksNoneUsed(packs);
  }

  /** Selecting more snapshots can only add referenced packs; if the larger
      selection succeeds, so does the smaller. */
  lemma ReferencedMonotone(repo: Repo, packs: seq<Pack>, roots: seq<ID>, roots': seq<ID>)
    requires forall x :: x in roots ==> x in roots'
    requires Referenced(repo, packs, roots').Success?
    ensures Referenced(repo, packs, roots).Success?
    ensures Referenced(repo, packs, roots).value <= Referenced(repo, packs, roots').value
  {
    ReachableFromAnySubset(repo, roots, roots');
  }

  /** The result depends on which snapshots are selected, not on their
      order or repetition. */
  lemma ReferencedOrderIrrelevant(repo: Repo, packs: seq<Pack>, roots: seq<ID>, roots': seq<ID>)
    requires forall x :: x in roots <==> x in roots'
    ensures Referenced(repo, packs, roots).Success? == Referenced(repo, packs, roots').Success?
    ensures Referenced(repo, packs, roots).Success? ==>
      Referenced(repo, packs, roots).value == Referenced(repo, packs, roots').value
  {
    ReachableFromAnySubset(repo, roots, roots');
    ReachableFromAnySubset(repo, roots', roots);
  }

  lemma ReachableFromAnySubset(repo: Repo, roots: seq<ID>, roots': seq<ID>)
    requires forall x :: x in roots ==> x in roots'
    ensures forall h :: ReachableFromAny(repo, roots, h) ==> ReachableFromAny(repo, roots', h)
  {
    forall h | ReachableFromAny(repo, roots, h)
      ensures ReachableFromAny(repo, roots', h)
    {
      var k :| 0 <= k < |roots| && Reachable(repo, roots[k], h);
      assert roots[k] in roots';
      var k' :| 0 <= k' < |roots'| && roots'[k'] == roots[k];
    }
  }

  /** The command body after the index is loaded: the snapshot loop over
      the shared sets, then the projection onto packs. */
  method RunReferencedPacks(repo: Repo, packs: seq<Pack>, roots: seq<ID>) returns (r: Result<set<ID>, Error>)
    ensures r == Referenced(repo, packs, roots)
    ensures r.Success? <==> Complete(repo, roots)
  {
    var marks := Marks({}, {});
    for i := 0 to |roots|
      invariant Accumulate(repo, roots[..i]) == Success(marks)
    {
      assert roots[..i + 1][..i] == roots[..i];
      var step := FindUsedBlobs(repo, roots[i], marks);
      if step.Failure? {
        AccumulateStopsAtFailure(repo, roots, i + 1);
        return Failure(step.error);
      }
      marks := step.value;
    }
    assert roots[..|roots|] == roots;
    var packIds := ProjectPacks(marks.used, packs);
    return Success(packIds);
  }
}
