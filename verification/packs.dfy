/**
 The index side of `referenced-packs`: counting the blobs the index lists,
 and projecting a set of used blobs onto the packs that hold them. A pack
 is referenced as soon as one of the blobs stored in it is used.
 */
module Packs {
  import opened Blobs

  /** Number of blobs the index lists, summed pack by pack. */
  function EntryCount(packs: seq<Pack>): nat {
    if packs == [] then 0
    else EntryCount(packs[..|packs| - 1]) + |packs[|packs| - 1].entries|
  }

  /** The count of a concatenation is the sum of the counts: the count does
      not depend on how the index splits its pack list. */
  lemma {:induction false} EntryCountAppend(a: seq<Pack>, b: seq<Pack>)
    ensures EntryCount(a + b) == EntryCount(a) + EntryCount(b)
    decreases |b|
  {
    if b != [] {
      assert (a + b)[..|a + b| - 1] == a + b[..|b| - 1];
      EntryCountAppend(a, b[..|b| - 1]);
    } else {
      assert a + b == a;
    }
  }

  /** Every pack's blobs are part of the count. */
  lemma {:induction false} EntryCountCoversPack(packs: seq<Pack>, k: nat)
    requires k < |packs|
    ensures |packs[k].entries| <= EntryCount(packs)
    decreases |packs|
  {
    if k < |packs| - 1 {
      EntryCountCoversPack(packs[..|packs| - 1], k);
    }
  }

  /** The counting loop over the index's packs. */
  method CountBlobs(packs: seq<Pack>) returns (blobs: nat)
    ensures blobs == EntryCount(packs)
  {
    blobs := 0;
    for i := 0 to |packs|
      invariant blobs == EntryCount(packs[..i])
    {
      assert packs[..i + 1][..i] == packs[..i];
      blobs := blobs + |packs[i].entries|;
    }
    assert packs[..|packs|] == packs;
  }

  /** Some entry, taken as an (identifier, type) handle, is used. */
  predicate HasUsedEntry(used: set<BlobHandle>, entries: seq<Entry>) {
    exists i :: 0 <= i < |entries| && entries[i].Handle() in used
  }

  /** The identifiers of the packs holding at least one used blob. */
  function LivePacks(used: set<BlobHandle>, packs: seq<Pack>): (r: set<ID>)
    ensures forall id :: id in r <==>
      exists k :: 0 <= k < |packs| && packs[k].id == id && HasUsedEntry(used, packs[k].entries)
  {
    if packs == [] then {}
    else
      var p := packs[|packs| - 1];
      var earlier := LivePacks(used, packs[..|packs| - 1]);
      if HasUsedEntry(used, p.entries) then earlier + {p.id} else earlier
  }

  /** The projection of a concatenation is the union of the projections;
      so neither the order of the index's packs nor a pack listed twice
      changes the result. */
  lemma {:induction false} LivePacksAppend(used: set<BlobHandle>, a: seq<Pack>, b: seq<Pack>)
    ensures LivePacks(used, a + b) == LivePacks(used, a) + LivePacks(used, b)
    decreases |b|
  {
    if b != [] {
      assert (a + b)[..|a + b| - 1] == a + b[..|b| - 1];
      LivePacksAppend(used, a, b[..|b| - 1]);
    } else {
      assert a + b == a;
    }
  }

  /** A pack with several used blobs is still recorded once: there are never
      more referenced packs than packs. */
  lemma {:induction false} LivePacksBound(used: set<BlobHandle>, packs: seq<Pack>)
    ensures |LivePacks(used, packs)| <= |packs|
  {
    if packs != [] {
      LivePacksBound(used, packs[..|packs| - 1]);
    }
  }

  /** More used blobs can only keep more packs alive. */
  lemma LivePacksMonotone(used: set<BlobHandle>, used': set<BlobHandle>, packs: seq<Pack>)
    requires used <= used'
    ensures LivePacks(used, packs) <= LivePacks(used', packs)
  {
    forall id | id in LivePacks(used, packs)
      ensures id in LivePacks(used', packs)
    {
      var k :| 0 <= k < |packs| && packs[k].id == id && HasUsedEntry(used, packs[k].entries);
      var i :| 0 <= i < |packs[k].entries| && packs[k].entries[i].Handle() in used;
      assert packs[k].entries[i].Handle() in used';
    }
  }

  /** Nothing used, nothing referenced. */
  lemma LivePacksNoneUsed(packs: seq<Pack>)
    ensures LivePacks({}, packs) == {}
  {
  }

  /** The type is part of the handle: a pack of data blobs is not kept alive
      by used trees, even when a tree's identifier equals one of its blobs'. */
  lemma TypeSeparatesHandles(used: set<BlobHandle>, p: Pack)
    requires forall h :: h in used ==> h.typ == TreeBlob
    requires forall i :: 0 <= i < |p.entries| ==> p.entries[i].typ == DataBlob
    ensures LivePacks(used, [p]) == {}
  {
  }

  /** The nested loop over the index's packs and their entries. */
  method ProjectPacks(used: set<BlobHandle>, packs: seq<Pack>) returns (packIds: set<ID>)
    ensures packIds == LivePacks(used, packs)
  {
    packIds := {};
    for i := 0 to |packs|
      invariant packIds == LivePacks(used, packs[..i])
    {
      var pack := packs[i];
      assert packs[..i + 1][..i] == packs[..i];
      for j := 0 to |pack.entries|
        invariant packIds == LivePacks(used, packs[..i])
                             + (if HasUsedEntry(used, pack.entries[..j]) then {pack.id} else {})
      {
        var blob := pack.entries[j];
        var h := BlobHandle(blob.id, blob.typ);
        assert pack.entries[..j + 1][j] == blob;
        if h in used {
          packIds := packIds + {pack.id};
        } else if HasUsedEntry(used, pack.entries[..j + 1]) {
          var k :| 0 <= k < j + 1 && pack.entries[..j + 1][k].Handle() in used;
          assert pack.entries[..j][k] == pack.entries[..j + 1][k];
        }
      }
      assert pack.entries[..|pack.entries|] == pack.entries;
    }
    assert packs[..|packs|] == packs;
  }
}
