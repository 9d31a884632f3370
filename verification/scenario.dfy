/**
 A worked example: three packs and two snapshots. The first snapshot's
 root lists a subtree and a file; the subtree lists a second file. The
 second snapshot's root lists only the same subtree. Pack A holds both
 root trees and the first file, pack B the subtree and the second file,
 pack C a blob no tree refers to. The first snapshot alone references
 packs A and B; adding the second leaves the answer unchanged.
 */
module Scenario {
  import opened Wrappers
  import opened Blobs
  import opened Trees
  import opened FindUsed
  import opened Packs
  import opened ReferencedPacks

  function Digest(b: bv8): ID {
    seq(IdSize, _ => b)
  }

  const RootTree: ID := Digest(1)
  const SubTree: ID := Digest(2)
  const FileBlob1: ID := Digest(3)
  const FileBlob2: ID := Digest(4)
  const Unreferenced: ID := Digest(9)
  const PackA: ID := Digest(10)
  const PackB: ID := Digest(11)
  const PackC: ID := Digest(12)
  const OtherRoot: ID := Digest(5)

  lemma DigestInjective(a: bv8, b: bv8)
    requires a != b
    ensures Digest(a) != Digest(b)
  {
    assert Digest(a)[0] != Digest(b)[0];
  }

  function ExampleRepo(): Repo {
    map[RootTree := [Dir(SubTree), File([FileBlob1])],
        SubTree := [File([FileBlob2])],
        OtherRoot := [Dir(SubTree)]]
  }

  function ExamplePacks(): seq<Pack> {
    [Pack(PackA, [Entry(RootTree, TreeBlob, 0, 100), Entry(FileBlob1, DataBlob, 100, 50),
                  Entry(OtherRoot, TreeBlob, 150, 30)]),
     Pack(PackB, [Entry(SubTree, TreeBlob, 0, 80), Entry(FileBlob2, DataBlob, 80, 60)]),
     Pack(PackC, [Entry(Unreferenced, DataBlob, 0, 40)])]
  }

  /** The blobs the snapshot rooted at `RootTree` uses. */
  function ExampleUsed(): set<BlobHandle> {
    {TreeHandle(RootTree), TreeHandle(SubTree), DataHandle(FileBlob1), DataHandle(FileBlob2)}
  }

  lemma DistinctIds()
    ensures RootTree != SubTree && RootTree != OtherRoot && SubTree != OtherRoot
    ensures Unreferenced !in {RootTree, SubTree, FileBlob1, FileBlob2}
    ensures PackA != PackB && PackA != PackC && PackB != PackC
  {
    DigestInjective(1, 2);
    DigestInjective(1, 5);
    DigestInjective(2, 5);
    DigestInjective(9, 1);
    DigestInjective(9, 2);
    DigestInjective(9, 3);
    DigestInjective(9, 4);
    DigestInjective(10, 11);
    DigestInjective(10, 12);
    DigestInjective(11, 12);
  }

  const R: BlobHandle := TreeHandle(RootTree)
  const S: BlobHandle := TreeHandle(SubTree)
  const M0: Marks := Marks({R}, {R})
  const M1: Marks := Marks({R, S}, {R, S})
  const M2: Marks := Marks({R, S, DataHandle(FileBlob1)}, {R, S})
  const M3: Marks := Marks(ExampleUsed(), {R, S})

  lemma RepoLookups()
    ensures RootTree in ExampleRepo() && ExampleRepo()[RootTree] == [Dir(SubTree), File([FileBlob1])]
    ensures SubTree in ExampleRepo() && ExampleRepo()[SubTree] == [File([FileBlob2])]
    ensures OtherRoot in ExampleRepo() && ExampleRepo()[OtherRoot] == [Dir(SubTree)]
  {
    DistinctIds();
  }

  lemma ExpandRoot()
    ensures Expand([Dir(SubTree), File([FileBlob1])], M0) == Step(M2, [SubTree])
  {
    DistinctIds();
    assert (set c | c in [FileBlob1] :: DataHandle(c)) == {DataHandle(FileBlob1)};
    assert ExpandNode(Dir(SubTree), M0) == Step(M1, [SubTree]);
    assert Expand([File([FileBlob1])], M1) == Step(M2, []);
  }

  lemma ExpandSub()
    ensures Expand([File([FileBlob2])], M2) == Step(M3, [])
  {
    assert (set c | c in [FileBlob2] :: DataHandle(c)) == {DataHandle(FileBlob2)};
    assert ExpandNode(File([FileBlob2]), M2) == Step(M3, []);
  }

  lemma DrainExample()
    ensures Drain(ExampleRepo(), [RootTree], M0) == Success(M3)
  {
    RepoLookups();
    ExpandRoot();
    ExpandSub();
    var repo := ExampleRepo();
    assert [SubTree][1..] + [] == [];
    assert Drain(repo, [SubTree], M2) == Success(M3);
    assert [RootTree][1..] + [SubTree] == [SubTree];
  }

  /** The marking of the snapshot rooted at `RootTree`. */
  lemma ExampleMarks()
    ensures Accumulate(ExampleRepo(), [RootTree]) == Success(M3)
  {
    DrainExample();
    assert Marks({} + {R}, {} + {R}) == M0;
    assert FindUsedBlobs(ExampleRepo(), RootTree, Marks({}, {})) == Success(M3);
    assert [RootTree][..0] == [];
  }

  /** The snapshot rooted at `RootTree` references packs A and B, not C. */
  lemma ExampleReferencedPacks()
    ensures Referenced(ExampleRepo(), ExamplePacks(), [RootTree]) == Success({PackA, PackB})
  {
    DistinctIds();
    ExampleMarks();
    var packs := ExamplePacks();
    var live := LivePacks(ExampleUsed(), packs);
    assert packs[0].entries[0].Handle() in ExampleUsed();
    assert packs[1].entries[0].Handle() in ExampleUsed();
    assert !HasUsedEntry(ExampleUsed(), packs[2].entries);
    assert live == {PackA, PackB};
  }

  const O: BlobHandle := TreeHandle(OtherRoot)
  const M4: Marks := Marks(ExampleUsed() + {O}, {R, S, O})

  lemma DrainOther()
    ensures Drain(ExampleRepo(), [OtherRoot], M4) == Success(M4)
  {
    RepoLookups();
    assert ExpandNode(Dir(SubTree), M4) == Step(M4, []);
    assert Expand([Dir(SubTree)], M4) == Step(M4, []);
    assert [OtherRoot][1..] + [] == [];
  }

  /** The second snapshot's root is marked; nothing below it is new. */
  lemma SharedMarks()
    ensures Accumulate(ExampleRepo(), [RootTree, OtherRoot]) == Success(M4)
  {
    DistinctIds();
    ExampleMarks();
    DrainOther();
    assert [RootTree, OtherRoot][..1] == [RootTree];
    assert O !in M3.seen;
    assert Marks(M3.used + {O}, M3.seen + {O}) == M4;
  }

  /** A second snapshot sharing the subtree leaves the referenced packs
      unchanged: pack B is reported once. */
  lemma SharedSubtreeCountedOnce()
    ensures Referenced(ExampleRepo(), ExamplePacks(), [RootTree, OtherRoot]) == Success({PackA, PackB})
  {
    DistinctIds();
    SharedMarks();
    var packs := ExamplePacks();
    assert packs[0].entries[0].Handle() in M4.used;
    assert packs[1].entries[0].Handle() in M4.used;
    assert !HasUsedEntry(M4.used, packs[2].entries);
    assert LivePacks(M4.used, packs) == {PackA, PackB};
  }
}
