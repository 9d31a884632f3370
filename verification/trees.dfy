/**
 Directory trees as the repository stores them, and reachability over the
 blob graph they form. A snapshot names one root tree; a tree lists nodes;
 a file node names the data blobs of its content, a directory node names
 the tree of its subdirectory. Trees are shared between directories and
 between snapshots, so the graph is a DAG and not a tree.
 */
module Trees {
  import opened Blobs

  /** One entry of a directory listing. */
  datatype Node = File(content: seq<ID>) | Dir(subtree: ID)

  /** A decoded tree blob: its nodes in listing order. */
  type Tree = seq<Node>

  /** The trees the repository can load, by identifier. An identifier that
      is not a key cannot be loaded. */
  type Repo = map<ID, Tree>

  /** The blobs one node refers to. */
  function NodeRefs(n: Node): set<BlobHandle> {
    match n
    case File(content) => set c | c in content :: DataHandle(c)
    case Dir(sub) => {TreeHandle(sub)}
  }

  /** The blobs a tree refers to directly. */
  function Refs(nodes: Tree): set<BlobHandle> {
    if nodes == [] then {} else NodeRefs(nodes[0]) + Refs(nodes[1..])
  }

  /** An edge of the blob graph: a stored tree refers to a blob. Data blobs
      and trees the repository cannot load have no outgoing edges. */
  ghost predicate Edge(repo: Repo, a: BlobHandle, b: BlobHandle) {
    a.typ == TreeBlob && a.id in repo && b in Refs(repo[a.id])
  }

  ghost predicate IsPath(repo: Repo, p: seq<BlobHandle>) {
    |p| > 0 && forall k :: 0 <= k < |p| - 1 ==> Edge(repo, p[k], p[k + 1])
  }

  /** `h` is used by the snapshot whose root tree is `root`. */
  ghost predicate Reachable(repo: Repo, root: ID, h: BlobHandle) {
    exists p :: IsPath(repo, p) && p[0] == TreeHandle(root) && p[|p| - 1] == h
  }

  /** `h` is used by at least one of the snapshots with the given roots. */
  ghost predicate ReachableFromAny(repo: Repo, roots: seq<ID>, h: BlobHandle) {
    exists k :: 0 <= k < |roots| && Reachable(repo, roots[k], h)
  }

  /** Every tree the snapshots use can be loaded from the repository. */
  ghost predicate Complete(repo: Repo, roots: seq<ID>) {
    forall h :: ReachableFromAny(repo, roots, h) && h.typ == TreeBlob ==> h.id in repo
  }

  /** A root uses its own tree. */
  lemma ReachSelf(repo: Repo, root: ID)
    ensures Reachable(repo, root, TreeHandle(root))
  {
    var p := [TreeHandle(root)];
    assert IsPath(repo, p);
  }

  /** A stored tree uses every blob it refers to. */
  lemma ReachStep(repo: Repo, x: ID, h: BlobHandle)
    requires x in repo && h in Refs(repo[x])
    ensures Reachable(repo, x, h)
  {
    var p := [TreeHandle(x), h];
    assert Edge(repo, p[0], p[1]);
    assert IsPath(repo, p);
  }

  /** A stored tree uses everything its subtrees use. */
  lemma ReachPrepend(repo: Repo, x: ID, y: ID, h: BlobHandle)
    requires x in repo && TreeHandle(y) in Refs(repo[x])
    requires Reachable(repo, y, h)
    ensures Reachable(repo, x, h)
  {
    var p :| IsPath(repo, p) && p[0] == TreeHandle(y) && p[|p| - 1] == h;
    var q := [TreeHandle(x)] + p;
    forall k | 0 <= k < |q| - 1
      ensures Edge(repo, q[k], q[k + 1])
    {
      if k > 0 {
        assert q[k] == p[k - 1] && q[k + 1] == p[k];
      }
    }
    assert IsPath(repo, q);
  }
}
