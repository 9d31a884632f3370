/**
 The traversal behind `restic.FindUsedBlobs`, called once per snapshot with
 two sets shared across snapshots: `used`, every blob found to be in use,
 and `seen`, the trees already scheduled for expansion. A subtree is
 scheduled only when it is not yet seen, and expanding a tree schedules no
 subtree twice; data blobs are leaves and go into `used` only. The
 traversal is written as a worklist of trees still to expand.
 */
module FindUsed {
  import opened Wrappers
  import opened Blobs
  import opened Trees

  /** The two shared sets. */
  datatype Marks = Marks(used: set<BlobHandle>, seen: set<BlobHandle>)

  /** What expanding (part of) one tree did: the new sets, and the trees
      it scheduled for expansion, in scheduling order. */
  datatype Step = Step(marks: Marks, pushed: seq<ID>)

  /** A tree could not be loaded: the only way the traversal fails. */
  datatype Error = TreeNotFound(id: ID)

  /** Both sets only gain members from `m` to `m'`. */
  predicate Grows(m: Marks, m': Marks) {
    m.used <= m'.used && m.seen <= m'.seen
  }

  /** Process one node of a tree being expanded: record the content blobs
      of a file; record and schedule a subtree that is not yet seen. */
  function ExpandNode(n: Node, m: Marks): (s: Step)
    ensures Grows(m, s.marks)
    ensures forall h :: h in NodeRefs(n) ==> h in s.marks.used || (h.typ == TreeBlob && h in m.seen)
    ensures forall h :: h in NodeRefs(n) && h.typ == TreeBlob ==> h in s.marks.seen
    ensures s.marks.used <= m.used + NodeRefs(n)
    ensures s.marks.seen <= m.seen + NodeRefs(n)
    ensures forall h :: h in s.marks.seen && h !in m.seen ==> h in s.marks.used
    ensures forall h :: h in s.marks.seen && h !in m.seen ==> h.typ == TreeBlob && h.id in s.pushed
    ensures forall x :: x in s.pushed ==> TreeHandle(x) in s.marks.seen && TreeHandle(x) !in m.seen
    ensures forall i, j :: 0 <= i < j < |s.pushed| ==> s.pushed[i] != s.pushed[j]
  {
    match n
    case File(content) =>
      Step(Marks(m.used + set c | c in content :: DataHandle(c), m.seen), [])
    case Dir(sub) =>
      var h := TreeHandle(sub);
      if h in m.seen then Step(m, [])
      else Step(Marks(m.used + {h}, m.seen + {h}), [sub])
  }

  /** Process the nodes of one tree in listing order. Afterwards every blob
      the tree refers to is used and every subtree it refers to is seen;
      nothing else was added, and exactly the newly seen subtrees were
      scheduled. */
  function Expand(nodes: Tree, m: Marks): (s: Step)
    ensures Grows(m, s.marks)
    ensures forall h :: h in Refs(nodes) ==> h in s.marks.used || (h.typ == TreeBlob && h in m.seen)
    ensures forall h :: h in Refs(nodes) && h.typ == TreeBlob ==> h in s.marks.seen
    ensures s.marks.used <= m.used + Refs(nodes)
    ensures s.marks.seen <= m.seen + Refs(nodes)
    ensures forall h :: h in s.marks.seen && h !in m.seen ==> h in s.marks.used
    ensures forall h :: h in s.marks.seen && h !in m.seen ==> h.typ == TreeBlob && h.id in s.pushed
    ensures forall x :: x in s.pushed ==> TreeHandle(x) in s.marks.seen && TreeHandle(x) !in m.seen
    ensures forall i, j :: 0 <= i < j < |s.pushed| ==> s.pushed[i] != s.pushed[j]
  {
    if nodes == [] then Step(m, [])
    else
      var s0 := ExpandNode(nodes[0], m);
      var s1 := Expand(nodes[1..], s0.marks);
      Step(s1.marks, s0.pushed + s1.pushed)
  }

  /** Every blob some stored tree refers to. Each tree the worklist gains is
      one of these, which bounds the traversal. */
  function Universe(repo: Repo): set<BlobHandle> {
    set t, h | t in repo && h in Refs(repo[t]) :: h
  }

  lemma RefsInUniverse(repo: Repo, x: ID)
    requires x in repo
    ensures Refs(repo[x]) <= Universe(repo)
  {
  }

  /** Marking members of a finite universe as seen shrinks the unseen part. */
  lemma UnseenShrinks<T>(u: set<T>, s: set<T>, s': set<T>)
    requires s <= s' && s' - s <= u
    ensures |u - s'| <= |u - s|
    ensures s' != s ==> |u - s'| < |u - s|
  {
    SubsetCard(u - s', u - s);
    if s' != s {
      assert !(s' <= s);
      var x :| x in s' && x !in s;
      SubsetCard(u - s', (u - s) - {x});
    }
  }

  lemma SubsetCard<T>(a: set<T>, b: set<T>)
    requires a <= b
    ensures |a| <= |b|
  {
    assert b == a + (b - a);
  }

  /** Expand the scheduled trees until none is left; fail on the first tree
      the repository cannot load. */
  function Drain(repo: Repo, work: seq<ID>, m: Marks): (r: Result<Marks, Error>)
    ensures r.Success? ==> Grows(m, r.value)
    decreases |Universe(repo) - m.seen|, |work|
  {
    if work == [] then Success(m)
    else if work[0] !in repo then Failure(TreeNotFound(work[0]))
    else
      var s := Expand(repo[work[0]], m);
      RefsInUniverse(repo, work[0]);
      UnseenShrinks(Universe(repo), m.seen, s.marks.seen);
      assert s.pushed != [] ==> TreeHandle(s.pushed[0]) in s.marks.seen - m.seen;
      Drain(repo, work[1..] + s.pushed, s.marks)
  }

  /** Mark everything the tree `root` uses; a root already seen has been
      marked by an earlier call and is skipped. */
  function FindUsedBlobs(repo: Repo, root: ID, m: Marks): (r: Result<Marks, Error>)
    ensures r.Success? ==> Grows(m, r.value) && TreeHandle(root) in r.value.seen
  {
    var h := TreeHandle(root);
    if h in m.seen then Success(m)
    else Drain(repo, [root], Marks(m.used + {h}, m.seen + {h}))
  }

  /** Tree `id` has been expanded under `m`: it is stored, and all it refers
      to is used, its subtrees seen. */
  predicate Expanded(repo: Repo, m: Marks, id: ID) {
    && id in repo
    && Refs(repo[id]) <= m.used
    && forall h :: h in Refs(repo[id]) && h.typ == TreeBlob ==> h in m.seen
  }

  /** The traversal's invariant: scheduled trees are seen, and every seen
      tree is used and either still scheduled or already expanded. */
  predicate Pending(repo: Repo, m: Marks, work: seq<ID>) {
    && (forall x :: x in work ==> TreeHandle(x) in m.seen)
    && forall h :: h in m.seen && h.typ == TreeBlob ==>
         h in m.used && (h.id in work || Expanded(repo, m, h.id))
  }

  /** The state between two calls of `FindUsedBlobs`: nothing scheduled. */
  predicate Closed(repo: Repo, m: Marks) {
    Pending(repo, m, [])
  }

  lemma ExpandedGrows(repo: Repo, m: Marks, m': Marks, id: ID)
    requires Expanded(repo, m, id) && Grows(m, m')
    ensures Expanded(repo, m', id)
  {
  }

  /** One round of `Drain` keeps the invariant. */
  lemma {:induction false} DrainStepPending(repo: Repo, work: seq<ID>, m: Marks)
    requires Pending(repo, m, work)
    requires work != [] && work[0] in repo
    ensures Pending(repo, Expand(repo[work[0]], m).marks, work[1..] + Expand(repo[work[0]], m).pushed)
  {
    var x := work[0];
    var s := Expand(repo[x], m);
    var work' := work[1..] + s.pushed;
    forall y | y in work'
      ensures TreeHandle(y) in s.marks.seen
    {
      if y !in s.pushed {
        assert y in work;
      }
    }
    forall h | h in s.marks.seen && h.typ == TreeBlob
      ensures h in s.marks.used && (h.id in work' || Expanded(repo, s.marks, h.id))
    {
      if h !in m.seen {
        assert h in Refs(repo[x]);
        assert h.id in s.pushed;
      } else if h.id == x {
        assert Expanded(repo, s.marks, x);
      } else if h.id in work {
        var i :| 0 <= i < |work| && work[i] == h.id;
        assert work'[i - 1] == h.id;
      } else {
        ExpandedGrows(repo, m, s.marks, h.id);
      }
    }
  }

  /** A successful drain leaves nothing half-expanded. */
  lemma {:induction false} DrainClosed(repo: Repo, work: seq<ID>, m: Marks)
    requires Pending(repo, m, work)
    ensures Drain(repo, work, m).Success? ==> Closed(repo, Drain(repo, work, m).value)
    decreases |Universe(repo) - m.seen|, |work|
  {
    if work != [] && work[0] in repo {
      var s := Expand(repo[work[0]], m);
      RefsInUniverse(repo, work[0]);
      UnseenShrinks(Universe(repo), m.seen, s.marks.seen);
      assert s.pushed != [] ==> TreeHandle(s.pushed[0]) in s.marks.seen - m.seen;
      DrainStepPending(repo, work, m);
      DrainClosed(repo, work[1..] + s.pushed, s.marks);
    }
  }

  /** A blob used by a tree scheduled after expanding `work[0]` is used by
      one of `work`. */
  lemma WorkStepReach(repo: Repo, work: seq<ID>, m: Marks)
    requires work != [] && work[0] in repo
    ensures var s := Expand(repo[work[0]], m);
      forall h :: ReachableFromAny(repo, work[1..] + s.pushed, h) ==> ReachableFromAny(repo, work, h)
  {
    var x := work[0];
    var s := Expand(repo[x], m);
    var work' := work[1..] + s.pushed;
    forall h | ReachableFromAny(repo, work', h)
      ensures ReachableFromAny(repo, work, h)
    {
      var k :| 0 <= k < |work'| && Reachable(repo, work'[k], h);
      if k < |work| - 1 {
        assert work'[k] == work[k + 1];
      } else {
        var y := s.pushed[k - (|work| - 1)];
        assert y in s.pushed && work'[k] == y;
        assert TreeHandle(y) in Refs(repo[x]);
        ReachPrepend(repo, x, y, h);
      }
    }
  }

  /** A drain adds only blobs used by the scheduled trees, and fails only
      on a tree they use that the repository cannot load. */
  lemma {:induction false} DrainSound(repo: Repo, work: seq<ID>, m: Marks)
    ensures var r := Drain(repo, work, m);
      && (r.Success? ==> forall h :: h in r.value.used && h !in m.used ==> ReachableFromAny(repo, work, h))
      && (r.Failure? ==> r.error.id !in repo && ReachableFromAny(repo, work, TreeHandle(r.error.id)))
    decreases |Universe(repo) - m.seen|, |work|
  {
    if work != [] {
      var x := work[0];
      if x !in repo {
        ReachSelf(repo, x);
      } else {
        var s := Expand(repo[x], m);
        var work' := work[1..] + s.pushed;
        RefsInUniverse(repo, x);
        UnseenShrinks(Universe(repo), m.seen, s.marks.seen);
        assert s.pushed != [] ==> TreeHandle(s.pushed[0]) in s.marks.seen - m.seen;
        DrainSound(repo, work', s.marks);
        WorkStepReach(repo, work, m);
        var r := Drain(repo, work', s.marks);
        if r.Success? {
          forall h | h in r.value.used && h !in m.used
            ensures ReachableFromAny(repo, work, h)
          {
            if h in s.marks.used {
              ReachStep(repo, x, h);
            }
          }
        }
      }
    }
  }

  /** What one call of `FindUsedBlobs` does between two closed states: it
      adds only blobs the snapshot uses, leaves nothing half-expanded, and
      fails only on a tree the snapshot uses that cannot be loaded. */
  lemma FindUsedBlobsSound(repo: Repo, root: ID, m: Marks)
    requires Closed(repo, m)
    ensures var r := FindUsedBlobs(repo, root, m);
      && (r.Success? ==> Closed(repo, r.value))
      && (r.Success? ==> forall h :: h in r.value.used && h !in m.used ==> Reachable(repo, root, h))
      && (r.Failure? ==> r.error.id !in repo && Reachable(repo, root, TreeHandle(r.error.id)))
  {
    var h := TreeHandle(root);
    if h !in m.seen {
      var m0 := Marks(m.used + {h}, m.seen + {h});
      assert Pending(repo, m0, [root]) by {
        forall g | g in m0.seen && g.typ == TreeBlob
          ensures g in m0.used && (g.id in [root] || Expanded(repo, m0, g.id))
        {
          if g != h {
            ExpandedGrows(repo, m, m0, g.id);
          }
        }
      }
      DrainClosed(repo, [root], m0);
      DrainSound(repo, [root], m0);
      ReachSelf(repo, root);
    }
  }

  /** Completeness of a closed state: everything a seen tree uses is used,
      and every tree it uses is seen and stored. */
  lemma {:induction false} ClosedComplete(repo: Repo, m: Marks, root: ID, h: BlobHandle)
    requires Closed(repo, m) && TreeHandle(root) in m.seen
    requires Reachable(repo, root, h)
    ensures h in m.used
    ensures h.typ == TreeBlob ==> h in m.seen && h.id in repo
  {
    var p :| IsPath(repo, p) && p[0] == TreeHandle(root) && p[|p| - 1] == h;
    PathMarked(repo, m, p, |p| - 1);
  }

  lemma {:induction false} PathMarked(repo: Repo, m: Marks, p: seq<BlobHandle>, k: nat)
    requires Closed(repo, m) && IsPath(repo, p) && p[0] in m.seen && p[0].typ == TreeBlob
    requires k < |p|
    ensures p[k] in m.used
    ensures p[k].typ == TreeBlob ==> p[k] in m.seen && p[k].id in repo
  {
    if k > 0 {
      PathMarked(repo, m, p, k - 1);
      assert Edge(repo, p[k - 1], p[k]);
    }
  }
}
