/** The split-point search of `merge`: a breadth-first walk up the commit
    graph from both branch tips, stopping at the first parent it has already
    discovered, and the three outcomes the caller acts on. */
module SplitPoint {
  import opened Objects
  import opened Branches
  import opened Repo
  import opened Tracking
  import opened Checkout

  const SAME_COMMIT: string := "Well even Prof. Hilfinger didn't expect this."
  const GIVEN_IS_ANCESTOR: string := "Given branch is an ancestor of the current branch."
  const FAST_FORWARDED: string := "Current branch fast-forwarded."

  /** A fringe entry: a commit UID, and whether this entry was discovered
      from the current branch's tip. Commits are Java objects compared by
      identity in that set, so the mark belongs to the entry, not the UID. */
  datatype FringeEntry = FringeEntry(id: string, inCurrent: bool)

  /** `parent` is the first or second parent of the stored commit `child`. */
  ghost predicate ParentLink(commits: map<string, Commit>, child: string, parent: string) {
    child in commits &&
    ((commits[child].parent1.Some? && Truncate(commits[child].parent1.value) == parent) ||
     (commits[child].parent2.Some? && Truncate(commits[child].parent2.value) == parent))
  }

  /** A non-empty path that follows parent links. */
  ghost predicate IsChain(commits: map<string, Commit>, p: seq<string>) {
    |p| > 0 && forall k :: 0 <= k < |p| - 1 ==> ParentLink(commits, p[k], p[k + 1])
  }

  /** `to` is `from` or one of its ancestors. */
  ghost predicate Reaches(commits: map<string, Commit>, from: string, to: string) {
    exists p :: IsChain(commits, p) && p[0] == from && p[|p| - 1] == to
  }

  /** A commit reaches itself. */
  lemma ReachesSelf(commits: map<string, Commit>, id: string)
    ensures Reaches(commits, id, id)
  {
    assert IsChain(commits, [id]);
  }

  /** Following one more parent link keeps a commit reachable. */
  lemma ReachesStep(commits: map<string, Commit>, from: string, mid: string, to: string)
    requires Reaches(commits, from, mid) && ParentLink(commits, mid, to)
    ensures Reaches(commits, from, to)
  {
    var p :| IsChain(commits, p) && p[0] == from && p[|p| - 1] == mid;
    var q := p + [to];
    forall k | 0 <= k < |q| - 1
      ensures ParentLink(commits, q[k], q[k + 1])
    {
      if k < |p| - 1 {
        assert q[k] == p[k] && q[k + 1] == p[k + 1];
      }
    }
    assert IsChain(commits, q);
  }

  /** A subset is no larger than its superset. */
  lemma {:induction false} SubsetCard(a: set<string>, b: set<string>)
    requires a <= b
    ensures |a| <= |b|
    decreases |b|
  {
    if a != {} {
      var x :| x in a;
      SubsetCard(a - {x}, b - {x});
    }
  }

  /** A strictly larger part of a set leaves strictly fewer elements out. */
  lemma FewerUnseen(all: set<string>, seen: set<string>, seen': set<string>)
    requires seen <= seen' <= all && seen != seen'
    ensures |all - seen'| < |all - seen|
  {
    assert !(seen' <= seen);
    var x :| x in seen' && x !in seen;
    SubsetCard(all - seen', (all - seen) - {x});
  }

  /** `id` is an ancestor of (or is) one of the two tips. */
  ghost predicate Discovered(commits: map<string, Commit>, cId: string, bId: string, id: string) {
    Reaches(commits, cId, id) || Reaches(commits, bId, id)
  }

  /** What the walk keeps: the discovered set holds both tips and only
      stored ancestors of them, every fringe entry is discovered, and a
      deferred second parent is a stored ancestor not yet discovered. */
  ghost predicate SearchInv(commits: map<string, Commit>, cId: string, bId: string,
                            fringe: seq<FringeEntry>, discovered: set<string>, temp: Option<string>)
  {
    discovered <= commits.Keys &&
    cId in discovered && bId in discovered &&
    (forall d :: d in discovered ==> Discovered(commits, cId, bId, d)) &&
    (forall e :: e in fringe ==> e.id in discovered) &&
    (temp.Some? ==> temp.value in commits && temp.value !in discovered && Discovered(commits, cId, bId, temp.value))
  }

  /** The state of the walk as a value: the queue, the set of discovered
      commits (allAncestors) and the deferred second parent (tempCommit). */
  datatype Walker = Walker(fringe: seq<FringeEntry>, discovered: set<string>, temp: Option<string>)

  /** What makes the walk well founded: parents resolve, every discovered
      commit and every queued entry is stored, and a deferred parent is
      stored and not yet discovered. */
  ghost predicate WalkInv(commits: map<string, Commit>, w: Walker) {
    ParentsClosed(commits) && w.discovered <= commits.Keys &&
    (forall e :: e in w.fringe ==> e.id in w.discovered) &&
    (w.temp.Some? ==> w.temp.value in commits && w.temp.value !in w.discovered)
  }

  /** One turn of the inner loop of getSplitPoint as a function: parent `i`
      of the popped entry `c`, visited in state `w`. The first component is
      the split point when the parent was already discovered. */
  ghost function VisitStep(commits: map<string, Commit>, c: FringeEntry, i: nat, w: Walker): (r: (Option<string>, Walker))
    requires c.id in commits && WalkInv(commits, w)
    ensures r.0.Some? ==> r.0.value in w.discovered && r.1 == w
    ensures r.0.None? ==>
      WalkInv(commits, r.1) && w.discovered <= r.1.discovered &&
      (r.1.discovered == w.discovered ==> r.1.fringe == w.fringe)
  {
    var parent := ParentOf(commits[c.id], i);
    if parent.None? then (None, w)
    else
      var next := Truncate(parent.value);
      if next in w.discovered then (Some(next), w)
      else if w.temp.None? && c.inCurrent && i == 1 then (None, w.(temp := Some(next)))
      else if w.temp.Some? then
        (None, Walker(w.fringe + [FringeEntry(next, c.inCurrent)] + [FringeEntry(w.temp.value, false)],
                      w.discovered + {w.temp.value} + {next}, None))
      else
        (None, Walker(w.fringe + [FringeEntry(next, c.inCurrent)], w.discovered + {next}, None))
  }

  /** The first `n` turns of the inner loop for the popped entry `c`,
      stopping at the first split point. */
  ghost function Visits(commits: map<string, Commit>, c: FringeEntry, n: nat, w: Walker): (r: (Option<string>, Walker))
    requires n <= 2 && c.id in commits && WalkInv(commits, w)
    ensures r.0.Some? ==> r.0.value in commits
    ensures r.0.None? ==>
      WalkInv(commits, r.1) && w.discovered <= r.1.discovered &&
      (r.1.discovered == w.discovered ==> r.1.fringe == w.fringe)
    decreases n
  {
    if n == 0 then (None, w)
    else
      var before := Visits(commits, c, n - 1, w);
      if before.0.Some? then before else VisitStep(commits, c, n - 1, before.1)
  }

  /** The whole walk of getSplitPoint from state `w`: pop the first entry,
      visit its two parents, and go on until a parent was already
      discovered (the split point) or the queue runs dry (no split point). */
  ghost function Walk(commits: map<string, Commit>, w: Walker): (r: Option<string>)
    requires WalkInv(commits, w)
    ensures r.Some? ==> r.value in commits
    decreases |commits.Keys - w.discovered|, |w.fringe|
  {
    if w.fringe == [] then None
    else
      var after := Visits(commits, w.fringe[0], 2, w.(fringe := w.fringe[1..]));
      if after.0.Some? then after.0
      else if after.1.discovered == w.discovered then Walk(commits, after.1)
      else
        FewerUnseen(commits.Keys, w.discovered, after.1.discovered);
        Walk(commits, after.1)
  }

  /** One turn of the outer loop: the walk from a non-empty queue is what
      visiting the first entry's parents finds, or else the walk from the
      state that leaves. */
  lemma WalkPop(commits: map<string, Commit>, w: Walker)
    requires WalkInv(commits, w) && w.fringe != []
    ensures var after := Visits(commits, w.fringe[0], 2, Walker(w.fringe[1..], w.discovered, w.temp));
      Walk(commits, w) == if after.0.Some? then after.0 else Walk(commits, after.1)
  {
  }

  /** The walk's starting state: both tips queued, the current one first,
      both discovered, nothing deferred. */
  function Start(cId: string, bId: string): Walker {
    Walker([FringeEntry(cId, true), FringeEntry(bId, false)], {cId, bId}, None)
  }

  /** The split point the walk of getSplitPoint finds between the tips
      `cId` and `bId`, or None when its queue runs dry. */
  ghost function FoundSplit(commits: map<string, Commit>, cId: string, bId: string): (r: Option<string>)
    requires cId in commits && bId in commits && ParentsClosed(commits)
    ensures r.Some? ==> r.value in commits
  {
    Walk(commits, Start(cId, bId))
  }

  /** One turn of the inner loop of getSplitPoint: parent `i` of the popped
      entry `c`. A parent already discovered is the split point; the second
      parent of an entry from the current tip is deferred when nothing is
      deferred yet; otherwise the parent is enqueued (and the deferred one
      after it) and both are marked discovered. */
  method VisitParent(commits: map<string, Commit>, cId: string, bId: string, c: FringeEntry, i: nat,
                     fringe: seq<FringeEntry>, discovered: set<string>, temp: Option<string>)
    returns (hit: Option<string>, fringe': seq<FringeEntry>, discovered': set<string>, temp': Option<string>)
    requires i < 2 && c.id in discovered && ParentsClosed(commits)
    requires SearchInv(commits, cId, bId, fringe, discovered, temp)
    ensures hit.Some? ==> hit.value in discovered && ParentLink(commits, c.id, hit.value) && discovered' == discovered
    ensures hit.None? ==>
      SearchInv(commits, cId, bId, fringe', discovered', temp') &&
      discovered <= discovered' && (discovered' == discovered ==> fringe' == fringe)
    ensures (hit, Walker(fringe', discovered', temp')) == VisitStep(commits, c, i, Walker(fringe, discovered, temp))
  {
    hit, fringe', discovered', temp' := None, fringe, discovered, temp;
    var parent := ParentOf(commits[c.id], i);
    if parent.Some? {
      var next := Truncate(parent.value);
      assert ParentLink(commits, c.id, next);
      if next in discovered {
        hit := Some(next);
      } else {
        if Reaches(commits, cId, c.id) {
          ReachesStep(commits, cId, c.id, next);
        } else {
          ReachesStep(commits, bId, c.id, next);
        }
        if temp.None? && c.inCurrent && i == 1 {
          temp' := Some(next);
        } else {
          fringe' := fringe' + [FringeEntry(next, c.inCurrent)];
          if temp'.Some? {
            fringe' := fringe' + [FringeEntry(temp'.value, false)];
            discovered' := discovered' + {temp'.value};
            temp' := None;
          }
          discovered' := discovered' + {next};
        }
      }
    }
  }

  /** The inner loop of getSplitPoint for the popped entry `c`: its two
      parents in order, stopping at the first one already discovered, which
      ends the whole walk. */
  method VisitParents(commits: map<string, Commit>, cId: string, bId: string, c: FringeEntry,
                      fringe: seq<FringeEntry>, discovered: set<string>, temp: Option<string>)
    returns (hit: Option<string>, fringe': seq<FringeEntry>, discovered': set<string>, temp': Option<string>)
    requires c.id in discovered && ParentsClosed(commits)
    requires SearchInv(commits, cId, bId, fringe, discovered, temp)
    ensures SearchInv(commits, cId, bId, fringe', discovered', temp')
    ensures hit.Some? ==> hit.value in discovered' && c.id in discovered' && ParentLink(commits, c.id, hit.value)
    ensures hit.None? ==> discovered <= discovered' && (discovered' == discovered ==> fringe' == fringe)
    ensures (hit, Walker(fringe', discovered', temp')) == Visits(commits, c, 2, Walker(fringe, discovered, temp))
  {
    hit, fringe', discovered', temp' := None, fringe, discovered, temp;
    for i := 0 to 2
      invariant SearchInv(commits, cId, bId, fringe', discovered', temp')
      invariant discovered <= discovered' && c.id in discovered'
      invariant discovered' == discovered ==> fringe' == fringe
      invariant hit.None?
      invariant (hit, Walker(fringe', discovered', temp')) == Visits(commits, c, i, Walker(fringe, discovered, temp))
    {
      hit, fringe', discovered', temp' := VisitParent(commits, cId, bId, c, i, fringe', discovered', temp');
      if hit.Some? {
        assert Visits(commits, c, i + 1, Walker(fringe, discovered, temp)) == (hit, Walker(fringe', discovered', temp'));
        return;
      }
    }
  }

  /** The walk of getSplitPoint. Returns the split point found, if any, and
      the set of commits discovered (allAncestors). Every discovered commit
      is an ancestor of one of the tips, and the split point is a discovered
      commit met a second time, as the parent of a discovered commit. */
  method SplitPointSearch(commits: map<string, Commit>, cId: string, bId: string)
    returns (split: Option<string>, discovered: set<string>)
    requires cId in commits && bId in commits
    requires ParentsClosed(commits)
    ensures cId in discovered && bId in discovered
    ensures discovered <= commits.Keys
    ensures forall d :: d in discovered ==> Discovered(commits, cId, bId, d)
    ensures split.Some? ==>
      split.value in discovered &&
      exists x :: x in discovered && ParentLink(commits, x, split.value)
    ensures split == FoundSplit(commits, cId, bId)
  {
    ReachesSelf(commits, cId);
    ReachesSelf(commits, bId);
    var fringe := [FringeEntry(cId, true), FringeEntry(bId, false)];
    discovered := {cId, bId};
    var temp: Option<string> := None;
    split := None;
    while fringe != []
      invariant SearchInv(commits, cId, bId, fringe, discovered, temp)
      invariant split.None?
      invariant Walk(commits, Walker(fringe, discovered, temp)) == FoundSplit(commits, cId, bId)
      decreases |commits.Keys - discovered|, |fringe|
    {
      var c := fringe[0];
      WalkPop(commits, Walker(fringe, discovered, temp));
      ghost var discovered0 := discovered;
      var hit;
      hit, fringe, discovered, temp := VisitParents(commits, cId, bId, c, fringe[1..], discovered, temp);
      if hit.Some? {
        split := hit;
        break;
      }
      if discovered != discovered0 {
        FewerUnseen(commits.Keys, discovered0, discovered);
      }
    }
  }

  /** The fast-forward branch of getSplitPoint: revert the working tree to
      the given tip, then set the head of the branch named `branch` to
      `bHead`. The caller passes the given branch and its own head, so the
      registry comes out as it went in: the current branch's head does not
      move. */
  method FastForward(r: Repository, bId: string, bHead: string, branch: string) returns (status: Status)
    requires r.Valid()
    requires bId in r.commits
    requires Listed(r.branches, branch) && bHead == HeadOf(r.branches, branch) && bId == Truncate(bHead)
    modifies r`work, r`addExists, r`addStage, r`rmExists, r`rmStage, r`branches
    ensures r.Valid()
    ensures r.branches == old(r.branches) && r.commits == old(r.commits) && r.current == old(r.current)
    ensures var headIds := old(r.commits[r.HeadId()].blobIds);
      if Blocked(old(r.work), old(r.addStage), headIds, r.commits[bId].blobIds) then
        status == Failed(UNTRACKED_IN_THE_WAY) && unchanged(r)
      else if BlobsStored(r.blobs, r.commits[bId].blobIds) then
        status == Failed(FAST_FORWARDED) &&
        r.work == Reverted(old(r.work), r.blobs, headIds, r.commits[bId].blobIds) &&
        !r.addExists && !r.rmExists
      else
        status.Crashed?
  {
    status := RevertFileToCommit(r, r.commits[bId]);
    if status == Done {
      RewriteOwnHead(r, branch, bHead);
      status := Failed(FAST_FORWARDED);
    }
  }

  /** updateHeadOfBranch called with a branch's own head: the UID already
      is the bare key of a stored commit, so the registry is rewritten as
      it was. */
  method RewriteOwnHead(r: Repository, branch: string, bHead: string)
    requires r.Valid() && !r.addExists && !r.rmExists
    requires Listed(r.branches, branch) && bHead == HeadOf(r.branches, branch)
    modifies r`branches
    ensures r.Valid()
    ensures r.branches == old(r.branches) && r.commits == old(r.commits) && r.current == old(r.current)
    ensures r.blobs == old(r.blobs) && r.work == old(r.work) && !r.addExists && !r.rmExists
  {
    assert Truncate(bHead) == bHead by {
      assert BranchLine(branch, bHead) in r.branches;
    }
    WithSameHead(r.branches, branch);
    MoveHead(r, branch, bHead);
  }

  /** getSplitPoint: refuses identical tips; when the walk finds the given
      tip, reports that it is an ancestor; when it finds the current tip,
      fast-forwards; otherwise returns the split point. A walk that finds
      nothing leaves Java's null, which getSplitPoint itself hands to
      sameCommit as the split point (MainUtils.java:428); the model reports
      that as a crash. */
  method GetSplitPoint(r: Repository, cId: string, bId: string, bHead: string, branch: string)
    returns (status: Status, split: Option<string>)
    requires r.Valid()
    requires cId in r.commits && bId in r.commits
    requires Listed(r.branches, branch) && bHead == HeadOf(r.branches, branch) && bId == Truncate(bHead)
    modifies r`work, r`addExists, r`addStage, r`rmExists, r`rmStage, r`branches
    ensures r.Valid()
    ensures r.branches == old(r.branches) && r.commits == old(r.commits) && r.current == old(r.current)
    ensures cId == bId <==> status == Failed(SAME_COMMIT)
    ensures status == Failed(SAME_COMMIT) ==> unchanged(r)
    ensures status == Done ==>
      split.Some? && split.value in r.commits && split.value != cId && split.value != bId &&
      Discovered(r.commits, cId, bId, split.value) && unchanged(r)
    ensures status == Failed(GIVEN_IS_ANCESTOR) ==> unchanged(r)
    ensures status == Failed(FAST_FORWARDED) ==>
      BlobsStored(r.blobs, r.commits[bId].blobIds) &&
      r.work == Reverted(old(r.work), r.blobs, old(r.commits[r.HeadId()].blobIds), r.commits[bId].blobIds) &&
      !r.addExists && !r.rmExists
    ensures status.Failed? ==> status.message in {SAME_COMMIT, GIVEN_IS_ANCESTOR, FAST_FORWARDED, UNTRACKED_IN_THE_WAY}
    ensures status == Failed(UNTRACKED_IN_THE_WAY) ==>
      Blocked(old(r.work), old(r.addStage), old(r.commits[r.HeadId()].blobIds), r.commits[bId].blobIds)
    ensures var found := FoundSplit(r.commits, cId, bId);
      cId != bId ==>
        (found == Some(bId) <==> status == Failed(GIVEN_IS_ANCESTOR)) &&
        (found.None? ==> status.Crashed? && unchanged(r)) &&
        (found.Some? && found.value != cId && found.value != bId ==> status == Done && split == found)
    ensures cId != bId && FoundSplit(r.commits, cId, bId) == Some(cId) ==>
      var blocked := Blocked(old(r.work), old(r.addStage), old(r.commits[r.HeadId()].blobIds), r.commits[bId].blobIds);
      (blocked ==> status == Failed(UNTRACKED_IN_THE_WAY)) &&
      (!blocked && BlobsStored(r.blobs, r.commits[bId].blobIds) ==> status == Failed(FAST_FORWARDED)) &&
      (!blocked && !BlobsStored(r.blobs, r.commits[bId].blobIds) ==> status.Crashed?)
  {
    split := None;
    if cId == bId {
      status := Failed(SAME_COMMIT);
    } else {
      var found, discovered := SplitPointSearch(r.commits, cId, bId);
      if found == Some(bId) {
        status := Failed(GIVEN_IS_ANCESTOR);
      } else if found == Some(cId) {
        status := FastForward(r, bId, bHead, branch);
      } else if found.None? {
        status := Crashed("no split point");
      } else {
        status, split := Done, found;
      }
    }
  }
}
