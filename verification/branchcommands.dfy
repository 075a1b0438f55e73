/** The branch commands: `branch` registers a new name at the current head,
    `rm-branch` drops a name from the registry. Both re-join the registry
    lines as a set, so the model speaks of the set of lines written. */
module BranchCommands {
  import opened Objects
  import opened Files
  import opened Branches
  import opened Repo

  const BRANCH_EXISTS: string := "A branch with that name already exists."
  const REMOVE_CURRENT: string := "Cannot remove the current branch."
  const NO_SUCH_BRANCH: string := "A branch with that name does not exist."

  /** A rewritten registry whose names are unique, which still registers
      the current branch, and whose lines are old lines or point at stored
      commits, is consistent. */
  lemma RegistryRewritten(lines: seq<BranchLine>, written: seq<BranchLine>, current: string,
                          commits: map<string, Commit>)
    requires GraphConsistent(lines, current, commits)
    requires UniqueNames(written) && Listed(written, current)
    requires forall l :: l in Elems(written) ==> l in Elems(lines) || l.id in commits
    ensures GraphConsistent(written, current, commits)
  {
    forall k | 0 <= k < |written|
      ensures written[k].id in commits
    {
      assert written[k] in Elems(written);
      if written[k] in Elems(lines) {
        var j :| 0 <= j < |lines| && lines[j] == written[k];
      }
    }
  }

  /** Two registries with unique names, registering the same branches, and
      agreeing on the line of `n` when it is registered, give `n` the same
      head. */
  lemma SameHead(lines: seq<BranchLine>, written: seq<BranchLine>, n: string)
    requires UniqueNames(lines) && UniqueNames(written)
    requires Listed(written, n) <==> Listed(lines, n)
    requires Listed(lines, n) ==> BranchLine(n, HeadOf(lines, n)) in written
    ensures HeadOf(written, n) == HeadOf(lines, n)
  {
    if Listed(lines, n) {
      HeadOfLine(written, BranchLine(n, HeadOf(lines, n)));
    }
  }

  /** The registry after branch, as branch writes it: a consistent
      registry holding one more line, with every other branch's head as it
      was and the new branch at `id`. */
  lemma RegistryAdded(lines: seq<BranchLine>, written: seq<BranchLine>, current: string,
                      commits: map<string, Commit>, line: BranchLine)
    requires GraphConsistent(lines, current, commits)
    requires !Listed(lines, line.name) && line.id in commits
    requires Elems(written) == Elems(lines) + {line} && NoDup(written)
    ensures GraphConsistent(written, current, commits)
    ensures HeadOf(written, line.name) == line.id
    ensures forall n :: n != line.name ==>
      Listed(written, n) == Listed(lines, n) && HeadOf(written, n) == HeadOf(lines, n)
  {
    AddKeepsUniqueNames(lines, written, line);
    RegistryRewritten(lines, written, current, commits);
    HeadOfLine(written, line);
    forall n | n != line.name
      ensures HeadOf(written, n) == HeadOf(lines, n)
    {
      if Listed(lines, n) {
        assert BranchLine(n, HeadOf(lines, n)) in Elems(written);
      }
      SameHead(lines, written, n);
    }
  }

  /** branch: refused when the name is registered; otherwise the line
      `name:head` is added to the registry, pointing the new branch at the
      current head and leaving every other branch as it was. */
  method DoBranch(r: Repository, name: string) returns (status: Status)
    requires r.Valid()
    modifies r`branches
    ensures r.Valid()
    ensures Listed(old(r.branches), name) ==>
      status == Failed(BRANCH_EXISTS) && r.branches == old(r.branches)
    ensures !Listed(old(r.branches), name) ==>
      status == Done &&
      Elems(r.branches) == Elems(old(r.branches)) + {BranchLine(name, old(r.HeadId()))} &&
      NoDup(r.branches) &&
      HeadOf(r.branches, name) == old(r.HeadId()) && r.HeadId() == old(r.HeadId()) &&
      forall n :: n != name ==>
        Listed(r.branches, n) == Listed(old(r.branches), n) &&
        HeadOf(r.branches, n) == HeadOf(old(r.branches), n)
  {
    var known := HasBranch(r.branches, name);
    if known {
      status := Failed(BRANCH_EXISTS);
    } else {
      var head, commit := ReadHead(r);
      var line := BranchLine(name, head.id);
      var written := AddLineToFile(true, r.branches, line);
      RegistryAdded(r.branches, written, r.current, r.commits, line);
      r.branches := written;
      status := Done;
    }
  }

  /** The loop of rm-branch over the registry's lines: the line naming the
      branch, if any. */
  method FindLine(lines: set<BranchLine>, name: string) returns (found: Option<BranchLine>)
    ensures found.Some? ==> found.value in lines && found.value.name == name
    ensures found.None? ==> forall l :: l in lines ==> l.name != name
  {
    found := None;
    var rest := lines;
    while rest != {}
      invariant rest <= lines
      invariant found.Some? ==> found.value in lines && found.value.name == name
      invariant found.None? ==> forall l :: l in lines && l !in rest ==> l.name != name
      decreases |rest|
    {
      var l :| l in rest;
      if l.name == name {
        found := Some(l);
      }
      rest := rest - {l};
    }
  }

  /** `written` is the registry `lines` without the line of branch `name`,
      each remaining line once, every other branch registered at the head it
      had. */
  ghost predicate BranchDropped(lines: seq<BranchLine>, written: seq<BranchLine>, name: string) {
    Elems(written) == Elems(lines) - {BranchLine(name, HeadOf(lines, name))} &&
    NoDup(written) && !Listed(written, name) &&
    forall n :: n != name ==> Listed(written, n) == Listed(lines, n) && HeadOf(written, n) == HeadOf(lines, n)
  }

  /** The registry after rm-branch, as rm-branch writes it: a consistent
      registry without the removed line, with every other branch's head as
      it was. */
  lemma RegistryRemoved(lines: seq<BranchLine>, written: seq<BranchLine>, current: string,
                        commits: map<string, Commit>, line: BranchLine)
    requires GraphConsistent(lines, current, commits)
    requires line in lines && line.name != current
    requires Elems(written) == Elems(lines) - {line} && NoDup(written)
    ensures GraphConsistent(written, current, commits)
    ensures BranchDropped(lines, written, line.name)
  {
    HeadOfLine(lines, line);
    RemoveKeepsUniqueNames(lines, written, line);
    RegistryRewritten(lines, written, current, commits);
    forall n | n != line.name
      ensures HeadOf(written, n) == HeadOf(lines, n)
    {
      if Listed(lines, n) {
        assert BranchLine(n, HeadOf(lines, n)) in Elems(written);
      }
      SameHead(lines, written, n);
    }
  }

  /** rm-branch on the registry's lines: refused for the current branch,
      then for a name that is not registered; otherwise the lines are
      re-joined without the branch's line. */
  method RemoveBranchLine(lines: seq<BranchLine>, current: string, commits: map<string, Commit>, name: string)
    returns (status: Status, written: seq<BranchLine>)
    requires GraphConsistent(lines, current, commits)
    ensures GraphConsistent(written, current, commits)
    ensures name == current ==> status == Failed(REMOVE_CURRENT) && written == lines
    ensures name != current && !Listed(lines, name) ==> status == Failed(NO_SUCH_BRANCH) && written == lines
    ensures name != current && Listed(lines, name) ==> status == Done && BranchDropped(lines, written, name)
  {
    written := lines;
    if name == current {
      status := Failed(REMOVE_CURRENT);
    } else {
      var found := FindLine(Elems(lines), name);
      if Listed(lines, name) {
        var i :| 0 <= i < |lines| && lines[i].name == name;
        assert lines[i] in Elems(lines);
      }
      if found.None? {
        status := Failed(NO_SUCH_BRANCH);
      } else {
        var line := found.value;
        written := ToLines(Elems(lines) - {line});
        RegistryRemoved(lines, written, current, commits, line);
        status := Done;
      }
    }
  }

  /** rm-branch: the registry file is rewritten as RemoveBranchLine says
      (unchanged when refused). */
  method DoRmBranch(r: Repository, name: string) returns (status: Status)
    requires r.Valid()
    modifies r`branches
    ensures r.Valid()
    ensures name == r.current ==> status == Failed(REMOVE_CURRENT) && r.branches == old(r.branches)
    ensures name != r.current && !Listed(old(r.branches), name) ==>
      status == Failed(NO_SUCH_BRANCH) && r.branches == old(r.branches)
    ensures name != r.current && Listed(old(r.branches), name) ==>
      status == Done && BranchDropped(old(r.branches), r.branches, name)
  {
    var written;
    status, written := RemoveBranchLine(r.branches, r.current, r.commits, name);
    r.branches := written;
  }
}
