/** The branch registry: the file holding one `name:uid` line per branch,
    and the lookups and the head update the commands perform on it. */
module Branches {
  import opened Objects
  import opened Files

  /** One line of the registry: a branch name and the UID of its head. */
  datatype BranchLine = BranchLine(name: string, id: string)

  /** Some line of the registry names `branch`. */
  predicate Listed(lines: seq<BranchLine>, branch: string) {
    exists i :: 0 <= i < |lines| && lines[i].name == branch
  }

  /** No two lines of the registry name the same branch. */
  predicate UniqueNames(lines: seq<BranchLine>) {
    forall i, j :: 0 <= i < j < |lines| ==> lines[i].name != lines[j].name
  }

  /** The head recorded on the first line naming `branch`, or the empty
      string when no line names it. */
  function HeadOf(lines: seq<BranchLine>, branch: string): (id: string)
    ensures !Listed(lines, branch) ==> id == ""
    ensures Listed(lines, branch) ==> BranchLine(branch, id) in lines
  {
    if |lines| == 0 then ""
    else if lines[0].name == branch then lines[0].id
    else
      ListedUnfold(lines, branch);
      HeadOf(lines[1..], branch)
  }

  /** The registry after the head of `branch` is set to `uid`: the first
      line naming it is rewritten, every other line is kept. */
  function WithHead(lines: seq<BranchLine>, branch: string, uid: string): (r: seq<BranchLine>)
    ensures |r| == |lines|
    ensures forall k :: 0 <= k < |lines| ==> r[k].name == lines[k].name
    ensures forall k :: 0 <= k < |lines| ==>
      r[k] == lines[k] || (lines[k].name == branch && r[k].id == uid)
  {
    if |lines| == 0 then []
    else if lines[0].name == branch then [BranchLine(branch, uid)] + lines[1..]
    else [lines[0]] + WithHead(lines[1..], branch, uid)
  }

  /** Moving the head rewrites exactly the first line naming the branch. */
  lemma {:induction false} WithHeadAt(lines: seq<BranchLine>, branch: string, uid: string, i: nat)
    requires i < |lines| && lines[i].name == branch
    requires forall k :: 0 <= k < i ==> lines[k].name != branch
    ensures WithHead(lines, branch, uid) == lines[i := BranchLine(branch, uid)]
  {
    if i > 0 {
      var tail := lines[1..];
      var line := BranchLine(branch, uid);
      assert lines[0].name != branch;
      assert forall k :: 0 <= k < i - 1 ==> tail[k] == lines[k + 1];
      WithHeadAt(tail, branch, uid, i - 1);
      assert lines[i := line] == [lines[0]] + tail[i - 1 := line];
    }
  }

  /** A non-empty registry lists a branch when its first line or the rest does. */
  lemma ListedUnfold(lines: seq<BranchLine>, branch: string)
    requires |lines| > 0
    ensures Listed(lines, branch) <==> lines[0].name == branch || Listed(lines[1..], branch)
  {
    if Listed(lines, branch) && lines[0].name != branch {
      var i :| 0 <= i < |lines| && lines[i].name == branch;
      assert lines[1..][i - 1].name == branch;
    }
    if Listed(lines[1..], branch) {
      var i :| 0 <= i < |lines[1..]| && lines[1..][i].name == branch;
      assert lines[i + 1].name == branch;
    }
  }

  /** Moving the head of a branch that is not registered changes nothing. */
  lemma {:induction false} WithHeadUnlisted(lines: seq<BranchLine>, branch: string, uid: string)
    requires !Listed(lines, branch)
    ensures WithHead(lines, branch, uid) == lines
  {
    if |lines| > 0 {
      ListedUnfold(lines, branch);
      WithHeadUnlisted(lines[1..], branch, uid);
    }
  }

  /** Moving a head keeps the registered names, and so their uniqueness. */
  lemma WithHeadNames(lines: seq<BranchLine>, branch: string, uid: string)
    ensures forall n :: Listed(WithHead(lines, branch, uid), n) <==> Listed(lines, n)
    ensures UniqueNames(lines) ==> UniqueNames(WithHead(lines, branch, uid))
  {
    var w := WithHead(lines, branch, uid);
    forall n ensures Listed(w, n) <==> Listed(lines, n) {
      if Listed(w, n) {
        var i :| 0 <= i < |w| && w[i].name == n;
        assert lines[i].name == n;
      }
      if Listed(lines, n) {
        var i :| 0 <= i < |lines| && lines[i].name == n;
        assert w[i].name == n;
      }
    }
  }

  /** Setting a branch's head to the head it already has changes nothing. */
  lemma {:induction false} WithSameHead(lines: seq<BranchLine>, branch: string)
    ensures WithHead(lines, branch, HeadOf(lines, branch)) == lines
  {
    if |lines| > 0 && lines[0].name != branch {
      WithSameHead(lines[1..], branch);
    }
  }

  /** After the update the branch's head is the new UID, every other
      branch's head is as before, and the same branches are registered. */
  lemma {:induction false} HeadAfterUpdate(lines: seq<BranchLine>, branch: string, uid: string, other: string)
    requires Listed(lines, branch)
    requires other != branch
    ensures HeadOf(WithHead(lines, branch, uid), branch) == uid
    ensures HeadOf(WithHead(lines, branch, uid), other) == HeadOf(lines, other)
    ensures Listed(WithHead(lines, branch, uid), other) == Listed(lines, other)
  {
    if lines[0].name != branch {
      assert Listed(lines[1..], branch) by {
        var i :| 0 <= i < |lines| && lines[i].name == branch;
        assert lines[1..][i - 1].name == branch;
      }
      HeadAfterUpdate(lines[1..], branch, uid, other);
      assert WithHead(lines, branch, uid)[1..] == WithHead(lines[1..], branch, uid);
    } else {
      assert WithHead(lines, branch, uid)[1..] == lines[1..];
    }
  }

  /** After the update a registered branch's head is the new UID. */
  lemma {:induction false} HeadMoved(lines: seq<BranchLine>, branch: string, uid: string)
    requires Listed(lines, branch)
    ensures HeadOf(WithHead(lines, branch, uid), branch) == uid
  {
    if lines[0].name != branch {
      ListedUnfold(lines, branch);
      HeadMoved(lines[1..], branch, uid);
      assert WithHead(lines, branch, uid)[1..] == WithHead(lines[1..], branch, uid);
    }
  }

  /** getBranchHeadID: the head of `branch`, or "" when it is not registered. */
  method GetBranchHeadId(lines: seq<BranchLine>, branch: string) returns (id: string)
    ensures id == HeadOf(lines, branch)
  {
    var i := 0;
    while i < |lines|
      invariant 0 <= i <= |lines|
      invariant HeadOf(lines[i..], branch) == HeadOf(lines, branch)
    {
      assert lines[i..][1..] == lines[i + 1..];
      if lines[i].name == branch {
        return lines[i].id;
      }
      i := i + 1;
    }
    return "";
  }

  /** getCurrentBranchAndHeadID: the registry line of the current branch,
      or nothing (the source's array of two nulls). */
  method GetCurrentBranchAndHeadId(lines: seq<BranchLine>, current: string) returns (line: Option<BranchLine>)
    ensures line.Some? <==> Listed(lines, current)
    ensures line.Some? ==> line.value == BranchLine(current, HeadOf(lines, current))
  {
    var i := 0;
    while i < |lines|
      invariant 0 <= i <= |lines|
      invariant HeadOf(lines[i..], current) == HeadOf(lines, current)
      invariant forall k :: 0 <= k < i ==> lines[k].name != current
    {
      assert lines[i..][1..] == lines[i + 1..];
      if lines[i].name == current {
        return Some(lines[i]);
      }
      i := i + 1;
    }
    return None;
  }

  /** hasBranch: whether some registry line names `branch`. */
  method HasBranch(lines: seq<BranchLine>, branch: string) returns (b: bool)
    ensures b <==> Listed(lines, branch)
  {
    var i := 0;
    while i < |lines|
      invariant 0 <= i <= |lines|
      invariant forall k :: 0 <= k < i ==> lines[k].name != branch
    {
      if lines[i].name == branch {
        return true;
      }
      i := i + 1;
    }
    return false;
  }

  /** updateHeadOfBranch: an id carrying the 5-character prefix is cut to
      its UID; the lines are copied into an array, the first line naming the
      branch is rewritten in place, and the array is written back. */
  method UpdateHeadOfBranch(lines: seq<BranchLine>, branch: string, id: string) returns (written: seq<BranchLine>)
    ensures written == WithHead(lines, branch, Truncate(id))
  {
    var uid := id;
    if |uid| == UID_LENGTH + 5 {
      uid := uid[5..];
    }
    var a := new BranchLine[|lines|](k requires 0 <= k < |lines| => lines[k]);
    var i := 0;
    while i < a.Length
      invariant 0 <= i <= a.Length
      invariant a[..] == lines
      invariant forall k :: 0 <= k < i ==> lines[k].name != branch
    {
      if a[i].name == branch {
        a[i] := BranchLine(a[i].name, uid);
        WithHeadAt(lines, branch, uid, i);
        break;
      }
      i := i + 1;
    }
    if i == a.Length {
      WithHeadUnlisted(lines, branch, uid);
    }
    written := a[..];
  }

  /** In a registry with unique names, a registered line's branch has that
      line's id as its head. */
  lemma {:induction false} HeadOfLine(lines: seq<BranchLine>, line: BranchLine)
    requires UniqueNames(lines) && line in lines
    ensures HeadOf(lines, line.name) == line.id
  {
    var i :| 0 <= i < |lines| && lines[i] == line;
    if i > 0 {
      assert lines[0].name != lines[i].name;
      assert lines[1..][i - 1] == line;
      HeadOfLine(lines[1..], line);
    }
  }

  /** Adding a line for a branch that is not registered keeps the branch
      names unique, whatever order the re-joined set is written in. */
  lemma AddKeepsUniqueNames(lines: seq<BranchLine>, written: seq<BranchLine>, line: BranchLine)
    requires UniqueNames(lines) && !Listed(lines, line.name)
    requires Elems(written) == Elems(lines) + {line} && NoDup(written)
    ensures UniqueNames(written)
    ensures forall n :: Listed(written, n) <==> Listed(lines, n) || n == line.name
  {
    forall i, j | 0 <= i < j < |written|
      ensures written[i].name != written[j].name
    {
      assert written[i] in Elems(written) && written[j] in Elems(written);
      if written[i] != line && written[j] != line {
        var p :| 0 <= p < |lines| && lines[p] == written[i];
        var q :| 0 <= q < |lines| && lines[q] == written[j];
        assert p != q;
      } else if written[i] == line {
        var q :| 0 <= q < |lines| && lines[q] == written[j];
      } else {
        var p :| 0 <= p < |lines| && lines[p] == written[i];
      }
    }
    forall n ensures Listed(written, n) <==> Listed(lines, n) || n == line.name {
      if Listed(written, n) {
        var i :| 0 <= i < |written| && written[i].name == n;
        assert written[i] in Elems(written);
      }
      if Listed(lines, n) {
        var i :| 0 <= i < |lines| && lines[i].name == n;
        assert lines[i] in Elems(written);
      }
      if n == line.name {
        assert line in Elems(written);
      }
    }
  }

  /** Dropping a registered line keeps the other names unique and leaves
      every other branch registered, whatever order the re-joined set is
      written in. */
  lemma RemoveKeepsUniqueNames(lines: seq<BranchLine>, written: seq<BranchLine>, line: BranchLine)
    requires UniqueNames(lines) && line in lines
    requires Elems(written) == Elems(lines) - {line} && NoDup(written)
    ensures UniqueNames(written)
    ensures forall n :: Listed(written, n) <==> Listed(lines, n) && n != line.name
  {
    forall i, j | 0 <= i < j < |written|
      ensures written[i].name != written[j].name
    {
      assert written[i] in Elems(written) && written[j] in Elems(written);
      var p :| 0 <= p < |lines| && lines[p] == written[i];
      var q :| 0 <= q < |lines| && lines[q] == written[j];
      assert p != q;
    }
    var k :| 0 <= k < |lines| && lines[k] == line;
    forall n ensures Listed(written, n) <==> Listed(lines, n) && n != line.name {
      if Listed(written, n) {
        var i :| 0 <= i < |written| && written[i].name == n;
        assert written[i] in Elems(written);
        var p :| 0 <= p < |lines| && lines[p] == written[i];
        assert p != k;
      }
      if Listed(lines, n) && n != line.name {
        var i :| 0 <= i < |lines| && lines[i].name == n;
        assert lines[i] in Elems(written);
      }
    }
  }
}
