/** Which file names a list of blob ids tracks, the name-to-id map the
    commands build from such a list, and the untracked-file guard that
    protects the working tree before checkout, reset and merge. */
module Tracking {
  import opened Objects
  import opened Files

  /** Name of the repository's own directory inside the working tree. */
  const GITLET_DIR: string := ".gitlet"

  /** Error raised when a checkout, reset or merge would overwrite an
      untracked file. */
  const UNTRACKED_IN_THE_WAY: string := "There is an untracked file in the way; delete it or add it first."

  /** getBlobsName: the file names a list of blob ids tracks. */
  function Names(ids: seq<string>): set<string> {
    set id | id in ids :: BlobName(id)
  }

  /** getBlobsNameMapId as a value: each name tracked by `ids` mapped to
      the LAST id in the list that carries it. */
  function NameMap(ids: seq<string>): (m: map<string, string>)
    ensures m.Keys == Names(ids)
    ensures forall n :: n in m ==> m[n] in ids && BlobName(m[n]) == n
  {
    if |ids| == 0 then map[]
    else
      var init := ids[..|ids| - 1];
      var last := ids[|ids| - 1];
      assert ids == init + [last];
      NameMap(init)[BlobName(last) := last]
  }

  /** The entry of a name is the last id carrying that name. */
  lemma {:induction false} NameMapLast(ids: seq<string>, j: nat)
    requires j < |ids|
    requires forall k :: j < k < |ids| ==> BlobName(ids[k]) != BlobName(ids[j])
    ensures BlobName(ids[j]) in NameMap(ids) && NameMap(ids)[BlobName(ids[j])] == ids[j]
  {
    if j < |ids| - 1 {
      var init := ids[..|ids| - 1];
      assert init[j] == ids[j];
      NameMapLast(init, j);
    }
  }

  /** No two different ids of the list carry the same file name: every id
      is the entry of its name in the name map. */
  predicate OneIdPerName(ids: seq<string>) {
    forall a {:trigger NameMap(ids)[BlobName(a)]} :: a in ids ==> BlobName(a) in NameMap(ids) && NameMap(ids)[BlobName(a)] == a
  }

  /** No two different ids of the set carry the same file name. */
  predicate NamesDistinct(ids: set<string>) {
    forall a, b :: a in ids && b in ids && BlobName(a) == BlobName(b) ==> a == b
  }

  /** Every entry of a name-to-id map is an id carrying its name, as the
      maps getBlobsNameMapId builds are. */
  predicate CarriesKeys(m: map<string, string>) {
    forall k :: k in m ==> BlobName(m[k]) == k
  }

  /** The values of a map whose entries carry their names are distinct by
      name: one id per name. */
  lemma ValuesDistinct(m: map<string, string>)
    requires CarriesKeys(m)
    ensures NamesDistinct(m.Values)
  {
    forall a, b | a in m.Values && b in m.Values && BlobName(a) == BlobName(b)
      ensures a == b
    {
      var ka :| ka in m && m[ka] == a;
      var kb :| kb in m && m[kb] == b;
    }
  }

  /** One id per name means exactly that no two different ids of the list
      share a file name. */
  lemma OneIdPerNameDistinct(ids: seq<string>)
    ensures OneIdPerName(ids) <==> NamesDistinct(Elems(ids))
  {
    if NamesDistinct(Elems(ids)) {
      forall a | a in ids
        ensures BlobName(a) in NameMap(ids) && NameMap(ids)[BlobName(a)] == a
      {
        assert BlobName(a) in Names(ids);
      }
    }
    if OneIdPerName(ids) {
      forall a, b | a in Elems(ids) && b in Elems(ids) && BlobName(a) == BlobName(b)
        ensures a == b
      {
        assert NameMap(ids)[BlobName(a)] == a && NameMap(ids)[BlobName(b)] == b;
      }
    }
  }

  /** getBlobsNameMapId: one `put` per id, in list order. */
  method GetBlobsNameMapId(ids: seq<string>) returns (m: map<string, string>)
    ensures m == NameMap(ids)
  {
    m := map[];
    var i := 0;
    while i < |ids|
      invariant 0 <= i <= |ids|
      invariant m == NameMap(ids[..i])
    {
      ghost var prefix := ids[..i + 1];
      assert prefix[..i] == ids[..i] && prefix[i] == ids[i];
      assert NameMap(prefix) == NameMap(ids[..i])[BlobName(ids[i]) := ids[i]];
      m := m[BlobName(ids[i]) := ids[i]];
      i := i + 1;
    }
    assert ids[..|ids|] == ids;
  }

  /** hasFile: whether some blob id of a commit carries the file name. */
  method HasFile(fileName: string, ids: seq<string>) returns (b: bool)
    ensures b <==> fileName in Names(ids)
  {
    var i := 0;
    while i < |ids|
      invariant 0 <= i <= |ids|
      invariant forall k :: 0 <= k < i ==> BlobName(ids[k]) != fileName
    {
      if BlobName(ids[i]) == fileName {
        return true;
      }
      i := i + 1;
    }
    return false;
  }

  /** A working file neither staged for addition nor tracked by the head
      commit (the repository's own directory excepted). */
  predicate Untracked(work: map<string, string>, addIds: seq<string>, headIds: seq<string>, n: string) {
    n in work && n != GITLET_DIR && n !in Names(addIds) && n !in Names(headIds)
  }

  /** The untracked-file guard for one name. With no target map every
      untracked file counts; with a target map an untracked file counts when
      the target tracks its name and the target's BLOB ID differs from the
      file's CONTENT. */
  predicate InTheWay(work: map<string, string>, addIds: seq<string>, headIds: seq<string>,
                     target: Option<map<string, string>>, n: string)
  {
    Untracked(work, addIds, headIds, n) &&
    (target.None? || (n in target.value && target.value[n] != work[n]))
  }

  /** hasUntrackedFiles: whether some working file is in the way. The
      directory listing's order is not modelled. */
  method HasUntrackedFiles(work: map<string, string>, addIds: seq<string>, headIds: seq<string>,
                           target: Option<map<string, string>>) returns (b: bool)
    ensures b <==> exists n :: n in work && InTheWay(work, addIds, headIds, target, n)
  {
    var headNames := Names(headIds);
    var addNames := Names(addIds);
    var listing := work.Keys;
    while listing != {}
      invariant listing <= work.Keys
      invariant forall n :: n in work && n !in listing ==> !InTheWay(work, addIds, headIds, target, n)
      decreases |listing|
    {
      var n :| n in listing;
      if n != GITLET_DIR && n !in addNames && n !in headNames {
        if target.None? {
          return true;
        } else if n in target.value && target.value[n] != work[n] {
          return true;
        }
      }
      listing := listing - {n};
    }
    return false;
  }

  /** untrackedFilesName: the working files in the way, each once, in the
      directory listing's (unmodelled) order. */
  method UntrackedFilesName(work: map<string, string>, addIds: seq<string>, headIds: seq<string>,
                            target: Option<map<string, string>>) returns (names: seq<string>)
    ensures Elems(names) == set n | n in work && InTheWay(work, addIds, headIds, target, n)
    ensures NoDup(names)
  {
    var headNames := Names(headIds);
    var addNames := Names(addIds);
    names := [];
    var listing := work.Keys;
    while listing != {}
      invariant listing <= work.Keys
      invariant Elems(names) == set n | n in work && n !in listing && InTheWay(work, addIds, headIds, target, n)
      invariant NoDup(names)
      decreases |listing|
    {
      var n :| n in listing;
      assert n !in Elems(names);
      var inTheWay := n != GITLET_DIR && n !in addNames && n !in headNames &&
        (target.None? || (n in target.value && target.value[n] != work[n]));
      assert inTheWay == InTheWay(work, addIds, headIds, target, n);
      ghost var before := names;
      if inTheWay {
        names := names + [n];
      }
      assert forall m :: m in Elems(names) <==> m in Elems(before) || (m == n && inTheWay);
      assert Elems(names) == set m | m in work && m !in listing - {n} && InTheWay(work, addIds, headIds, target, m);
      listing := listing - {n};
    }
  }

  /** The guard compares a blob id with file content: an untracked file whose
      content is exactly the version the target commit tracks is still in
      the way, unless that content happens to be as long as the blob id. */
  lemma IdenticalFileInTheWay(sha1: Hash, work: map<string, string>, addIds: seq<string>,
                              headIds: seq<string>, target: map<string, string>, n: string)
    requires Untracked(work, addIds, headIds, n)
    requires n in target && target[n] == BlobId(sha1, n, work[n])
    requires |work[n]| != |n| + UID_LENGTH
    ensures InTheWay(work, addIds, headIds, Some(target), n)
  {
  }
}
