/** The staging commands: `add` and `rm` move names in and out of the two
    stage files, and `commit` turns the head's snapshot and the stages into
    a new commit at the head of the current branch. */
module StageCommands {
  import opened Objects
  import opened Files
  import opened Branches
  import opened Tracking
  import opened Repo

  const FILE_MISSING: string := "File does not exist."
  const NO_CHANGES: string := "No changes added to the commit."
  const NO_MESSAGE: string := "Please enter a commit message."
  const NO_REASON: string := "No reason to remove the file."

  /** The lines of the two stage files: blob ids staged for addition and
      file names staged for removal. */
  datatype Stages = Stages(add: set<string>, rm: set<string>)

  /** The stage files of a repository, as sets of lines. */
  function StagesOf(r: Repository): Stages
    reads r`addStage, r`rmStage
  {
    Stages(Elems(r.addStage), Elems(r.rmStage))
  }

  /** What add does to the stages for file `name` whose blob id is `id`,
      given the ids of the head commit: a removal mark is dropped and
      nothing else happens; a version the head already holds has the FILE
      NAME taken out of the set of staged ids; any other version has its id
      added. */
  function StageForAdd(st: Stages, headIds: set<string>, name: string, id: string): Stages {
    if name in st.rm then Stages(st.add, st.rm - {name})
    else if id in headIds then Stages(st.add - {name}, st.rm)
    else Stages(st.add + {id}, st.rm)
  }

  /** Adding a version the head does not hold stages its id; adding the
      same file again changes nothing more. */
  lemma AddIdempotent(st: Stages, headIds: set<string>, name: string, id: string)
    requires name !in st.rm
    ensures id !in headIds ==> id in StageForAdd(st, headIds, name, id).add
    ensures StageForAdd(StageForAdd(st, headIds, name, id), headIds, name, id) == StageForAdd(st, headIds, name, id)
  {
  }

  /** Adding a file whose version the head already holds does not unstage
      an earlier staged version of that file: a staged id carrying the name
      is longer than the bare name, so the removal takes out none of this
      file's staged versions. */
  lemma AddKeepsStaleVersion(st: Stages, headIds: set<string>, name: string, id: string, staged: string)
    requires name !in st.rm && id in headIds
    requires staged in st.add && BlobName(staged) == name && |staged| >= UID_LENGTH
    ensures staged in StageForAdd(st, headIds, name, id).add
    ensures StageForAdd(st, headIds, name, id).add == st.add - {name}
  {
    assert |staged| == |name| + UID_LENGTH;
  }

  /** Adding a new version of a file does not overwrite a version of it
      staged earlier: both ids stay in the add stage, and nothing else is
      taken out of it. */
  lemma AddKeepsEarlierVersion(st: Stages, headIds: set<string>, name: string, id: string, earlier: string)
    requires name !in st.rm && earlier in st.add && id !in headIds
    ensures var after := StageForAdd(st, headIds, name, id).add;
      earlier in after && id in after && st.add <= after
  {
  }

  /** The stage-file part of add, for file `name` whose blob id is `id`,
      given the ids of the head commit. */
  method StageAddition(r: Repository, name: string, id: string, headIds: set<string>)
    requires r.StagesValid()
    modifies r`addExists, r`addStage, r`rmExists, r`rmStage
    ensures r.StagesValid()
    ensures StagesOf(r) == StageForAdd(old(StagesOf(r)), headIds, name, id)
    ensures name in old(StagesOf(r)).rm ==>
      r.rmExists && NoDup(r.rmStage) && r.addExists == old(r.addExists) && r.addStage == old(r.addStage)
    ensures name !in old(StagesOf(r)).rm ==>
      r.addExists && NoDup(r.addStage) && r.rmExists == old(r.rmExists) && r.rmStage == old(r.rmStage)
  {
    var rmLines := Elems(r.rmStage);
    if name in rmLines {
      var written := ToLines(rmLines - {name});
      r.rmStage := written;
      return;
    }
    var addLines := Elems(r.addStage);
    if id in headIds {
      addLines := addLines - {name};
    } else {
      addLines := addLines + {id};
    }
    var written := ToLines(addLines);
    r.addExists, r.addStage := true, written;
  }

  /** add: a missing working file is refused. Otherwise the file's blob
      object is stored (constructing the blob writes it), and the stages
      change as StageForAdd says; only the stage file that changes is
      rewritten. */
  method DoAdd(r: Repository, name: string) returns (status: Status)
    requires r.Valid()
    modifies r`blobs, r`addExists, r`addStage, r`rmExists, r`rmStage
    ensures r.Valid()
    ensures name !in old(r.work) ==> status == Failed(FILE_MISSING) && r.State() == old(r.State())
    ensures name in old(r.work) ==>
      var id := BlobId(r.sha1, name, old(r.work)[name]);
      status == Done &&
      r.blobs == old(r.blobs)[id := old(r.work)[name]] &&
      StagesOf(r) == StageForAdd(old(StagesOf(r)), Elems(old(r.commits[r.HeadId()].blobIds)), name, id) &&
      (name in old(StagesOf(r)).rm ==>
        r.rmExists && NoDup(r.rmStage) && r.addExists == old(r.addExists) && r.addStage == old(r.addStage)) &&
      (name !in old(StagesOf(r)).rm ==>
        r.addExists && NoDup(r.addStage) && r.rmExists == old(r.rmExists) && r.rmStage == old(r.rmStage))
  {
    if name !in r.work {
      return Failed(FILE_MISSING);
    }
    var content := r.work[name];
    var id := BlobId(r.sha1, name, content);
    r.blobs := r.blobs[id := content];
    var line, head := ReadHead(r);
    StageAddition(r, name, id, Elems(head.blobIds));
    return Done;
  }

  /** The blob ids of the commit made from head ids `headIds`, the add
      stage as a name-to-id map and the names staged for removal. */
  function CommitBlobs(headIds: seq<string>, add: map<string, string>, rm: set<string>): set<string> {
    (set id | id in headIds && BlobName(id) !in add && BlobName(id) !in rm) + add.Values
  }

  /** A commit made from a head holding one id per name, and from the add
      stage as a name-to-id map, holds one id per name too: a kept head id
      carries a name the add stage does not, and the staged ids carry
      their own names. */
  lemma CommitBlobsDistinct(headIds: seq<string>, add: map<string, string>, rm: set<string>)
    requires OneIdPerName(headIds) && CarriesKeys(add)
    ensures NamesDistinct(CommitBlobs(headIds, add, rm))
  {
    ValuesDistinct(add);
    OneIdPerNameDistinct(headIds);
    forall a, b | a in CommitBlobs(headIds, add, rm) && b in CommitBlobs(headIds, add, rm) && BlobName(a) == BlobName(b)
      ensures a == b
    {
      if a in add.Values {
        var k :| k in add && add[k] == a;
      }
      if b in add.Values {
        var k :| k in add && add[k] == b;
      }
    }
  }

  /** The ids of a set that carry file name `n`. */
  function IdsNamed(ids: set<string>, n: string): (named: set<string>)
    ensures named <= ids
  {
    set id | id in ids && BlobName(id) == n
  }

  /** The snapshot rule of commit, name by name: a name staged for addition
      is tracked with exactly its staged id; a name staged only for removal
      is not tracked; any other name is tracked as the head tracks it. */
  lemma CommitSnapshot(headIds: seq<string>, add: map<string, string>, rm: set<string>, n: string)
    requires forall k :: k in add ==> BlobName(add[k]) == k
    ensures n in add ==> IdsNamed(CommitBlobs(headIds, add, rm), n) == {add[n]}
    ensures n !in add && n in rm ==> IdsNamed(CommitBlobs(headIds, add, rm), n) == {}
    ensures n !in add && n !in rm ==> IdsNamed(CommitBlobs(headIds, add, rm), n) == IdsNamed(Elems(headIds), n)
  {
    var ids := CommitBlobs(headIds, add, rm);
    forall id | id in add.Values && BlobName(id) == n
      ensures n in add && id == add[n]
    {
      var k :| k in add && add[k] == id;
    }
    if n in add {
      assert add[n] in add.Values;
    }
  }

  /** The loop of commit that gathers the head's blobs to keep, then the
      staged ids, into a set written out as the new commit's array. */
  method CollectBlobs(headIds: seq<string>, add: map<string, string>, hasRm: bool, rm: set<string>)
    returns (ids: seq<string>)
    requires !hasRm ==> rm == {}
    ensures Elems(ids) == CommitBlobs(headIds, add, rm) && NoDup(ids)
  {
    var toCommit: set<string> := {};
    for i := 0 to |headIds|
      invariant toCommit == set id | id in headIds[..i] && BlobName(id) !in add && BlobName(id) !in rm
    {
      assert headIds[..i + 1] == headIds[..i] + [headIds[i]];
      var name := BlobName(headIds[i]);
      if name !in add && (!hasRm || name !in rm) {
        toCommit := toCommit + {headIds[i]};
      }
    }
    assert headIds[..|headIds|] == headIds;
    toCommit := toCommit + add.Values;
    ids := ToLines(toCommit);
  }

  /** The blob ids of the commit the stages would make, as commit gathers
      them. */
  method SnapshotIds(r: Repository) returns (ids: seq<string>)
    requires r.Valid()
    ensures Elems(ids) == CommitBlobs(r.commits[r.HeadId()].blobIds, NameMap(r.addStage), Elems(r.rmStage))
    ensures NoDup(ids) && OneIdPerName(ids)
  {
    var add := GetBlobsNameMapId(r.addStage);
    var rm := Elems(r.rmStage);
    var line, head := ReadHead(r);
    ids := CollectBlobs(head.blobIds, add, r.rmExists, rm);
    CommitBlobsDistinct(head.blobIds, add, rm);
    OneIdPerNameDistinct(ids);
  }

  /** commit: refused when neither stage file exists, then when the message
      is empty or the two characters `\s`. Otherwise a commit holding
      CommitBlobs of the head's ids and the stages, with the head as its
      only parent, is stored, the current branch's head moves to it, and
      both stage files are deleted. */
  method DoCommit(r: Repository, message: string, timestamp: string) returns (status: Status, made: Option<Commit>)
    requires r.Valid()
    modifies r`commits, r`branches, r`addExists, r`addStage, r`rmExists, r`rmStage
    ensures r.Valid()
    ensures !old(r.addExists) && !old(r.rmExists) ==>
      status == Failed(NO_CHANGES) && made.None? && r.State() == old(r.State())
    ensures (old(r.addExists) || old(r.rmExists)) && (message == "\\s" || message == "") ==>
      status == Failed(NO_MESSAGE) && made.None? && r.State() == old(r.State())
    ensures (old(r.addExists) || old(r.rmExists)) && message != "\\s" && message != "" ==>
      status == Done && made.Some? &&
      var c := made.value;
      var uid := r.commitId(c)[5..];
      c.message == message && c.timestamp == timestamp &&
      c.parent1 == Some(old(r.HeadId())) && c.parent2.None? &&
      Elems(c.blobIds) == CommitBlobs(old(r.commits[r.HeadId()].blobIds), NameMap(old(r.addStage)), Elems(old(r.rmStage))) &&
      NoDup(c.blobIds) &&
      r.commits == old(r.commits)[uid := c] &&
      r.branches == WithHead(old(r.branches), r.current, uid) && r.HeadId() == uid &&
      !r.addExists && !r.rmExists
  {
    if !r.addExists && !r.rmExists {
      return Failed(NO_CHANGES), None;
    }
    if message == "\\s" || |message| < 1 {
      return Failed(NO_MESSAGE), None;
    }
    var ids := SnapshotIds(r);
    var c := Commit(message, timestamp, Some(r.HeadId()), None, ids);
    var uid := CommitOnCurrent(r, c);
    ClearStages(r);
    return Done, Some(c);
  }

  /** The add-stage part of rm: a staged name is dropped and the add stage
      rewritten from the remaining name-to-id entries. */
  method Unstage(r: Repository, name: string) returns (staged: bool)
    requires r.Valid()
    modifies r`addStage
    ensures r.Valid()
    ensures r.branches == old(r.branches) && r.current == old(r.current) && r.commits == old(r.commits)
    ensures r.work == old(r.work) && r.rmExists == old(r.rmExists) && r.rmStage == old(r.rmStage)
    ensures staged <==> name in NameMap(old(r.addStage))
    ensures staged ==> r.addExists && Elems(r.addStage) == (NameMap(old(r.addStage)) - {name}).Values
    ensures !staged ==> r.addStage == old(r.addStage)
  {
    var addBlobs := GetBlobsNameMapId(r.addStage);
    staged := name in addBlobs;
    if staged {
      assert r.addStage != [];
      addBlobs := addBlobs - {name};
      var lines := ValueLines(addBlobs);
      r.addStage := lines;
    }
  }

  /** The head-commit part of rm: for every blob of the head carrying the
      name, the name is added to the remove stage and the working file is
      deleted. */
  method RemoveTracked(r: Repository, name: string, ids: seq<string>) returns (tracked: bool)
    requires r.Valid()
    modifies r`work, r`rmExists, r`rmStage
    ensures r.Valid()
    ensures r.branches == old(r.branches) && r.current == old(r.current) && r.commits == old(r.commits)
    ensures r.addExists == old(r.addExists) && r.addStage == old(r.addStage)
    ensures tracked <==> name in Names(ids)
    ensures tracked ==>
      r.rmExists && Elems(r.rmStage) == Elems(old(r.rmStage)) + {name} && r.work == old(r.work) - {name}
    ensures !tracked ==>
      r.rmExists == old(r.rmExists) && r.rmStage == old(r.rmStage) && r.work == old(r.work)
  {
    var work, rmExists, rmStage;
    tracked, work, rmExists, rmStage := MarkTracked(name, ids, r.work, r.rmExists, r.rmStage);
    r.work, r.rmExists, r.rmStage := work, rmExists, rmStage;
  }

  /** The loop of RemoveTracked over the head's blob ids, on the working
      tree and the remove stage file as values. */
  method MarkTracked(name: string, ids: seq<string>, work0: map<string, string>, rmExists0: bool, rmStage0: seq<string>)
    returns (tracked: bool, work: map<string, string>, rmExists: bool, rmStage: seq<string>)
    requires !rmExists0 ==> rmStage0 == []
    ensures !rmExists ==> rmStage == []
    ensures tracked <==> name in Names(ids)
    ensures tracked ==> rmExists && Elems(rmStage) == Elems(rmStage0) + {name} && work == work0 - {name}
    ensures !tracked ==> rmExists == rmExists0 && rmStage == rmStage0 && work == work0
  {
    tracked := false;
    work, rmExists, rmStage := work0, rmExists0, rmStage0;
    for i := 0 to |ids|
      invariant tracked == (name in Names(ids[..i]))
      invariant !rmExists ==> rmStage == []
      invariant tracked ==> rmExists && Elems(rmStage) == Elems(rmStage0) + {name} && work == work0 - {name}
      invariant !tracked ==> rmExists == rmExists0 && rmStage == rmStage0 && work == work0
    {
      assert ids[..i + 1] == ids[..i] + [ids[i]];
      if BlobName(ids[i]) == name {
        tracked := true;
        rmStage := AddLineToFile(rmExists, rmStage, name);
        rmExists := true;
        work := work - {name};
      }
    }
    assert ids[..|ids|] == ids;
  }

  /** rm: refused when the name is neither staged for addition nor tracked
      by the head. A staged name is dropped from the add stage (rewritten
      from the remaining name-to-id entries); a tracked name is added to
      the remove stage and its working file deleted. */
  method DoRm(r: Repository, name: string) returns (status: Status)
    requires r.Valid()
    modifies r`work, r`addStage, r`rmExists, r`rmStage
    ensures r.Valid()
    ensures var staged := name in NameMap(old(r.addStage));
      var tracked := name in Names(old(r.commits[r.HeadId()].blobIds));
      status == (if staged || tracked then Done else Failed(NO_REASON)) &&
      (staged ==> r.addExists && Elems(r.addStage) == (NameMap(old(r.addStage)) - {name}).Values) &&
      (!staged ==> r.addStage == old(r.addStage)) &&
      (tracked ==> r.rmExists && Elems(r.rmStage) == Elems(old(r.rmStage)) + {name} &&
                   r.work == old(r.work) - {name}) &&
      (!tracked ==> r.rmExists == old(r.rmExists) && r.rmStage == old(r.rmStage) && r.work == old(r.work))
  {
    var ids := r.commits[r.HeadId()].blobIds;
    var staged := Unstage(r, name);
    var tracked := RemoveTracked(r, name, ids);
    if !staged && !tracked {
      return Failed(NO_REASON);
    }
    return Done;
  }
}
