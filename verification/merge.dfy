/** The three-way merge of `merge`: one decision per file name over the
    name-to-blob-id maps of the current head, the split point and the given
    head; the conflict file it writes; and the stage and working-tree
    updates that follow from the decisions. */
module MergeEngine {
  import opened Objects
  import opened Files
  import opened Tracking
  import opened Repo

  /** The name-to-blob-id maps of the three commits a merge compares. */
  datatype Sides = Sides(cur: map<string, string>, split: map<string, string>, given: map<string, string>)

  /** The three maps are name-to-id maps as getBlobsNameMapId builds them:
      every id carries its name. */
  predicate SidesCarryKeys(h: Sides) {
    CarriesKeys(h.cur) && CarriesKeys(h.split) && CarriesKeys(h.given)
  }

  /** Every name one of the three commits tracks. */
  function AllNames(h: Sides): set<string> {
    h.split.Keys + h.cur.Keys + h.given.Keys
  }

  /** What merge does with one file name. */
  datatype Action =
    | TakeGiven     // changed only in the given head: its file is written, the split-point id staged
    | Conflict      // a conflict file is written and staged
    | KeepSplit     // both heads hold the same id: the split-point id is staged
    | Remove        // deleted on one side, untouched on the other: staged for removal, file deleted
    | StageCurrent  // added only in the current head: its id is staged
    | StageGiven    // added only in the given head: its file is written and its id staged
    | Untouched     // nothing happens to the name

  /** The entry of a name in a map, if any (Java's `get`, null when absent). */
  function Entry(m: map<string, string>, n: string): (e: Option<string>)
    ensures e.Some? <==> n in m
    ensures e.Some? ==> e.value == m[n]
  {
    if n in m then Some(m[n]) else None
  }

  /** The map after a file is written (Some) or deleted (None). */
  function SetFile(work: map<string, string>, n: string, f: Option<string>): map<string, string> {
    if f.Some? then work[n := f.value] else work - {n}
  }

  /** The cascade of merge's three loops for one name, from its id at the
      split point (`s`), in the current head (`c`) and in the given head
      (`b`). */
  function Classify(s: Option<string>, c: Option<string>, b: Option<string>): Action {
    if s.Some? then
      var bModified := b.Some? && b != s;
      var cModified := c.Some? && c != s;
      if bModified && c == s then TakeGiven
      else if (cModified && bModified && c != b) || (cModified && b.None?) || (bModified && c.None?) then Conflict
      else if c.Some? && b.Some? && c == b then KeepSplit
      else if (b.None? && c == s) || (c.None? && b == s) then Remove
      else Untouched
    else if c.Some? && b.None? then StageCurrent
    else if c.Some? && b.Some? && c != b then Conflict
    else if c.None? && b.Some? then StageGiven
    else Untouched
  }

  /** The decision table in closed form: each action holds exactly for the
      combinations of the three versions stated here. A name changed only
      in the current head is left alone (not staged); a name both heads
      changed the same way is staged with the split-point id. */
  lemma DecisionTable(s: Option<string>, c: Option<string>, b: Option<string>)
    ensures Classify(s, c, b) == TakeGiven <==> s.Some? && c == s && b.Some? && b != s
    ensures Classify(s, c, b) == Conflict <==>
      (s.Some? && c != s && b != s && c != b) || (s.None? && c.Some? && b.Some? && c != b)
    ensures Classify(s, c, b) == KeepSplit <==> s.Some? && c.Some? && c == b
    ensures Classify(s, c, b) == Remove <==> s.Some? && ((c == s && b.None?) || (c.None? && b == s))
    ensures Classify(s, c, b) == StageCurrent <==> s.None? && c.Some? && b.None?
    ensures Classify(s, c, b) == StageGiven <==> s.None? && c.None? && b.Some?
    ensures Classify(s, c, b) == Untouched <==>
      (c.None? && b.None?) || (s.Some? && c.Some? && c != s && b == s) || (s.None? && c.Some? && c == b)
  {
  }

  /** The action merge takes for name `n`. */
  function ActionOf(h: Sides, n: string): Action {
    Classify(Entry(h.split, n), Entry(h.cur, n), Entry(h.given, n))
  }

  /** The content of a blob object; merge only uses it once the object is
      known to be stored. */
  function Text(blobs: map<string, string>, id: string): string {
    if id in blobs then blobs[id] else ""
  }

  /** One side's contribution to a conflict file: its blob's content, or the
      empty string when that side does not track the name. */
  function SideText(blobs: map<string, string>, m: map<string, string>, n: string): string {
    if n in m then Text(blobs, m[n]) else ""
  }

  /** The conflict file of mergeConflictReplace. */
  function ConflictText(cur: string, other: string): string {
    "<<<<<<< HEAD\n" + cur + "=======\n" + other + ">>>>>>>\n"
  }

  /** The conflict file merge writes for `n`. */
  function ConflictFile(blobs: map<string, string>, h: Sides, n: string): string {
    ConflictText(SideText(blobs, h.cur, n), SideText(blobs, h.given, n))
  }

  /** The blob object one side holds for `n`, if any, is stored. */
  predicate Stored(blobs: map<string, string>, m: map<string, string>, n: string) {
    n in m ==> m[n] in blobs
  }

  /** The blob objects merge reads for `n` are stored. */
  predicate ReadsStored(blobs: map<string, string>, h: Sides, n: string) {
    match ActionOf(h, n)
    case TakeGiven => Stored(blobs, h.given, n)
    case StageGiven => Stored(blobs, h.given, n)
    case Conflict => Stored(blobs, h.cur, n) && Stored(blobs, h.given, n)
    case _ => true
  }

  /** The blob objects merge reads for the names of `names` are stored. */
  predicate ReadableIn(blobs: map<string, string>, h: Sides, names: set<string>) {
    forall n :: n in names ==> ReadsStored(blobs, h, n)
  }

  /** Every blob object merge reads is stored. */
  predicate Readable(blobs: map<string, string>, h: Sides) {
    ReadableIn(blobs, h, AllNames(h))
  }

  /** The id merge puts into the stage map for `n`, if any. */
  function PutId(sha1: Hash, blobs: map<string, string>, h: Sides, n: string): Option<string> {
    match ActionOf(h, n)
    case TakeGiven => Entry(h.split, n)
    case KeepSplit => Entry(h.split, n)
    case Conflict => Some(BlobId(sha1, n, ConflictFile(blobs, h, n)))
    case StageCurrent => Entry(h.cur, n)
    case StageGiven => Entry(h.given, n)
    case _ => None
  }

  /** The content merge writes to working file `n`, if it writes one. */
  function WriteOf(blobs: map<string, string>, h: Sides, n: string): Option<string> {
    match ActionOf(h, n)
    case TakeGiven => Some(SideText(blobs, h.given, n))
    case StageGiven => Some(SideText(blobs, h.given, n))
    case Conflict => Some(ConflictFile(blobs, h, n))
    case _ => None
  }

  /** Working file `n` after merge visits it: deleted, written, or as it was. */
  function FileAfter(blobs: map<string, string>, h: Sides, work: map<string, string>, n: string): Option<string> {
    if ActionOf(h, n) == Remove then None
    else if WriteOf(blobs, h, n).Some? then WriteOf(blobs, h, n)
    else Entry(work, n)
  }

  /** The entry for `n` of the stage map merge writes, from the add stage it
      started with (`base`): removed names are gone, put ids win, other
      entries are kept. */
  function StagedEntry(sha1: Hash, blobs: map<string, string>, h: Sides, base: map<string, string>, n: string): Option<string> {
    if ActionOf(h, n) == Remove then None
    else if PutId(sha1, blobs, h, n).Some? then PutId(sha1, blobs, h, n)
    else Entry(base, n)
  }

  /** The ids merge puts for the names of `names`. */
  function Puts(sha1: Hash, blobs: map<string, string>, h: Sides, names: set<string>): map<string, string> {
    map n | n in names && PutId(sha1, blobs, h, n).Some? :: PutId(sha1, blobs, h, n).value
  }

  /** The files merge writes for the names of `names`. */
  function Writes(blobs: map<string, string>, h: Sides, names: set<string>): map<string, string> {
    map n | n in names && WriteOf(blobs, h, n).Some? :: WriteOf(blobs, h, n).value
  }

  /** The names of `names` merge stages for removal. */
  function Removals(h: Sides, names: set<string>): set<string> {
    set n | n in names && ActionOf(h, n) == Remove
  }

  /** Some name of `names` ends in a conflict. */
  predicate ConflictIn(h: Sides, names: set<string>) {
    exists n :: n in names && ActionOf(h, n) == Conflict
  }

  /** Whether merge reports a conflict (the hasConflict flag at the end). */
  predicate HasConflict(h: Sides) {
    ConflictIn(h, AllNames(h))
  }

  /** What merge has built so far: the stage map (toBeStaged), the working
      tree, the lines of the remove-stage file as a set and whether it
      exists, the names to drop from the stage map (toBeRm), and whether a
      conflict was met. */
  datatype MergeState = MergeState(staged: map<string, string>, work: map<string, string>, rm: set<string>,
                                   rmExists: bool, toBeRm: set<string>, conflict: bool)

  /** The state after merge visits name `n`. */
  function Step(sha1: Hash, blobs: map<string, string>, h: Sides, st: MergeState, n: string): MergeState {
    var removed := ActionOf(h, n) == Remove;
    var put := PutId(sha1, blobs, h, n);
    MergeState(
      if put.Some? then st.staged[n := put.value] else st.staged,
      SetFile(st.work, n, FileAfter(blobs, h, st.work, n)),
      if removed then st.rm + {n} else st.rm,
      st.rmExists || removed,
      if removed then st.toBeRm + {n} else st.toBeRm,
      st.conflict || ActionOf(h, n) == Conflict)
  }

  /** The state after merge visits every name of `done`, in closed form:
      it does not depend on the order of the visits. */
  function Closed(sha1: Hash, blobs: map<string, string>, h: Sides, st: MergeState, done: set<string>): MergeState {
    var removed := Removals(h, done);
    MergeState(
      st.staged + Puts(sha1, blobs, h, done),
      (st.work - removed) + Writes(blobs, h, done),
      st.rm + removed,
      st.rmExists || removed != {},
      st.toBeRm + removed,
      st.conflict || ConflictIn(h, done))
  }

  /** The state after merge visits the names of `names` in that order. */
  function Run(sha1: Hash, blobs: map<string, string>, h: Sides, st: MergeState, names: seq<string>): MergeState {
    if |names| == 0 then st
    else Step(sha1, blobs, h, Run(sha1, blobs, h, st, names[..|names| - 1]), names[|names| - 1])
  }

  /** Visiting no names leaves the state as it was. */
  lemma ClosedEmpty(sha1: Hash, blobs: map<string, string>, h: Sides, st: MergeState)
    ensures Closed(sha1, blobs, h, st, {}) == st
  {
    assert st.staged + Puts(sha1, blobs, h, {}) == st.staged;
    assert (st.work - Removals(h, {})) + Writes(blobs, h, {}) == st.work;
  }

  /** Visiting names in any order, even with repeats, after the names of
      `done` ends in the closed form of all of them: the order of a Java
      map's key set does not matter to merge. */
  lemma {:induction false} RunClosed(sha1: Hash, blobs: map<string, string>, h: Sides, st: MergeState,
                                     done: set<string>, names: seq<string>)
    ensures Run(sha1, blobs, h, Closed(sha1, blobs, h, st, done), names) == Closed(sha1, blobs, h, st, done + Elems(names))
  {
    if |names| == 0 {
      assert done + Elems(names) == done;
    } else {
      var init := names[..|names| - 1];
      var n := names[|names| - 1];
      RunClosed(sha1, blobs, h, st, done, init);
      assert done + Elems(names) == (done + Elems(init)) + {n} by {
        assert names == init + [n];
      }
      ClosedStep(sha1, blobs, h, st, done + Elems(init), n);
    }
  }

  /** Visiting one more name takes the closed form of a set of names to the
      closed form of that set with the name added. */
  lemma ClosedStep(sha1: Hash, blobs: map<string, string>, h: Sides, st: MergeState, done: set<string>, n: string)
    ensures Step(sha1, blobs, h, Closed(sha1, blobs, h, st, done), n) == Closed(sha1, blobs, h, st, done + {n})
  {
    PutsStep(sha1, blobs, h, st.staged, done, n);
    WorkStep(blobs, h, st.work, done, n);
    RemovalsStep(h, done, n);
    ConflictStep(h, done, n);
  }

  /** The removal part of ClosedStep. */
  lemma RemovalsStep(h: Sides, done: set<string>, n: string)
    ensures Removals(h, done + {n}) == if ActionOf(h, n) == Remove then Removals(h, done) + {n} else Removals(h, done)
  {
  }

  /** The conflict part of ClosedStep. */
  lemma ConflictStep(h: Sides, done: set<string>, n: string)
    ensures ConflictIn(h, done + {n}) <==> ConflictIn(h, done) || ActionOf(h, n) == Conflict
  {
  }

  /** The stage map part of ClosedStep. */
  lemma PutsStep(sha1: Hash, blobs: map<string, string>, h: Sides, base: map<string, string>, done: set<string>, n: string)
    ensures var put := PutId(sha1, blobs, h, n);
      base + Puts(sha1, blobs, h, done + {n}) ==
      if put.Some? then (base + Puts(sha1, blobs, h, done))[n := put.value] else base + Puts(sha1, blobs, h, done)
  {
    var put := PutId(sha1, blobs, h, n);
    var before := base + Puts(sha1, blobs, h, done);
    var after := base + Puts(sha1, blobs, h, done + {n});
    var stepped := if put.Some? then before[n := put.value] else before;
    forall m ensures Entry(stepped, m) == Entry(after, m) {
      if m == n {
      } else {
        assert m in Puts(sha1, blobs, h, done + {n}) <==> m in Puts(sha1, blobs, h, done);
      }
    }
    SameEntries(stepped, after);
  }

  /** The working-tree part of ClosedStep. */
  lemma WorkStep(blobs: map<string, string>, h: Sides, work: map<string, string>, done: set<string>, n: string)
    ensures var before := (work - Removals(h, done)) + Writes(blobs, h, done);
      SetFile(before, n, FileAfter(blobs, h, before, n)) ==
      (work - Removals(h, done + {n})) + Writes(blobs, h, done + {n})
  {
    var before := (work - Removals(h, done)) + Writes(blobs, h, done);
    var after := (work - Removals(h, done + {n})) + Writes(blobs, h, done + {n});
    var stepped := SetFile(before, n, FileAfter(blobs, h, before, n));
    forall m ensures Entry(stepped, m) == Entry(after, m) {
      if m == n {
        if ActionOf(h, n) == Remove {
          assert n !in Writes(blobs, h, done + {n});
        }
      } else {
        assert m in Writes(blobs, h, done + {n}) <==> m in Writes(blobs, h, done);
        assert m in Removals(h, done + {n}) <==> m in Removals(h, done);
      }
    }
    SameEntries(stepped, after);
  }

  /** Two maps with the same entry for every key are equal. */
  lemma SameEntries(a: map<string, string>, b: map<string, string>)
    requires forall n :: Entry(a, n) == Entry(b, n)
    ensures a == b
  {
    assert a.Keys == b.Keys by {
      forall n ensures n in a <==> n in b {
        assert Entry(a, n).Some? == Entry(b, n).Some?;
      }
    }
    forall n | n in a ensures a[n] == b[n] {
      assert Entry(a, n) == Entry(b, n);
    }
  }

  /** The state merge starts from, as seen in the repository. */
  function View(r: Repository, staged: map<string, string>, toBeRm: set<string>, conflict: bool): MergeState
    reads r`work, r`rmStage, r`rmExists
  {
    MergeState(staged, r.work, Elems(r.rmStage), r.rmExists, toBeRm, conflict)
  }

  /** mergeConflictReplace: read the current and the given version of the
      file (empty when a side does not track it), write the conflict file
      to the working tree and return the id of a blob holding it, which is
      not stored. A missing blob object throws before anything is written. */
  method MergeConflictReplace(r: Repository, h: Sides, n: string) returns (status: Status, id: string)
    modifies r`work
    ensures status == Done <==> Stored(r.blobs, h.cur, n) && Stored(r.blobs, h.given, n)
    ensures status == Done ==>
      r.work == old(r.work)[n := ConflictFile(r.blobs, h, n)] &&
      id == BlobId(r.sha1, n, ConflictFile(r.blobs, h, n)) && BlobName(id) == n
    ensures status != Done ==> status.Crashed? && r.work == old(r.work)
  {
    id := "";
    var cur := "";
    if n in h.cur {
      if h.cur[n] !in r.blobs {
        return Crashed("blob object missing"), id;
      }
      cur := r.blobs[h.cur[n]];
    }
    var other := "";
    if n in h.given {
      if h.given[n] !in r.blobs {
        return Crashed("blob object missing"), id;
      }
      other := r.blobs[h.given[n]];
    }
    var content := ConflictText(cur, other);
    r.work := r.work[n := content];
    return Done, BlobId(r.sha1, n, content);
  }

  /** The given head's version of `n` written to the working tree (through
      checkOutFourArgs, or by reading its blob directly). The version is the
      name map's entry; for a stored commit that is the first id carrying
      the name, the one checkOutFilesOverwrite writes
      (`MergeCommand.GivenWriteIsCheckout`). */
  method WriteGivenFile(r: Repository, h: Sides, n: string) returns (status: Status)
    requires n in h.given
    modifies r`work
    ensures status == Done <==> h.given[n] in r.blobs
    ensures status == Done ==> r.work == old(r.work)[n := r.blobs[h.given[n]]]
    ensures status != Done ==> status.Crashed? && r.work == old(r.work)
  {
    if h.given[n] !in r.blobs {
      return Crashed("blob object missing");
    }
    r.work := r.work[n := r.blobs[h.given[n]]];
    return Done;
  }

  /** A name staged for removal: its line is added to the remove-stage file
      and its working file is deleted. */
  method StageRemoval(r: Repository, n: string)
    requires r.StagesValid()
    modifies r`work, r`rmExists, r`rmStage
    ensures r.StagesValid()
    ensures r.work == old(r.work) - {n}
    ensures Elems(r.rmStage) == Elems(old(r.rmStage)) + {n} && r.rmExists
  {
    r.rmStage := AddLineToFile(r.rmExists, r.rmStage, n);
    r.rmExists := true;
    r.work := r.work - {n};
  }

  /** One name of one of merge's loops: the action the decision table
      gives, carried out on the working tree, the remove-stage file and the
      stage map. Only reading a blob object that is not stored can fail. */
  method MergeName(r: Repository, h: Sides, n: string, staged: map<string, string>, toBeRm: set<string>, conflict: bool)
    returns (status: Status, staged': map<string, string>, toBeRm': set<string>, conflict': bool)
    requires r.StagesValid()
    modifies r`work, r`rmExists, r`rmStage
    ensures r.StagesValid()
    ensures status == Done <==> ReadsStored(r.blobs, h, n)
    ensures status != Done ==> status.Crashed?
    ensures status == Done ==>
      View(r, staged', toBeRm', conflict') == Step(r.sha1, r.blobs, h, old(View(r, staged, toBeRm, conflict)), n)
  {
    staged', toBeRm', conflict' := staged, toBeRm, conflict;
    DecisionTable(Entry(h.split, n), Entry(h.cur, n), Entry(h.given, n));
    match ActionOf(h, n) {
      case TakeGiven =>
        status := WriteGivenFile(r, h, n);
        if status != Done {
          return;
        }
        staged' := staged[n := h.split[n]];
      case StageGiven =>
        status := WriteGivenFile(r, h, n);
        if status != Done {
          return;
        }
        staged' := staged[n := h.given[n]];
      case Conflict =>
        var id;
        status, id := MergeConflictReplace(r, h, n);
        if status != Done {
          return;
        }
        staged', conflict' := staged[n := id], true;
      case KeepSplit =>
        staged' := staged[n := h.split[n]];
      case StageCurrent =>
        staged' := staged[n := h.cur[n]];
      case Remove =>
        StageRemoval(r, n);
        toBeRm' := toBeRm + {n};
      case Untouched =>
    }
    status := Done;
  }

  /** One of merge's three loops: every name of `keys`, in the map's
      (unmodelled) order, skipping the names of `skip`. The state it ends
      in is that of visiting, after the names visited before (`prior`),
      the names it visits (`visited`). */
  method MergeLoop(r: Repository, h: Sides, keys: set<string>, skip: set<string>, ghost st: MergeState,
                   ghost prior: seq<string>, staged: map<string, string>, toBeRm: set<string>, conflict: bool)
    returns (status: Status, staged': map<string, string>, toBeRm': set<string>, conflict': bool,
             ghost visited: seq<string>)
    requires r.StagesValid()
    requires View(r, staged, toBeRm, conflict) == Run(r.sha1, r.blobs, h, st, prior)
    modifies r`work, r`rmExists, r`rmStage
    ensures r.StagesValid()
    ensures status == Done <==> ReadableIn(r.blobs, h, keys - skip)
    ensures status != Done ==> status.Crashed?
    ensures status == Done ==>
      Elems(visited) == keys - skip &&
      View(r, staged', toBeRm', conflict') == Run(r.sha1, r.blobs, h, st, prior + visited)
  {
    staged', toBeRm', conflict' := staged, toBeRm, conflict;
    var rest := keys;
    visited := [];
    assert prior + visited == prior;
    while rest != {}
      invariant rest <= keys && r.StagesValid()
      invariant Elems(visited) == (keys - rest) - skip
      invariant ReadableIn(r.blobs, h, Elems(visited))
      invariant View(r, staged', toBeRm', conflict') == Run(r.sha1, r.blobs, h, st, prior + visited)
      decreases |rest|
    {
      var n :| n in rest;
      VisitOne(keys, skip, rest, n);
      if n !in skip {
        status, staged', toBeRm', conflict' := MergeName(r, h, n, staged', toBeRm', conflict');
        if status != Done {
          assert n in keys - skip;
          return;
        }
        ReadableAdd(r.blobs, h, Elems(visited), n);
        RunSnoc(r.sha1, r.blobs, h, st, prior, visited, n);
        visited := visited + [n];
      }
      rest := rest - {n};
    }
    status := Done;
  }

  /** Visiting one more name steps the state reached so far. */
  lemma RunSnoc(sha1: Hash, blobs: map<string, string>, h: Sides, st: MergeState, prior: seq<string>,
                names: seq<string>, n: string)
    ensures Run(sha1, blobs, h, st, prior + (names + [n])) == Step(sha1, blobs, h, Run(sha1, blobs, h, st, prior + names), n)
    ensures Elems(names + [n]) == Elems(names) + {n}
  {
    assert prior + (names + [n]) == (prior + names) + [n];
    assert ((prior + names) + [n])[..|prior + names|] == prior + names;
  }

  /** A name whose reads are stored extends a readable set. */
  lemma ReadableAdd(blobs: map<string, string>, h: Sides, names: set<string>, n: string)
    requires ReadableIn(blobs, h, names) && ReadsStored(blobs, h, n)
    ensures ReadableIn(blobs, h, names + {n})
  {
  }

  /** Taking one name off the names still to visit. */
  lemma VisitOne(keys: set<string>, skip: set<string>, rest: set<string>, n: string)
    requires n in rest && rest <= keys
    ensures n !in skip ==> (keys - (rest - {n})) - skip == ((keys - rest) - skip) + {n}
    ensures n in skip ==> (keys - (rest - {n})) - skip == (keys - rest) - skip
  {
  }

  /** removeSetFromMap: every key of the set is removed from the map. */
  method RemoveSetFromMap(m: map<string, string>, s: set<string>) returns (m': map<string, string>)
    ensures m' == m - s
    ensures forall k :: k in s ==> k !in m'
    ensures forall k :: k in m && k !in s ==> k in m' && m'[k] == m[k]
  {
    m' := m;
    var rest := s;
    while rest != {}
      invariant rest <= s
      invariant m' == m - (s - rest)
      decreases |rest|
    {
      var k :| k in rest;
      if k in m' {
        m' := m' - {k};
      }
      rest := rest - {k};
      assert m' == m - (s - rest);
    }
  }

  /** Names outside the three commits are left alone. */
  lemma OutsideUntouched(h: Sides, n: string)
    requires n !in AllNames(h)
    ensures ActionOf(h, n) == Untouched
  {
  }

  /** Merge's reads split along its loops: the names only the current head
      tracks read nothing, so the split point's names and the given head's
      other names are all that can fail. */
  lemma ReadableParts(blobs: map<string, string>, h: Sides)
    ensures ReadableIn(blobs, h, h.cur.Keys - (h.split.Keys + h.given.Keys))
    ensures Readable(blobs, h) <==>
      ReadableIn(blobs, h, h.split.Keys) && ReadableIn(blobs, h, h.given.Keys - h.split.Keys)
  {
    forall n | n in h.cur.Keys - (h.split.Keys + h.given.Keys)
      ensures ReadsStored(blobs, h, n)
    {
      assert ActionOf(h, n) == StageCurrent;
    }
  }

  /** The three loops of merge, from the stage map read from the add-stage
      file (`base`): they end in the closed form of every name. */
  method MergeAll(r: Repository, h: Sides, base: map<string, string>)
    returns (status: Status, staged: map<string, string>, toBeRm: set<string>, conflict: bool)
    requires r.StagesValid()
    modifies r`work, r`rmExists, r`rmStage
    ensures r.StagesValid()
    ensures status == Done <==> Readable(r.blobs, h)
    ensures status != Done ==> status.Crashed?
    ensures status == Done ==>
      View(r, staged, toBeRm, conflict) == Closed(r.sha1, r.blobs, h, old(View(r, base, {}, false)), AllNames(h))
  {
    ghost var st := View(r, base, {}, false);
    ReadableParts(r.blobs, h);
    staged, toBeRm, conflict := base, {}, false;
    ghost var names1, names2, names3;
    status, staged, toBeRm, conflict, names1 := MergeLoop(r, h, h.split.Keys, {}, st, [], staged, toBeRm, conflict);
    if status != Done {
      return;
    }
    assert [] + names1 == names1;
    status, staged, toBeRm, conflict, names2 :=
      MergeLoop(r, h, h.cur.Keys, h.split.Keys + h.given.Keys, st, names1, staged, toBeRm, conflict);
    status, staged, toBeRm, conflict, names3 :=
      MergeLoop(r, h, h.given.Keys, h.split.Keys, st, names1 + names2, staged, toBeRm, conflict);
    if status != Done {
      return;
    }
    AllVisited(r.sha1, r.blobs, h, st, names1, names2, names3);
  }

  /** The three loops together visit every name of the three commits, so
      they end in the closed form of all of them. */
  lemma AllVisited(sha1: Hash, blobs: map<string, string>, h: Sides, st: MergeState,
                   names1: seq<string>, names2: seq<string>, names3: seq<string>)
    requires Elems(names1) == h.split.Keys
    requires Elems(names2) == h.cur.Keys - (h.split.Keys + h.given.Keys)
    requires Elems(names3) == h.given.Keys - h.split.Keys
    ensures Run(sha1, blobs, h, st, names1 + names2 + names3) == Closed(sha1, blobs, h, st, AllNames(h))
  {
    ClosedEmpty(sha1, blobs, h, st);
    RunClosed(sha1, blobs, h, st, {}, names1 + names2 + names3);
    NamesCovered(h, names1, names2, names3);
  }

  /** The names of the three loops make up every name of the three commits. */
  lemma NamesCovered(h: Sides, names1: seq<string>, names2: seq<string>, names3: seq<string>)
    requires Elems(names1) == h.split.Keys
    requires Elems(names2) == h.cur.Keys - (h.split.Keys + h.given.Keys)
    requires Elems(names3) == h.given.Keys - h.split.Keys
    ensures {} + Elems(names1 + names2 + names3) == AllNames(h)
  {
    assert Elems(names1 + names2 + names3) == Elems(names1) + Elems(names2) + Elems(names3);
  }

  /** merge: the three loops, then the names staged for removal are dropped
      from the stage map and its ids are written as the add-stage file. The
      outcome is the closed form of every name, from the add stage, working
      tree and remove stage merge started with. */
  method Merge(r: Repository, h: Sides) returns (status: Status, conflict: bool)
    requires r.StagesValid()
    modifies r`work, r`addExists, r`addStage, r`rmExists, r`rmStage
    ensures r.StagesValid()
    ensures r.branches == old(r.branches) && r.current == old(r.current) && r.commits == old(r.commits)
    ensures status == Done <==> Readable(r.blobs, h)
    ensures status != Done ==> status.Crashed? && r.addExists == old(r.addExists) && r.addStage == old(r.addStage)
    ensures status == Done ==>
      var start := MergeState(NameMap(old(r.addStage)), old(r.work), Elems(old(r.rmStage)), old(r.rmExists), {}, false);
      var after := Closed(r.sha1, r.blobs, h, start, AllNames(h));
      r.work == after.work && Elems(r.rmStage) == after.rm && r.rmExists == after.rmExists &&
      conflict == after.conflict &&
      r.addExists && Elems(r.addStage) == (after.staged - after.toBeRm).Values
  {
    conflict := false;
    var base := GetBlobsNameMapId(r.addStage);
    var staged, toBeRm, hit;
    status, staged, toBeRm, hit := MergeAll(r, h, base);
    if status != Done {
      return;
    }
    staged := RemoveSetFromMap(staged, toBeRm);
    var lines := ValueLines(staged);
    r.addExists, r.addStage := true, lines;
    conflict := hit;
  }

  /** Every id merge stages carries its name, when the three sides and the
      add stage it starts from do: a staged id is taken from one of those
      maps, or is the conflict blob made under the name. */
  lemma StagedCarriesKeys(sha1: Hash, blobs: map<string, string>, h: Sides, st: MergeState, names: set<string>)
    requires SidesCarryKeys(h) && CarriesKeys(st.staged)
    ensures var after := Closed(sha1, blobs, h, st, names);
      CarriesKeys(after.staged - after.toBeRm)
  {
    var puts := Puts(sha1, blobs, h, names);
    forall n | n in puts
      ensures BlobName(puts[n]) == n
    {
      if ActionOf(h, n) == Conflict {
        var id := BlobId(sha1, n, ConflictFile(blobs, h, n));
        assert puts[n] == id;
      }
    }
  }

  /** The add stage merge writes holds one id per name. */
  lemma MergedStageDistinct(sha1: Hash, blobs: map<string, string>, h: Sides, st: MergeState, lines: seq<string>)
    requires SidesCarryKeys(h) && CarriesKeys(st.staged)
    requires var after := Closed(sha1, blobs, h, st, AllNames(h));
      Elems(lines) == (after.staged - after.toBeRm).Values
    ensures OneIdPerName(lines)
  {
    var after := Closed(sha1, blobs, h, st, AllNames(h));
    StagedCarriesKeys(sha1, blobs, h, st, AllNames(h));
    ValuesDistinct(after.staged - after.toBeRm);
    OneIdPerNameDistinct(lines);
  }

  /** In the closed form, a visited file is as the decision table leaves
      it and any other file is as it was. */
  lemma ClosedFiles(sha1: Hash, blobs: map<string, string>, h: Sides, st: MergeState, names: set<string>, n: string)
    ensures Entry(Closed(sha1, blobs, h, st, names).work, n) ==
      if n in names then FileAfter(blobs, h, st.work, n) else Entry(st.work, n)
  {
    var removed, writes := Removals(h, names), Writes(blobs, h, names);
    assert Closed(sha1, blobs, h, st, names).work == (st.work - removed) + writes;
    if n in names {
      if ActionOf(h, n) == Remove {
        assert n in removed && n !in writes;
      } else if WriteOf(blobs, h, n).Some? {
        assert n in writes && writes[n] == WriteOf(blobs, h, n).value;
      } else {
        assert n !in removed && n !in writes;
      }
    } else {
      assert n !in writes && n !in removed;
    }
  }

  /** In the closed form, the stage map with the removed names dropped holds
      for a visited name the entry the decision table gives, and for any
      other name the entry it had. */
  lemma ClosedStage(sha1: Hash, blobs: map<string, string>, h: Sides, st: MergeState, names: set<string>, n: string)
    requires st.toBeRm == {}
    ensures var after := Closed(sha1, blobs, h, st, names);
      Entry(after.staged - after.toBeRm, n) ==
      if n in names then StagedEntry(sha1, blobs, h, st.staged, n) else Entry(st.staged, n)
  {
    var after := Closed(sha1, blobs, h, st, names);
    if n in names {
      if ActionOf(h, n) == Remove {
        assert n in after.toBeRm;
      } else {
        assert n !in after.toBeRm;
        assert n in Puts(sha1, blobs, h, names) <==> PutId(sha1, blobs, h, n).Some?;
      }
    } else {
      assert n !in after.toBeRm && n !in Puts(sha1, blobs, h, names);
    }
  }
}
