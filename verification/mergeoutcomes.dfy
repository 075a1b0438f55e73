/** What merge leaves for one file name, stated over the three name-to-id
    maps themselves: the file in the working tree and the entry of the add
    stage, case by case. Together with MergeEngine.ClosedFiles and
    MergeEngine.ClosedStage these describe the result of MergeEngine.Merge
    for every name the three commits track. */
module MergeOutcomes {
  import opened Objects
  import opened MergeEngine

  /** A file changed only in the given head is written with the given
      head's version, and the add stage receives the split-point id. */
  lemma ChangedOnlyInGiven(sha1: Hash, blobs: map<string, string>, h: Sides,
                           work: map<string, string>, base: map<string, string>, n: string)
    requires n in h.split && n in h.cur && n in h.given
    requires h.cur[n] == h.split[n] && h.given[n] != h.split[n]
    ensures FileAfter(blobs, h, work, n) == Some(Text(blobs, h.given[n]))
    ensures StagedEntry(sha1, blobs, h, base, n) == Some(h.split[n])
    ensures ActionOf(h, n) != Conflict
  {
    DecisionTable(Entry(h.split, n), Entry(h.cur, n), Entry(h.given, n));
  }

  /** A file changed only in the current head is left as it is, and its
      add-stage entry is whatever it was. */
  lemma ChangedOnlyInCurrent(sha1: Hash, blobs: map<string, string>, h: Sides,
                             work: map<string, string>, base: map<string, string>, n: string)
    requires n in h.split && n in h.cur && n in h.given
    requires h.given[n] == h.split[n] && h.cur[n] != h.split[n]
    ensures FileAfter(blobs, h, work, n) == Entry(work, n)
    ensures StagedEntry(sha1, blobs, h, base, n) == Entry(base, n)
    ensures ActionOf(h, n) != Conflict
  {
    DecisionTable(Entry(h.split, n), Entry(h.cur, n), Entry(h.given, n));
  }

  /** Both heads hold the same version: the file is left as it is and the
      add stage receives the split-point id. */
  lemma BothAgree(sha1: Hash, blobs: map<string, string>, h: Sides,
                  work: map<string, string>, base: map<string, string>, n: string)
    requires n in h.split && n in h.cur && n in h.given
    requires h.cur[n] == h.given[n]
    ensures FileAfter(blobs, h, work, n) == Entry(work, n)
    ensures StagedEntry(sha1, blobs, h, base, n) == Some(h.split[n])
    ensures ActionOf(h, n) != Conflict
  {
    DecisionTable(Entry(h.split, n), Entry(h.cur, n), Entry(h.given, n));
  }

  /** The name ends in a conflict exactly when both heads changed it in
      different ways (one of the changes possibly a deletion) or both added
      it with different versions. */
  lemma ConflictCases(h: Sides, n: string)
    ensures ActionOf(h, n) == Conflict <==>
      (n in h.split &&
        ((n in h.cur && n in h.given && h.cur[n] != h.split[n] && h.given[n] != h.split[n] && h.cur[n] != h.given[n]) ||
         (n in h.cur && n !in h.given && h.cur[n] != h.split[n]) ||
         (n !in h.cur && n in h.given && h.given[n] != h.split[n]))) ||
      (n !in h.split && n in h.cur && n in h.given && h.cur[n] != h.given[n])
  {
    DecisionTable(Entry(h.split, n), Entry(h.cur, n), Entry(h.given, n));
  }

  /** A conflicting name gets the conflict file, holding the current head's
      version (empty when deleted) above the given head's, and the add
      stage receives the id of that file. */
  lemma ConflictWritten(sha1: Hash, blobs: map<string, string>, h: Sides,
                        work: map<string, string>, base: map<string, string>, n: string)
    requires ActionOf(h, n) == Conflict
    ensures var text := ConflictText(SideText(blobs, h.cur, n), SideText(blobs, h.given, n));
      FileAfter(blobs, h, work, n) == Some(text) &&
      StagedEntry(sha1, blobs, h, base, n) == Some(n + sha1(text))
    ensures HasConflict(h)
  {
    assert n in AllNames(h) by {
      DecisionTable(Entry(h.split, n), Entry(h.cur, n), Entry(h.given, n));
    }
  }

  /** A name one head deleted while the other kept the split-point version
      is deleted from the working tree, staged for removal, and has no entry
      left in the add stage. */
  lemma Deleted(sha1: Hash, blobs: map<string, string>, h: Sides,
                work: map<string, string>, base: map<string, string>, n: string)
    requires n in h.split
    requires (n in h.cur && h.cur[n] == h.split[n] && n !in h.given) ||
             (n !in h.cur && n in h.given && h.given[n] == h.split[n])
    ensures FileAfter(blobs, h, work, n).None?
    ensures StagedEntry(sha1, blobs, h, base, n).None?
    ensures n in Removals(h, AllNames(h))
  {
    DecisionTable(Entry(h.split, n), Entry(h.cur, n), Entry(h.given, n));
  }

  /** A name deleted in both heads is left alone. */
  lemma DeletedInBoth(sha1: Hash, blobs: map<string, string>, h: Sides,
                      work: map<string, string>, base: map<string, string>, n: string)
    requires n !in h.cur && n !in h.given
    ensures FileAfter(blobs, h, work, n) == Entry(work, n)
    ensures StagedEntry(sha1, blobs, h, base, n) == Entry(base, n)
    ensures n !in Removals(h, AllNames(h))
  {
    DecisionTable(Entry(h.split, n), Entry(h.cur, n), Entry(h.given, n));
  }

  /** A name only the current head tracks is staged with the current
      head's id; its file is left as it is. */
  lemma AddedInCurrent(sha1: Hash, blobs: map<string, string>, h: Sides,
                       work: map<string, string>, base: map<string, string>, n: string)
    requires n !in h.split && n in h.cur && n !in h.given
    ensures FileAfter(blobs, h, work, n) == Entry(work, n)
    ensures StagedEntry(sha1, blobs, h, base, n) == Some(h.cur[n])
  {
    DecisionTable(Entry(h.split, n), Entry(h.cur, n), Entry(h.given, n));
  }

  /** A name only the given head tracks is written with the given head's
      version and staged with the given head's id. */
  lemma AddedInGiven(sha1: Hash, blobs: map<string, string>, h: Sides,
                     work: map<string, string>, base: map<string, string>, n: string)
    requires n !in h.split && n !in h.cur && n in h.given
    ensures FileAfter(blobs, h, work, n) == Some(Text(blobs, h.given[n]))
    ensures StagedEntry(sha1, blobs, h, base, n) == Some(h.given[n])
  {
    DecisionTable(Entry(h.split, n), Entry(h.cur, n), Entry(h.given, n));
  }

  /** A name both heads added with the same version is left alone: its
      file stays as it is, it gets no add-stage entry of its own and no
      removal mark, so the merge commit does not track it. */
  lemma AddedInBothAlike(sha1: Hash, blobs: map<string, string>, h: Sides,
                         work: map<string, string>, base: map<string, string>, n: string)
    requires n !in h.split && n in h.cur && n in h.given && h.cur[n] == h.given[n]
    ensures FileAfter(blobs, h, work, n) == Entry(work, n)
    ensures StagedEntry(sha1, blobs, h, base, n) == Entry(base, n)
    ensures n !in Removals(h, AllNames(h))
    ensures ActionOf(h, n) != Conflict
  {
    DecisionTable(Entry(h.split, n), Entry(h.cur, n), Entry(h.given, n));
  }
}
