# gitlet: a verified model of the version-control core

gitlet is a small clone of git. Each command reads a handful of flat files
under `.gitlet`, changes them, and writes them back. These are:

- the branch registry, one `name:uid` line per branch;
- the current-branch file;
- the add stage, one blob id per line;
- the remove stage, one file name per line;
- the object directory, holding blobs and commits.

This project models that state machine in Dafny. The state is held in one
object, `Repo.Repository`, whose fields are:

- the working tree: file name to content;
- the blob store: blob id to content;
- the commit store: UID to commit;
- the registry lines, in file order;
- the current branch;
- for each stage file, whether it exists and its lines.

Every command is a module-level method that takes that object and changes
its fields, with guards that end it with one
of the source's own messages (`Status.Failed`). Some inputs make the Java
code throw an unchecked exception instead, such as a missing stage file or a
blob object that is not stored. Those end in `Status.Crashed`.

Every command keeps the invariant `Repository.Valid()`:

- the current branch is registered;
- branch names are unique;
- every head and every parent is a stored commit;
- commits are keyed by 40-character UIDs;
- every commit holds one version of each file it tracks: no two of its
  blob ids carry the same file name;
- a stage file that does not exist has no lines.

The modules follow the source:

- `Objects` holds commits and ids, and the contracts of the helpers of the
  commit and blob classes.
- `Files` covers files read as lines and re-joined HashSets.
- `Branches` covers the registry lookups and `updateHeadOfBranch`.
- `Tracking` holds the blob-name maps and the untracked-file guard.
- `Repo` holds the repository object.
- `StageCommands` covers add, commit and rm.
- `BranchCommands` covers branch and rm-branch.
- `Checkout` covers `checkOutFilesOverwrite` and `revertFileToCommit`.
- `CheckoutCommands` covers the checkout forms, reset and find.
- `MergeEngine` and `MergeOutcomes` cover `merge`, `mergeConflictReplace`
  and `removeSetFromMap`. `MergeEngine` holds the per-name decision table,
  the three loops, and their closed form over the set of names. The result
  is independent of HashMap iteration order.
- `SplitPoint` covers the breadth-first `getSplitPoint`.
- `MergeCommand` covers the merge command.

Several behaviours are kept as the code has them:

- When `doAdd` meets a version the head already holds, it removes the FILE
  NAME from the set of staged blob ids. That removal takes out none of this
  file's staged versions (`AddKeepsStaleVersion`).
- `doAdd` does not overwrite a version of the file staged earlier: the new
  id joins the add stage beside the old one (`AddKeepsEarlierVersion`).
  The commit command then keeps, for each name, the entry of the add stage's name map,
  the last staged id carrying it in the file's order, which may be the
  stale version.
- Merge writes a file from the given head's name map, which keeps the last
  id carrying the name, while `checkOutFilesOverwrite` writes the first. As
  every stored commit holds one id per name, the two are the same
  (`GivenWriteIsCheckout`).
- The untracked-file guard compares a target blob id with the file's
  CONTENT (`IdenticalFileInTheWay`).
- In a merge, a file changed only in the given branch, and a file both sides
  agree on, are staged with the SPLIT POINT's blob id.
- The merge commit holds only the add stage that merge writes. A file only
  the current head changed, or one both heads added with the same version,
  is therefore not in it (`ChangedOnlyInCurrent`, `AddedInBothAlike`).
- The fast-forward case of `getSplitPoint` calls `updateHeadOfBranch` on the
  GIVEN branch with that branch's own head. The registry comes out
  unchanged, and the current branch's head does not move.
- The merge guard reads the add-stage file a second time, in place of the
  remove-stage file. With a remove stage and no add stage, that read
  throws.
- The split point is the first already-discovered parent met by the walk
  from either tip. The walk is defined step by step as a function
  (`SplitPoint.Walk`), the method is proved to return what it finds, and
  every outcome of merge is stated in terms of that result
  (`MergeCommand.SplitDecided`). The split point is proved to be an ancestor
  of one of the tips. It is not proved to be a common ancestor.

## Model

| member | source | states |
|---|---|---|
| Objects.BlobId | gitlet/MainUtils.java:457 | a blob id is the file name followed by a 40-character digest, and the name can be read back from the id |
| Objects.RecoverUid | gitlet/Command.java:335-337 | an abbreviated id resolves to some stored UID it is a prefix of, and to nothing exactly when no stored UID starts with it |
| Files.ToLines | gitlet/MainUtils.java:124-126 | joining a set writes every element exactly once |
| Files.AddLineToFile | gitlet/MainUtils.java:120-128 | a missing file is created with the one line; an existing file holds its old lines plus the new one, each once |
| Files.ValueLines | gitlet/Command.java:146-147 | the lines written are exactly the map's values |
| Branches.HeadOf | gitlet/MainUtils.java:51-61 | an unregistered branch has the empty head; a registered branch's head is the id on a line naming it |
| Branches.WithHead | gitlet/MainUtils.java:104-113 | the rewrite keeps the length and every name, and changes only the head of a line naming the branch |
| Branches.WithHeadAt | gitlet/MainUtils.java:105-111 | exactly the first line naming the branch is rewritten |
| Branches.WithHeadUnlisted | gitlet/MainUtils.java:105-113 | updating an unregistered branch leaves the registry unchanged |
| Branches.WithHeadNames | gitlet/MainUtils.java:108-109 | the update keeps the set of registered names and their uniqueness |
| Branches.WithSameHead | gitlet/MainUtils.java:432 | setting a branch's head to the head it has changes nothing |
| Branches.HeadAfterUpdate | gitlet/MainUtils.java:100-114 | after the update the branch's head is the new UID, and every other branch keeps its registration and head |
| Branches.HeadMoved | gitlet/MainUtils.java:108-110 | after the update a registered branch's head is the new UID |
| Branches.GetBranchHeadId | gitlet/MainUtils.java:51-61 | the loop returns the branch's head, or "" when no line names it |
| Branches.GetCurrentBranchAndHeadId | gitlet/MainUtils.java:65-76 | the current branch's line is found exactly when the branch is registered, and holds its head |
| Branches.HasBranch | gitlet/MainUtils.java:148-156 | true exactly when some line names the branch |
| Branches.UpdateHeadOfBranch | gitlet/MainUtils.java:100-114 | the in-place array rewrite yields the registry with the branch's head set to the id, cut to its UID when it carries the prefix |
| Branches.HeadOfLine | gitlet/MainUtils.java:54-58 | with unique names, the head of a registered line's branch is that line's id |
| Branches.AddKeepsUniqueNames | gitlet/Command.java:391-397 | adding a line for an unregistered name, in any order, keeps names unique and registers exactly one more name |
| Branches.RemoveKeepsUniqueNames | gitlet/Command.java:412-422 | dropping a line, in any order, keeps names unique and unregisters exactly that name |
| Tracking.NameMap | gitlet/MainUtils.java:354-360 | the map's keys are the names the ids track, and each entry is an id carrying that name |
| Tracking.NameMapLast | gitlet/MainUtils.java:356-358 | a name's entry is the last id in the list that carries it |
| Tracking.OneIdPerNameDistinct | gitlet/MainUtils.java:354-360 | every id of a list is its name's entry in the name map exactly when no two different ids of the list share a file name |
| Tracking.ValuesDistinct | gitlet/MainUtils.java:354-360 | the ids of a map keyed by the names they carry, as the name maps are, never share a name |
| Tracking.GetBlobsNameMapId | gitlet/MainUtils.java:354-360 | the put loop builds the name-to-id map |
| Tracking.HasFile | gitlet/MainUtils.java:159-167 | true exactly when some blob id of the commit carries the file name |
| Tracking.HasUntrackedFiles | gitlet/MainUtils.java:300-321 | true exactly when some working file is neither `.gitlet` nor staged nor tracked, and, given a target map, the target tracks it with an id different from its content |
| Tracking.UntrackedFilesName | gitlet/MainUtils.java:328-350 | lists exactly the working files in the way, each once |
| Tracking.IdenticalFileInTheWay | gitlet/MainUtils.java:313-316 | an untracked file whose content IS the target's version is still reported in the way |
| Repo.InitialGraph | gitlet/Command.java:39-42 | the registry `master:uid` at a parentless root commit is consistent |
| Repo.Repository.HeadId | gitlet/MainUtils.java:65-76 | the current branch's head is a stored commit |
| Repo.Repository.Init | gitlet/Command.java:35-43 | init stores one root commit under its UID, registers only `master` at it, makes `master` current and creates no stage file |
| Repo.MoveHead | gitlet/MainUtils.java:100-114 | the registry file is rewritten with the head set, and stays consistent when the UID is stored |
| Repo.StoreKeepsGraph | gitlet/Command.java:121-123 | storing a commit whose parents are stored keeps registry and store consistent |
| Repo.HeadMovedConsistent | gitlet/Command.java:444 | moving the current head to a stored commit keeps registry and store consistent and makes it the head |
| Repo.WriteCommit | gitlet/Command.java:121-123 | a new commit object is stored under the UID of its id, and nothing else in the store changes |
| Repo.ReadHead | gitlet/Command.java:111-112 | yields the current branch's line and its head commit |
| Repo.CommitOnCurrent | gitlet/Command.java:121-124 | the commit is stored and the current branch's head moves to its UID |
| Repo.ClearStages | gitlet/Command.java:125-130 | both stage files are gone, and the registry and store are untouched |
| StageCommands.AddIdempotent | gitlet/Command.java:69-80 | a version the head lacks ends up staged, and staging the same file again changes nothing |
| StageCommands.AddKeepsStaleVersion | gitlet/Command.java:72-76 | when the head holds the version, a previously staged version of the file stays staged, because only the bare name is removed |
| StageCommands.AddKeepsEarlierVersion | gitlet/Command.java:63-80 | adding a version the head lacks keeps every staged id, including an earlier version of the same file, and stages the new id beside it |
| StageCommands.StageAddition | gitlet/Command.java:63-80 | a removal mark is dropped and nothing else; otherwise the add stage changes as the staging rule says; only the changed file is rewritten |
| StageCommands.DoAdd | gitlet/Command.java:56-81 | a missing file fails with "File does not exist." and changes nothing; otherwise the blob is stored and the stages change as the staging rule says |
| StageCommands.CommitSnapshot | gitlet/Command.java:113-120 | in the new snapshot, a staged name has exactly its staged id, a name only marked for removal is gone, and any other name is as in the head |
| StageCommands.CollectBlobs | gitlet/Command.java:106-120 | the loop collects the head's ids whose name is neither staged nor marked, plus every staged id, each once |
| StageCommands.SnapshotIds | gitlet/Command.java:108-120 | the new commit's ids are the snapshot of the head and the two stages, each once and one per file name |
| StageCommands.CommitBlobsDistinct | gitlet/Command.java:113-120 | a snapshot built from a head with one id per name and a name-keyed add stage holds one id per name |
| StageCommands.DoCommit | gitlet/Command.java:96-131 | fails with "No changes added to the commit." when neither stage file exists, and with "Please enter a commit message." on an empty or `\s` message; otherwise stores a commit of the snapshot with the old head as parent, moves the current head to it, and clears both stages |
| StageCommands.Unstage | gitlet/Command.java:141-148 | a staged name is dropped from the add stage, whose lines become the remaining entries |
| StageCommands.MarkTracked | gitlet/Command.java:149-157 | the loop over the head's ids marks the name for removal and deletes its working file exactly when some id carries the name, and otherwise changes nothing |
| StageCommands.RemoveTracked | gitlet/Command.java:149-157 | a name the head tracks is marked for removal and its working file deleted; otherwise nothing changes |
| StageCommands.DoRm | gitlet/Command.java:138-161 | fails with "No reason to remove the file." exactly when the name is neither staged nor tracked; otherwise unstages it, and marks and deletes it when tracked |
| BranchCommands.RegistryRewritten | gitlet/Command.java:412-422 | a rewritten registry with unique names, holding the current branch and only old or stored heads, is consistent |
| BranchCommands.RegistryAdded | gitlet/Command.java:389-398 | the registry after branch is consistent, gives the new branch the head, and keeps every other branch as it was |
| BranchCommands.DoBranch | gitlet/Command.java:389-398 | fails on a registered name; otherwise registers the name at the current head and changes no other branch |
| BranchCommands.FindLine | gitlet/Command.java:412-417 | finds a line naming the branch, or reports that none does |
| BranchCommands.RegistryRemoved | gitlet/Command.java:412-422 | the registry without the branch's line is consistent and keeps every other branch's head |
| BranchCommands.RemoveBranchLine | gitlet/Command.java:406-423 | refuses the current branch, then an unregistered name; otherwise drops exactly that branch's line |
| BranchCommands.DoRmBranch | gitlet/Command.java:404-424 | rm-branch rewrites the registry as RemoveBranchLine says, and leaves it unchanged when refused |
| Checkout.Snapshot | gitlet/MainUtils.java:178-193 | a commit's files are exactly the names its ids track |
| Checkout.WriteAllOverlays | gitlet/MainUtils.java:188-191 | writing every blob in order overlays the commit's files on the working tree |
| Checkout.Pruned | gitlet/MainUtils.java:214-219 | the deletion pass only removes files |
| Checkout.RevertedFiles | gitlet/MainUtils.java:203-227 | after a revert a file holds the target's version when the target tracks it, is gone when only the head tracks it, and is untouched otherwise |
| Checkout.CheckOutFilesOverwrite | gitlet/MainUtils.java:178-193 | with an empty name every file of the commit is written; with a name, the first blob carrying it is written and the loop stops; a missing blob object crashes |
| Checkout.DeleteUntrackedByTarget | gitlet/MainUtils.java:210-219 | deletes exactly the files the head tracks and the target does not |
| Checkout.Restore | gitlet/MainUtils.java:210-226 | done exactly when the target's blobs are stored; then the working tree is reverted and both stages cleared |
| Checkout.RevertFileToCommit | gitlet/MainUtils.java:203-227 | refuses, changing nothing, when an untracked file is in the way; otherwise reverts the working tree to the target and clears both stages |
| CheckoutCommands.LookUpCommit | gitlet/Command.java:334-341 | finds a stored commit the operand names, by full id or by prefix, and finds none exactly when no stored commit matches |
| CheckoutCommands.CheckOutBranch | gitlet/Command.java:284-297 | fails on an unknown branch and on the current branch, changing nothing; otherwise reverts to the branch's head and makes it current, or is refused by an untracked file with nothing changed |
| CheckoutCommands.SwitchTo | gitlet/Command.java:292-293 | reverts the working tree to the branch's head, then makes the branch current |
| CheckoutCommands.CurrentSwitched | gitlet/Command.java:293 | making another registered branch current keeps the registry consistent |
| CheckoutCommands.SwitchBranch | gitlet/Command.java:293 | only the current-branch file changes |
| CheckoutCommands.CheckOutFile | gitlet/Command.java:306-320 | a wrong separator fails with "Incorrect operands."; a file the head lacks fails with "File does not exist in that commit."; otherwise the head's version is written and the stages are untouched |
| CheckoutCommands.CheckedOutFileHoldsVersion | gitlet/Command.java:316 | for a commit holding one id per name, as every stored commit does, checking out one file writes exactly the commit's version of it |
| CheckoutCommands.CheckOutFileAt | gitlet/Command.java:329-349 | a wrong separator fails; an operand that names no commit fails with "No commit with that id exists."; then as checkout of one file from that commit |
| CheckoutCommands.DoReset | gitlet/Command.java:433-445 | an unresolvable id fails, changing nothing; otherwise reverts to that commit, moves the current head to it and clears the stages, or is refused by an untracked file with nothing changed |
| CheckoutCommands.ResetTo | gitlet/Command.java:443-444 | reverts the working tree, then moves the current branch's head |
| CheckoutCommands.ResetHead | gitlet/Command.java:444 | the current branch's head becomes the commit and no other branch moves |
| CheckoutCommands.DoFind | gitlet/Command.java:222-237 | yields each stored commit with exactly the message once, and fails with "Found no commit with that message." exactly when there is none |
| MergeEngine.DecisionTable | gitlet/MainUtils.java:471-519 | the action merge takes for a name, in closed form over its id at the split point, the current head and the given head |
| MergeEngine.RunClosed | gitlet/MainUtils.java:471-519 | visiting names in any order, even with repeats, gives the state for the set of names visited |
| MergeEngine.ClosedStep | gitlet/MainUtils.java:471-519 | visiting one more name steps the closed form |
| MergeEngine.MergeConflictReplace | gitlet/MainUtils.java:443-458 | writes `<<<<<<< HEAD\n` + current + `=======\n` + given + `>>>>>>>\n`, with "" for an absent side, and returns the name followed by its hash |
| MergeEngine.WriteGivenFile | gitlet/MainUtils.java:481-482 | the given head's version of the file is written to the working tree |
| MergeEngine.StageRemoval | gitlet/MainUtils.java:496-498 | the name is marked for removal and its working file deleted |
| MergeEngine.MergeName | gitlet/MainUtils.java:471-519 | one name is handled as the decision table says, or the step crashes exactly when a blob object it reads is missing |
| MergeEngine.MergeLoop | gitlet/MainUtils.java:471-500 | one loop steps the state once per name, in any order |
| MergeEngine.RemoveSetFromMap | gitlet/MainUtils.java:529-537 | no key of the set remains, and every other key keeps its value |
| MergeEngine.OutsideUntouched | gitlet/MainUtils.java:465-519 | names no commit tracks are left alone |
| MergeEngine.ReadableParts | gitlet/MainUtils.java:501-519 | merge's blob reads split along its three loops |
| MergeEngine.MergeAll | gitlet/MainUtils.java:467-519 | the three loops give the closed form over every name, or crash exactly when a read blob is missing |
| MergeEngine.AllVisited | gitlet/MainUtils.java:471-519 | the three loops together visit every name of the three commits |
| MergeEngine.NamesCovered | gitlet/MainUtils.java:471-519 | the loops' key sets make up all names of the three commits |
| MergeEngine.Merge | gitlet/MainUtils.java:465-525 | done exactly when every read blob is stored; then the working tree, the conflict flag and the written add stage are the closed form with the removed names dropped |
| MergeEngine.ClosedFiles | gitlet/MainUtils.java:471-519 | each visited working file is as its name's action leaves it |
| MergeEngine.StagedCarriesKeys | gitlet/MainUtils.java:471-521 | every staged entry merge leaves, removed names dropped, is an id carrying its name, including the conflict file's id |
| MergeEngine.MergedStageDistinct | gitlet/MainUtils.java:520-521 | the add stage merge writes holds one id per file name, so the merge commit keeps the invariant |
| MergeEngine.ClosedStage | gitlet/MainUtils.java:520-521 | the staged map, with removed names dropped, holds each name's staged entry |
| MergeOutcomes.ChangedOnlyInGiven | gitlet/MainUtils.java:479-483 | a file changed only in the given head is written from it and staged with the split point's id, without a conflict |
| MergeOutcomes.ChangedOnlyInCurrent | gitlet/MainUtils.java:471-500 | a file changed only in the current head is left alone and not staged |
| MergeOutcomes.BothAgree | gitlet/MainUtils.java:490-492 | a file both heads hold alike is left alone and staged with the split point's id |
| MergeOutcomes.ConflictCases | gitlet/MainUtils.java:484-512 | a conflict arises exactly for both-modified-differently, modified-versus-deleted either way, and both-added-differently |
| MergeOutcomes.ConflictWritten | gitlet/MainUtils.java:443-458 | a conflicting name gets the conflict file, staged under its hash, and sets the conflict flag |
| MergeOutcomes.Deleted | gitlet/MainUtils.java:493-499 | a file deleted on one side and unchanged on the other is deleted, marked for removal, and absent from the staged map |
| MergeOutcomes.DeletedInBoth | gitlet/MainUtils.java:471-500 | a file deleted in both heads is left alone |
| MergeOutcomes.AddedInCurrent | gitlet/MainUtils.java:501-505 | a file only the current head has is staged with its id |
| MergeOutcomes.AddedInGiven | gitlet/MainUtils.java:513-518 | a file only the given head has is written from it and staged with its id |
| MergeOutcomes.AddedInBothAlike | gitlet/MainUtils.java:501-518 | a file absent at the split point that both heads added with the same version is left alone: not written, not staged, not marked for removal, and no conflict |
| SplitPoint.VisitStep | gitlet/MainUtils.java:400-426 | one parent visit: a parent already discovered is the split point and changes nothing; otherwise the state stays well formed, the discovered set only grows, and the queue only changes when it grows |
| SplitPoint.Visits | gitlet/MainUtils.java:400-426 | the two parent visits of a popped entry stop at the first split point, which is stored, and otherwise keep the state well formed and growing |
| SplitPoint.Walk | gitlet/MainUtils.java:392-427 | the walk terminates, since each turn discovers a stored commit or shortens the queue, and the split point it finds is a stored commit |
| SplitPoint.WalkPop | gitlet/MainUtils.java:392-427 | a turn of the outer loop: the walk's result is the first entry's parent hit, or else the walk from the state that turn leaves |
| SplitPoint.FoundSplit | gitlet/MainUtils.java:382-427 | the split point found from both tips queued and discovered, with nothing deferred, is a stored commit |
| SplitPoint.VisitParent | gitlet/MainUtils.java:400-426 | the method's visit returns exactly what VisitStep gives; a hit is a parent of the popped commit; otherwise the discovered commits stay ancestors of a tip |
| SplitPoint.VisitParents | gitlet/MainUtils.java:398-426 | the inner loop returns exactly what Visits gives for the popped entry, and keeps the walk's invariant |
| SplitPoint.SplitPointSearch | gitlet/MainUtils.java:382-427 | returns exactly FoundSplit for the two tips; every discovered commit is an ancestor of a tip; a split point found is a discovered parent of a discovered commit |
| SplitPoint.FastForward | gitlet/MainUtils.java:430-433 | reverts the working tree to the given head and leaves the registry as it was |
| SplitPoint.RewriteOwnHead | gitlet/MainUtils.java:432 | rewriting a branch with its own head leaves the registry unchanged |
| SplitPoint.GetSplitPoint | gitlet/MainUtils.java:377-436 | identical tips fail, changing nothing; for distinct tips, by what FoundSplit finds: the given tip exactly when the ancestor message is returned, the current tip a fast-forward (refused when a file is in the way, a crash on an unstored blob), nothing a crash, and any other commit returned as the split point |
| Objects.Truncate | gitlet/MainUtils.java:100-102 | an id of UID length plus the 5-character type prefix is cut to its UID; any other id is kept as it is |
| MergeEngine.Classify | gitlet/MainUtils.java:471-515 | the decision of the three-way merge for one name from its split, current and given ids, in the source's branch order; its cases are stated by DecisionTable |
| StageCommands.StageForAdd | gitlet/Command.java:63-79 | add on the two stages: a name staged for removal is only unstaged; a version the head holds removes the file name from the staged ids; otherwise its id is staged |
| StageCommands.CommitBlobs | gitlet/Command.java:113-120 | the ids of a new commit: the head's ids whose names are neither staged for addition nor for removal, plus, for each name staged for addition, the last staged id carrying it |
| Checkout.Reverted | gitlet/MainUtils.java:210-220 | the working tree after a revert: files only the head tracks are deleted and every file of the target is written; its cases are stated by RevertedFiles |
| BranchCommands.BranchDropped | gitlet/Command.java:412-421 | the registry rm-branch writes: the named line is gone, no line is repeated, and every other branch keeps its head |
| Tracking.Untracked | gitlet/MainUtils.java:306-310 | a working file other than .gitlet is untracked when neither the add stage nor the head tracks its name |
| Tracking.InTheWay | gitlet/MainUtils.java:311-316 | an untracked file is in the way with no target, or when the target tracks its name with a blob id different from the file's content |
| MergeCommand.CheckMergeable | gitlet/Command.java:451-462 | the guards in order: a non-empty add stage, a remove stage without an add stage (crash), an unknown branch, the current branch |
| MergeCommand.MergeCommit | gitlet/Command.java:480-490 | stores a commit "Merged b into c." with the current and given heads as parents and the add stage's ids, moves the current head, and clears both stages |
| MergeCommand.GivenWriteIsCheckout | gitlet/MainUtils.java:178-186 | for a stored commit, writing the name map's entry for a file is what checkOutFilesOverwrite does for that name: it writes the first id carrying the name |
| MergeCommand.MergeInto | gitlet/Command.java:478-490 | done exactly when every read blob is stored; then the merge commit holds the merged add stage |
| MergeCommand.SplitThenMerge | gitlet/Command.java:472-490 | the outcome is the one SplitDecided gives for what the walk finds; identical heads and an ancestor change nothing; a fast-forward reverts the working tree; a merge over the found split point completes exactly when its blobs can be read, with one merge commit |
| MergeCommand.MergeBranch | gitlet/Command.java:464-490 | an untracked file in the way fails exactly when the guard says, changing nothing; otherwise as SplitThenMerge, outcome by SplitDecided |
| MergeCommand.DoMerge | gitlet/Command.java:449-491 | the guards in source order, each changing nothing; then the untracked check; then the outcome SplitDecided gives for what the walk finds, with one merge commit, the head moved and the stages cleared when it completes |

## Left out

- Input and output are not modelled: the command-line dispatch and operand counting, `checkOperands`, and every printed line. Printing covers log, global-log, status and the "Encountered a merge conflict." notice.
- The file system is not modelled. Files become map-valued and list-valued fields, and the existence of the two stage files is a flag.
- SHA-1 and the serialisation that gives a commit its id are not computed. They are the repository's `sha1` and `commitId` functions, and each yields an id of the right length.
- The commit timestamp is a parameter, because it comes from the clock.
- Commit.java, Blob.java and Utils.java are not part of this model. Their helpers are specified only by contract:
  - `getCommit` finds a commit under the id cut to its UID;
  - `recoverUID` returns some stored UID with the prefix, or nothing;
  - `getBlobFileName` drops the trailing 40 characters;
  - `sameCommit` compares UIDs;
  - Commit does not override `equals` or `hashCode`, so the HashSet of commits in `getSplitPoint` compares them by object identity, and each fringe entry is its own object;
  - constructing a Blob stores the blob object under its id.
- Orders are not modelled: the order of a re-joined HashSet or HashMap, and the order of a directory listing. Contracts speak of sets of lines.
- A branch name containing `:` would break the registry's `split(":")`. The model keeps names and ids as pairs.
- A crash mid-command does not model the partial writes the Java code would leave behind.
- Repo.Repository.Init: the root commit's message and timestamp come from the Commit class, which is not part of this model, and are not constrained.
- CheckOutFile: for the empty file name, the crash on a missing blob object is not stated.
- CheckOutFileAt: for the empty file name, the crash on a missing blob object is not stated.
- SplitPointSearch: states the walk's outcomes, not that the split point is a latest common ancestor, which the code does not guarantee.
- DoFind: states which commits are found, not the order in which their ids are printed.
- The modified and untracked classification of `status` is not modelled.
