/** The content-addressed objects of a gitlet repository: commits, blob and
    commit identifiers, and the contracts of the helpers the core relies on
    (hashing, blob-name recovery, commit lookup). */
module Objects {

  /** Number of hexadecimal digits of a SHA-1 digest. */
  const UID_LENGTH: nat := 40

  datatype Option<T> = None | Some(value: T)

  /** How a command ends: normally, with one of the source's one-line error
      messages, or with an unchecked Java exception. */
  datatype Status = Done | Failed(message: string) | Crashed(reason: string)

  /** A hexadecimal SHA-1 digest: UID_LENGTH characters. */
  type Digest = d: string | |d| == UID_LENGTH
    witness seq(UID_LENGTH, _ => '0')

  /** SHA-1 over a string, as the model sees it: an arbitrary function
      yielding digests. */
  type Hash = string -> Digest

  /** A commit object. The parents are the ids as the branch registry held
      them when the commit was made; the blob ids are the commit's array. */
  datatype Commit = Commit(
    message: string,
    timestamp: string,
    parent1: Option<string>,
    parent2: Option<string>,
    blobIds: seq<string>)

  /** The file name carried by a blob id: all but the trailing digest. */
  function BlobName(id: string): string {
    if |id| < UID_LENGTH then "" else id[..|id| - UID_LENGTH]
  }

  /** A blob's id is its file name followed by the hash of its content; the
      name can be read back from the id. */
  function BlobId(sha1: Hash, name: string, content: string): (id: string)
    ensures |id| == |name| + UID_LENGTH
    ensures BlobName(id) == name
    ensures id[..|name|] == name
  {
    name + sha1(content)
  }

  /** An id of length UID_LENGTH + 5 carries a 5-character type prefix in
      front of the UID; the registry and the commit store use the UID. */
  function Truncate(id: string): string {
    if |id| == UID_LENGTH + 5 then id[5..] else id
  }

  /** getCommit: the stored commit for an id (with or without its type
      prefix), or nothing (Java's null). */
  function GetCommit(commits: map<string, Commit>, id: string): Option<Commit> {
    if Truncate(id) in commits then Some(commits[Truncate(id)]) else None
  }

  /** Parent number `i` (0 or 1) of a commit, as getParentsID()[i]. */
  function ParentOf(c: Commit, i: nat): Option<string> {
    if i == 0 then c.parent1 else c.parent2
  }

  /** Every parent id of every stored commit resolves to a stored commit. */
  ghost predicate ParentsClosed(commits: map<string, Commit>) {
    forall k :: k in commits ==>
      (commits[k].parent1.Some? ==> Truncate(commits[k].parent1.value) in commits) &&
      (commits[k].parent2.Some? ==> Truncate(commits[k].parent2.value) in commits)
  }

  /** Every blob id of the list has its object (its stored content) in the
      store. */
  predicate BlobsStored(blobs: map<string, string>, ids: seq<string>) {
    forall id :: id in ids ==> id in blobs
  }

  /** recoverUID: a stored commit id that starts with the given abbreviation,
      or nothing. Which one is found when several match is not specified. */
  method RecoverUid(commits: map<string, Commit>, prefix: string) returns (r: Option<string>)
    ensures r.Some? ==> r.value in commits && prefix <= r.value
    ensures r.None? ==> forall k :: k in commits ==> !(prefix <= k)
  {
    if k :| k in commits && prefix <= k {
      r := Some(k);
    } else {
      r := None;
    }
  }
}
