/** The durable log cursor: what identifies a log file, and what a rotation does to it. */
module Cursor {
  import opened Bytes

  type Digest = seq<byte>

  /** SHA-256, left uninterpreted. */
  type Hash = seq<byte> -> Digest

  function ZeroDigest(): Digest {
    seq(32, _ => 0)
  }

  /** Leading bytes a fingerprint covers at most. */
  const WINDOW: nat := 256

  datatype CursorState = CursorState(
    inode: nat,
    offset: nat,
    fingerprint: Digest,
    fingerprintLen: Option<nat>)  // None in a cursor written by an older version

  datatype RotationEvent = NoRotation | Truncated | InodeChanged | Replaced

  /** The log directory: contents by inode, and the inodes `<log>`, `<log>.1` and `<log>.2` name. An
      inode a reader holds open stays readable after its last name is gone. */
  datatype Disk = Disk(
    files: map<nat, seq<byte>>,
    live: Option<nat>,
    one: Option<nat>,
    two: Option<nat>)
  {
    /** Every name leads to a file, and inode 0 is never a real one. */
    predicate Valid() {
      && (live.Some? ==> live.value in files)
      && (one.Some? ==> one.value in files)
      && (two.Some? ==> two.value in files)
      && 0 !in files
    }
  }

  /** The bytes behind an inode; nothing can be read from one that is gone. */
  function Content(files: map<nat, seq<byte>>, inode: nat): seq<byte> {
    if inode in files then files[inode] else []
  }

  function LiveContent(d: Disk): seq<byte> {
    if d.live.Some? then Content(d.files, d.live.value) else []
  }

  /** The directory as reads find it when those of some files fail: a file that cannot be read gives as
      much as one that is gone. */
  function Seen(d: Disk, readable: nat -> bool): Disk {
    d.(files := map i | i in d.files && readable(i) :: d.files[i])
  }

  lemma AllSeen(d: Disk, readable: nat -> bool)
    requires forall i :: i in d.files ==> readable(i)
    ensures Seen(d, readable) == d
  {
    assert Seen(d, readable).files == d.files;
  }

  /** The first up to 256 bytes. */
  function Head(c: seq<byte>): seq<byte> {
    c[..Min(WINDOW, |c|)]
  }

  /** Whether `head` carries the fingerprint of `st` over the window the fingerprint was taken on. */
  predicate HeadMatches(sha: Hash, st: CursorState, head: seq<byte>) {
    match st.fingerprintLen
    case None => sha(head) == st.fingerprint
    case Some(n) => n > 0 && |head| >= n && sha(head[..n]) == st.fingerprint
  }

  function DetectRotation(sha: Hash, d: Disk, st: CursorState): RotationEvent {
    if d.live.None? then NoRotation
    else if d.live.value != st.inode then InodeChanged
    else if st.offset > |LiveContent(d)| then Truncated
    else
      var head := Head(LiveContent(d));
      if HeadMatches(sha, st, head) then NoRotation
      else if st.fingerprintLen == Some(0) && head == [] then NoRotation
      else Replaced
  }

  /** The fingerprint of the live file and the bytes it covers; a missing file is the zero digest over none. */
  function FingerprintWithLen(sha: Hash, d: Disk): (Digest, nat) {
    if d.live.Some? then (sha(Head(LiveContent(d))), |Head(LiveContent(d))|) else (ZeroDigest(), 0)
  }

  function GetInode(d: Disk): nat {
    if d.live.Some? then d.live.value else 0
  }

  /** One rotated generation to read. */
  datatype Generation = Generation(
    inode: nat,
    offset: nat,
    fingerprint: Digest,
    fingerprintLen: nat,
    isStored: bool)

  datatype Reason = NoCopy | NotThatContent | EndsBeforeOffset

  datatype Found = Found(generations: seq<Generation>, newerMissing: Option<Reason>)

  datatype Search = Ok(found: Found) | Missing(reason: Reason)

  function RotatedInode(d: Disk, n: nat): Option<nat> {
    if n == 1 then d.one else d.two
  }

  /** `push_newer`: the generation rotated after `.2`, when `.2` is the stored one. */
  function Newer(sha: Hash, d: Disk, n: nat): (seq<Generation>, Option<Reason>) {
    if n == 1 then ([], None)
    else if d.one.None? then ([], Some(NoCopy))
    else
      var c := Content(d.files, d.one.value);
      if |c| > 0 then ([Generation(d.one.value, 0, sha(Head(c)), |Head(c)|, false)], None) else ([], None)
  }

  /** Whether `<log>.n` is the generation `st` points into, and why not when it is not. */
  function Rejects(sha: Hash, d: Disk, st: CursorState, n: nat): Option<Reason> {
    if RotatedInode(d, n).None? then Some(NoCopy)
    else
      var c := Content(d.files, RotatedInode(d, n).value);
      if !HeadMatches(sha, st, Head(c)) then Some(NotThatContent)
      else if |c| < st.offset then Some(EndsBeforeOffset)
      else None
  }

  /** The stored generation in `<log>.n`, from the read offset, and everything rotated after it. */
  function GenerationsFrom(sha: Hash, d: Disk, st: CursorState, n: nat): Found
    requires Rejects(sha, d, st, n).None?
  {
    var i := RotatedInode(d, n).value;
    var c := Content(d.files, i);
    var len := if st.fingerprintLen.Some? then st.fingerprintLen.value else |Head(c)|;
    var stored := if |c| > st.offset then [Generation(i, st.offset, st.fingerprint, len, true)] else [];
    var (newer, missing) := Newer(sha, d, n);
    Found(stored + newer, missing)
  }

  /** `find_generations` over `.1` and then `.2`; the reason of a failure is that of `.1`. */
  function FindGenerations(sha: Hash, d: Disk, st: CursorState): Search {
    if Rejects(sha, d, st, 1).None? then Ok(GenerationsFrom(sha, d, st, 1))
    else if Rejects(sha, d, st, 2).None? then Ok(GenerationsFrom(sha, d, st, 2))
    else Missing(Rejects(sha, d, st, 1).value)
  }
}
