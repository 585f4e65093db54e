/** Runs of the tailer in which a line is lost, replayed or torn: the cases behind the exact conditions, each
    reached from a first start by the tailer's own operations. */
module WitnessRuns {
  import opened Bytes
  import opened Sequences
  import opened LineReader
  import opened Cursor
  import opened LogStream
  import opened Tailer
  import opened LogTailing
  import opened TailerRefinement
  import opened TailerRuns

  const BUDGET := 1000

  // ---- short files ----

  lemma LineThen(c: seq<byte>, p: nat)
    requires p + 1 < |c| && c[p] != NL && c[p + 1] == NL
    ensures LinesFrom(c, p) == [[c[p]]] + LinesFrom(c, p + 2)
  {
    NextNewlineIs(c, p, p + 1);
    LinesStep(c, p);
    assert c[p..p + 1] == [c[p]];
  }

  /** At most three one-letter lines. */
  predicate IsShort(c: seq<byte>) {
    |c| in {0, 2, 4, 6} && forall i :: 0 <= i < |c| ==> (c[i] == NL <==> i % 2 == 1)
  }

  /** The lines of a short file from each of its line starts on. */
  lemma ShortFile(c: seq<byte>)
    requires IsShort(c)
    ensures LinesFrom(c, |c|) == []
    ensures |c| >= 2 ==> LinesFrom(c, |c| - 2) == [[c[|c| - 2]]]
    ensures |c| >= 4 ==> LinesFrom(c, |c| - 4) == [[c[|c| - 4]], [c[|c| - 2]]]
    ensures |c| >= 6 ==> LinesFrom(c, 0) == [[c[0]], [c[2]], [c[4]]]
  {
    hide LinesFrom;
    NothingPastTheEnd(c, |c|);
    if |c| >= 2 {
      LineThen(c, |c| - 2);
    }
    if |c| >= 4 {
      LineThen(c, |c| - 4);
    }
    if |c| >= 6 {
      LineThen(c, 0);
    }
  }

  // ---- one read ----

  lemma {:induction false} PrefixBytes(ls: seq<Line>, k: nat)
    requires k < |ls|
    ensures LineBytes(ls[..k]) + |ls[k]| + 1 <= LineBytes(ls)
    decreases |ls|
  {
    if k + 1 < |ls| {
      PrefixBytes(ls[..|ls| - 1], k);
      assert ls[..|ls| - 1][..k] == ls[..k];
    }
  }

  /** A read whose budget covers everything unread takes as many lines as it may. */
  lemma TakesAll(d: Disk, t1: TailerState, t2: TailerState, got: seq<Line>, maxLines: nat)
    requires d.live.Some? && ReadContract(d, t1, t2, [], got, maxLines, BUDGET)
             && LineBytes(Unread(d.files, t1)) <= BUDGET
    ensures var all := Unread(d.files, t1);
            var n := Min(maxLines, |all|);
            got == all[..n] && Unread(d.files, t2) == all[n..]
  {
    hide Unread, BatchInv, SpansInv, MovedByLines, Boundary, Stream, FrontOnly;
    var all := Unread(d.files, t1);
    if |got| < |all| {
      PrefixBytes(all, |got|);
      assert all[..|got|] == got && all[|got|] == Unread(d.files, t2)[0];
    }
  }

  /** Reads at most `maxLines` lines. */
  method ReadLines(tailer: LogTailer, d: Disk, maxLines: nat) returns (lines: seq<Line>)
    requires tailer.uncommitted.None? && d.live.Some? && maxLines > 0
    modifies tailer
    ensures var t1, t2 := AfterRotation(tailer.sha, d, old(tailer.View())), tailer.View();
            && t1.uncommitted.None? && ReadContract(d, t1, t2, [], lines, maxLines, BUDGET)
            && t2.lastKnownSize == |LiveContent(d)| && t2.sizeObserved
  {
    hide ReadContract, AfterRotation, Seen, DeliveredLines;
    RotationFollowsLive(tailer.sha, d, tailer.View());
    AllSeen(d, _ => true);
    var entries := tailer.ReadEntries(d, _ => true, maxLines, BUDGET, []);
    lines := DeliveredLines(entries);
  }

  /** A read of one file and nothing queued. */
  lemma SoleRead(d: Disk, t1: TailerState, t2: TailerState, got: seq<Line>, maxLines: nat)
    requires ReadContract(d, t1, t2, [], got, maxLines, BUDGET) && t1.uncommitted.None? && t1.drains == []
    requires d.live == Some(t1.state.inode) && LineBytes(LinesFrom(LiveContent(d), t1.state.offset)) <= BUDGET
    ensures t2.drains == [] && t2.state == t1.state.(offset := t2.state.offset)
    ensures t2.resumes == t1.resumes && t2.loss == t1.loss && (t2.state != t1.state ==> t2.file == d.live)
    ensures var c, p, q := LiveContent(d), t1.state.offset, t2.state.offset;
            var n := Min(maxLines, |LinesFrom(c, p)|);
            Boundary(c, p, q) && got == LinesFrom(c, p)[..n] && LinesFrom(c, q) == LinesFrom(c, p)[n..]
  {
    hide Stream, SpansInv, LineBytes, LinesFrom;
    BatchStartInodes(t2);
    assert Positions(t1) == [Position(t1.state.inode, t1.state.offset)];
    assert Positions(t2) == [Position(t2.state.inode, t2.state.offset)];
    StreamOne(d.files, Positions(t1)[0]);
    StreamOne(d.files, Positions(t2)[0]);
    TakesAll(d, t1, t2, got, maxLines);
  }

  /** The first rotation check of a tailer without a cursor. */
  lemma FirstBind(sha: Hash, d: Disk)
    requires d.live.Some? && d.live.value != 0
    ensures AfterRotation(sha, d, Started(d, None)) ==
            TailerState(CursorState(d.live.value, 0, sha(Head(LiveContent(d))), Some(|Head(LiveContent(d))|)), None, [],
                        |LiveContent(d)|, None, false, [], RotationLoss(0, 0))
  {
  }

  /** A tailer bound to a short file, after a first read. */
  ghost predicate Follows(sha: Hash, d: Disk, t: TailerState, offset: nat) {
    && d.live.Some? && t.drains == [] && t.resumes == [] && t.loss == RotationLoss(0, 0)
    && t.state == CursorState(d.live.value, offset, sha(Head(LiveContent(d))), Some(|Head(LiveContent(d))|))
  }

  /** How far into a short file a boundary is, by the lines left. */
  lemma ShortOffset(c: seq<byte>, p: nat, q: nat)
    requires IsShort(c) && p <= |c| && p % 2 == 0 && Boundary(c, p, q)
    ensures q <= |c| && q % 2 == 0 && |LinesFrom(c, p)| == (|c| - p) / 2 && |LinesFrom(c, q)| == (|c| - q) / 2
  {
    ShortFile(c);
  }

  lemma ShortBytes(c: seq<byte>, p: nat)
    requires IsShort(c) && p <= |c| && p % 2 == 0
    ensures LineBytes(LinesFrom(c, p)) <= 6
  {
    ShortFile(c);
    var ls := LinesFrom(c, p);
    assert p == |c| || p == |c| - 2 || p == |c| - 4 || p == |c| - 6;
    assert forall i :: 0 <= i < |ls| ==> |ls[i]| == 1;
    LettersBytes(ls);
  }

  lemma {:induction false} LettersBytes(ls: seq<Line>)
    requires forall i :: 0 <= i < |ls| ==> |ls[i]| == 1
    ensures LineBytes(ls) == 2 * |ls|
  {
    if ls != [] {
      LettersBytes(ls[..|ls| - 1]);
    }
  }

  /** The first read of a fresh tailer on a short file. */
  method StartAndRead(sha: Hash, d: Disk, maxLines: nat) returns (tailer: LogTailer, lines: seq<Line>)
    requires d.live.Some? && d.live.value != 0 && IsShort(LiveContent(d)) && maxLines > 0
    ensures fresh(tailer) && tailer.sha == sha && tailer.uncommitted.None?
    ensures var c, t, n := LiveContent(d), tailer.View(), Min(maxLines, |LiveContent(d)| / 2);
            && Follows(sha, d, t, 2 * n) && t.lastKnownSize == |c| && t.sizeObserved && (n > 0 ==> t.file == d.live)
            && |LinesFrom(c, 0)| == |c| / 2 && lines == LinesFrom(c, 0)[..n]
  {
    hide AfterRotation, ReadContract, LinesFrom, LineBytes, Head, LiveContent, Boundary, IsShort;
    tailer := new LogTailer(sha, d, None);
    lines := ReadLines(tailer, d, maxLines);
    ghost var c := LiveContent(d);
    FirstBind(sha, d);
    ShortBytes(c, 0);
    ghost var t1 := AfterRotation(sha, d, Started(d, None));
    SoleRead(d, t1, tailer.View(), lines, maxLines);
    ShortOffset(c, 0, tailer.state.offset);
    tailer.CommitBatch();
  }

  // ---- a rename ----

  /** The file a tailer held open was renamed and another took its name. */
  lemma RenameQueues(sha: Hash, d: Disk, t: TailerState)
    requires d.live.Some? && d.live.value != t.state.inode && t.uncommitted.None?
    ensures var t1 := AfterRotation(sha, d, t);
            && t1.drains == t.drains + (if t.file.Some? then [Position(t.file.value, t.state.offset)] else [])
            && t1.state.inode == d.live.value && t1.state.offset == 0 && t1.file.None? && t1.resumes == t.resumes
            && t1.state == CursorState(d.live.value, 0, sha(Head(LiveContent(d))), Some(|Head(LiveContent(d))|))
            && t1.uncommitted.None? && t1.loss == t.loss
  {
  }

  /** One line read where one file is queued: it comes from that file, and the file being followed is neither
      moved in nor opened. */
  lemma OneFromDrain(d: Disk, t1: TailerState, t2: TailerState, got: seq<Line>, p: Position)
    requires ReadContract(d, t1, t2, [], got, 1, BUDGET) && t1.uncommitted.None? && t1.drains == [p]
    requires d.live == Some(t1.state.inode) && t1.state.offset == 0 && IsShort(LiveContent(d))
    requires IsShort(Content(d.files, p.inode)) && p.offset % 2 == 0 && p.offset < |Content(d.files, p.inode)|
    ensures LinesAt(d.files, p) != [] && got == LinesAt(d.files, p)[..1]
    ensures Stream(d.files, t2.drains) == LinesAt(d.files, p)[1..] && |t2.drains| <= 1
    ensures t2.drains != [] ==> t2.drains[0].inode == p.inode
    ensures t2.state == t1.state && t2.file == t1.file && t2.resumes == t1.resumes && t2.loss == t1.loss
  {
    hide LinesFrom, LineBytes, SpansInv, Boundary, IsShort, Stream;
    var c, e := LiveContent(d), Position(t1.state.inode, t1.state.offset);
    ShortAt(d.files, p);
    StreamOne(d.files, p);
    assert LinesFrom(c, 0) == LinesAt(d.files, e) && |LinesFrom(c, 0)| == |c| / 2 by {
      ShortOffset(c, 0, 0);
    }
    QueueOfOne(d.files, t1, p, e);
    ShortBytes(c, 0);
    ShortBytes(Content(d.files, p.inode), p.offset);
    LineBytesConcat(LinesAt(d.files, p), LinesAt(d.files, e));
    TakesAll(d, t1, t2, got, 1);
    BatchStartInodes(t2);
    var more := LinesAt(d.files, p)[1..];
    assert (LinesAt(d.files, p) + LinesAt(d.files, e))[1..] == more + LinesAt(d.files, e);
    if t2.drains != [] {
      assert QueuedStart(t2)[0] == p;
      StreamConcat(d.files, t2.drains, [e]);
      StreamOne(d.files, e);
      SuffixCancels(Stream(d.files, t2.drains), more, LinesAt(d.files, e));
    } else {
      assert Positions(t2) == [Position(t2.state.inode, t2.state.offset)];
      StreamOne(d.files, Positions(t2)[0]);
      ShortOffset(c, 0, t2.state.offset);
      assert more == [] && t2.state.offset == 0;
      NothingQueued(d.files);
    }
  }

  lemma ShortAt(files: Files, p: Position)
    requires IsShort(Content(files, p.inode)) && p.offset % 2 == 0 && p.offset < |Content(files, p.inode)|
    ensures LinesAt(files, p) != []
  {
    hide LinesFrom;
    ShortOffset(Content(files, p.inode), p.offset, p.offset);
  }

  lemma QueueOfOne(files: Files, t: TailerState, p: Position, e: Position)
    requires Positions(t) == [p] + [e]
    ensures Unread(files, t) == LinesAt(files, p) + LinesAt(files, e)
  {
    StreamConcat(files, [p], [e]);
    StreamOne(files, p);
    StreamOne(files, e);
  }

  /** A rename away from a file never opened, and a read of what is left: what was queued with nothing unread,
      then the new file from its start. */
  lemma ReadsNewFile(sha: Hash, d: Disk, t: TailerState, t2: TailerState, got: seq<Line>)
    requires d.live.Some? && d.live.value != t.state.inode && t.uncommitted.None? && t.file.None?
    requires ReadContract(d, AfterRotation(sha, d, t), t2, [], got, 10, BUDGET)
    requires Stream(d.files, t.drains) == [] && IsShort(LiveContent(d))
    ensures got == LinesFrom(LiveContent(d), 0)
  {
    hide LinesFrom, LineBytes, ReadContract, AfterRotation, IsShort, Stream;
    var t1, c := AfterRotation(sha, d, t), LiveContent(d);
    RenameQueues(sha, d, t);
    assert Positions(t1) == t.drains + [Position(d.live.value, 0)];
    StreamConcat(d.files, t.drains, [Position(d.live.value, 0)]);
    StreamOne(d.files, Position(d.live.value, 0));
    assert [] + LinesFrom(c, 0) == LinesFrom(c, 0);
    ShortBytes(c, 0);
    ShortOffset(c, 0, 0);
    assert |c| <= 6 by {
      ShortLength(c);
    }
    TakesAll(d, t1, t2, got, 10);
  }

  lemma ShortLength(c: seq<byte>)
    requires IsShort(c)
    ensures |c| <= 6
  {
  }

  lemma SameDrains(files: Files, files': Files, ps: seq<Position>, inode: nat)
    requires |ps| <= 1 && (ps != [] ==> ps[0].inode == inode) && Content(files, inode) == Content(files', inode)
    ensures Stream(files, ps) == Stream(files', ps)
  {
    if ps != [] {
      assert ps == [ps[0]];
      StreamOne(files, ps[0]);
      StreamOne(files', ps[0]);
    }
  }

  /** Four lines, of which the third is never delivered: a batch filled by a queued file leaves the new file
      unopened, and a second rename before the next read drops it. */
  method UnopenedFileIsLost(sha: Hash) returns (delivered: seq<Line>)
    ensures delivered == [[97], [98], [100]]
  {
    hide LinesFrom, AfterRotation, ReadContract, Head, Stream, IsShort, Follows;
    var ab, c, d: seq<byte> := [97, NL, 98, NL], [99, NL], [100, NL];
    Letters(ab, c, d);
    var d0 := Disk(map[1 := ab], Some(1), None, None);
    var tailer, first := StartAndRead(sha, d0, 1);
    ghost var t0 := tailer.View();
    FollowsAt(sha, d0, t0, 2);
    var d1 := Disk(map[1 := ab, 2 := c], Some(2), Some(1), None);
    var second := ReadLines(tailer, d1, 1);
    RenameQueues(sha, d1, t0);
    OneFromDrain(d1, AfterRotation(sha, d1, t0), tailer.View(), second, Position(1, 2));
    tailer.CommitBatch();
    ghost var t := tailer.View();
    var d2 := Disk(map[1 := ab, 2 := c, 3 := d], Some(3), Some(2), Some(1));
    SameDrains(d1.files, d2.files, t.drains, 1);
    var third := ReadLines(tailer, d2, 10);
    ReadsNewFile(sha, d2, t, tailer.View(), third);
    delivered := first + second + third;
  }

  lemma FollowsAt(sha: Hash, d: Disk, t: TailerState, offset: nat)
    requires Follows(sha, d, t, offset)
    ensures d.live.Some? && t.drains == [] && t.state.inode == d.live.value && t.state.offset == offset
    ensures t.resumes == [] && t.loss == RotationLoss(0, 0)
    ensures t.state.fingerprint == sha(Head(LiveContent(d))) && t.state.fingerprintLen == Some(|Head(LiveContent(d))|)
  {
  }

  lemma Letters(ab: seq<byte>, c: seq<byte>, d: seq<byte>)
    requires ab == [97, NL, 98, NL] && c == [99, NL] && d == [100, NL]
    ensures IsShort(ab) && IsShort(c) && IsShort(d)
    ensures LinesFrom(ab, 0) == [[97], [98]] && LinesFrom(ab, 2) == [[98]] && LinesFrom(c, 0) == [[99]]
    ensures LinesFrom(d, 0) == [[100]]
  {
    ShortFile(ab);
    ShortFile(c);
    ShortFile(d);
  }

  // ---- a restart while a renamed file is queued ----

  /** The cursor cannot name a renamed file, so with one at the front of the queue it names the file that took
      its place: a restart reads all that was unread if and only if the queued files had no line left. */
  lemma RestartDropsRenamed(d: Disk, t: TailerState, files: Files)
    requires t.drains != [] && FindResume(t.resumes, t.drains[0].inode).None?
    ensures Persisted(t) == t.state
    ensures Unread(files, Started(d, Some(Persisted(t)))) == Unread(files, t)
            <==> forall i :: 0 <= i < |t.drains| ==> LinesAt(files, t.drains[i]) == []
    ensures |Unread(files, t)| - |Unread(files, Started(d, Some(Persisted(t))))| == |Stream(files, t.drains)|
  {
    hide LinesAt, Stream;
    var e := Position(t.state.inode, t.state.offset);
    assert Positions(Started(d, Some(Persisted(t)))) == [e];
    StreamConcat(files, t.drains, [e]);
    NothingLeft(files, t.drains);
  }

  lemma {:induction false} NothingLeft(files: Files, ps: seq<Position>)
    ensures Stream(files, ps) == [] <==> forall i :: 0 <= i < |ps| ==> LinesAt(files, ps[i]) == []
  {
    hide LinesAt;
    if ps != [] {
      NothingLeft(files, ps[1..]);
      assert forall i :: 0 < i < |ps| ==> ps[i] == ps[1..][i - 1];
    }
  }

  /** Four lines, of which the third is never delivered: the position saved after the second is past it. */
  method SavedPastRenamed(sha: Hash) returns (delivered: seq<Line>)
    ensures delivered == [[97], [98], [100]]
  {
    hide LinesFrom, AfterRotation, ReadContract, Head, Stream, IsShort, Follows;
    var abc: seq<byte>, d: seq<byte> := [97, NL, 98, NL, 99, NL], [100, NL];
    ThreeLetters(abc, d);
    var d0 := Disk(map[1 := abc], Some(1), None, None);
    var tailer, first := StartAndRead(sha, d0, 1);
    ghost var t0 := tailer.View();
    FollowsAt(sha, d0, t0, 2);
    var d1 := Disk(map[1 := abc, 2 := d], Some(2), Some(1), None);
    var second := ReadLines(tailer, d1, 1);
    RenameQueues(sha, d1, t0);
    OneFromDrain(d1, AfterRotation(sha, d1, t0), tailer.View(), second, Position(1, 2));
    tailer.CommitBatch();
    assert tailer.drains != [] by {
      NothingQueued(d1.files);
    }
    var saved := tailer.PersistCursor();
    var restarted := new LogTailer(sha, d1, Some(saved));
    ghost var t1 := restarted.View();
    StaysBound(sha, d1, t1, 0);
    var third := ReadLines(restarted, d1, 10);
    ShortBytes(d, 0);
    SoleRead(d1, AfterRotation(sha, d1, t1), restarted.View(), third, 10);
    delivered := first + second + third;
  }

  lemma ThreeLetters(abc: seq<byte>, d: seq<byte>)
    requires abc == [97, NL, 98, NL, 99, NL] && d == [100, NL]
    ensures IsShort(abc) && IsShort(d)
    ensures LinesFrom(abc, 0) == [[97], [98], [99]] && LinesFrom(abc, 2) == [[98], [99]] && LinesFrom(d, 0) == [[100]]
  {
    ShortFile(abc);
    ShortFile(d);
  }

  /** Nothing changes for a tailer whose stamp is that of the live file. */
  lemma StaysBound(sha: Hash, d: Disk, t: TailerState, offset: nat)
    requires d.live.Some? && offset <= |LiveContent(d)|
    requires t.state == CursorState(d.live.value, offset, sha(Head(LiveContent(d))), Some(|Head(LiveContent(d))|))
    ensures LiveContent(d) != [] ==> AfterRotation(sha, d, t) == t
  {
    var c := LiveContent(d);
    assert Head(c)[..|Head(c)|] == Head(c);
  }

  // ---- copytruncate ----

  /** Three rotations between two polls, and a live file larger than the one last read and of other content:
      the old offset is kept, inside a line, and its tail is delivered as a line, with no loss counted. */
  method OffsetCarriedIntoLine(sha: Hash) returns (delivered: seq<Line>, loss: RotationLoss)
    requires sha([101, 102, 103, 104]) != sha([97, NL, 98, NL])
    ensures delivered == [[97], [98], [105]] && loss == RotationLoss(0, 0)
  {
    hide LinesFrom, AfterRotation, ReadContract, Stream, IsShort, Follows;
    var ab, c, d: seq<byte> := [97, NL, 98, NL], [99, NL], [100, NL];
    var efghi: seq<byte> := [101, 102, 103, 104, 105, NL];
    Letters(ab, c, d);
    var d0 := Disk(map[1 := ab], Some(1), None, None);
    var tailer, first := StartAndRead(sha, d0, 10);
    ghost var t := tailer.View();
    FollowsAt(sha, d0, t, 4);
    assert Head(ab) == ab;
    var d1 := Disk(map[1 := efghi, 2 := ab, 3 := c, 4 := d], Some(1), Some(4), Some(3));
    CarriesOffset(sha, d1, t);
    var second := ReadLines(tailer, d1, 10);
    LineThen(efghi, 4);
    NothingPastTheEnd(efghi, 6);
    assert LinesFrom(efghi, 4) == [[105]];
    LettersBytes(LinesFrom(efghi, 4));
    SoleRead(d1, AfterRotation(sha, d1, t), tailer.View(), second, 10);
    delivered, loss := first + second, tailer.loss;
  }

  lemma CarriesOffset(sha: Hash, d: Disk, t: TailerState)
    requires sha([101, 102, 103, 104]) != sha([97, NL, 98, NL])
    requires d == Disk(map[1 := [101, 102, 103, 104, 105, NL], 2 := [97, NL, 98, NL], 3 := [99, NL], 4 := [100, NL]],
                       Some(1), Some(4), Some(3))
    requires t.state == CursorState(1, 4, sha([97, NL, 98, NL]), Some(4)) && t.lastKnownSize == 4
    ensures var t1 := AfterRotation(sha, d, t);
            && t1.drains == t.drains && t1.state.inode == 1 && t1.state.offset == 4 && t1.loss == t.loss
            && t1.uncommitted == t.uncommitted
  {
    assert Head(LiveContent(d))[..4] == [101, 102, 103, 104];
    assert DetectRotation(sha, d, t.state) == Replaced;
    assert Rejects(sha, d, t.state, 1).Some? && Rejects(sha, d, t.state, 2).Some?;
  }

  /** A line written after the tailer looked at an empty log, and rotated away before it looked again, is never
      read, and no loss is counted. */
  method LineBetweenPollsIsLost(sha: Hash) returns (delivered: seq<Line>, loss: RotationLoss)
    ensures delivered == [[100]] && loss == RotationLoss(0, 0)
  {
    hide LinesFrom, AfterRotation, ReadContract, Stream, IsShort, Follows;
    var ab, c, d: seq<byte> := [97, NL, 98, NL], [99, NL], [100, NL];
    Letters(ab, c, d);
    var d0 := Disk(map[1 := []], Some(1), None, None);
    assert IsShort(LiveContent(d0)) by {
      NoLetters(LiveContent(d0));
    }
    var tailer, first := StartAndRead(sha, d0, 10);
    ghost var t := tailer.View();
    FollowsAt(sha, d0, t, 0);
    assert Head(LiveContent(d0)) == [];
    var d1 := Disk(map[1 := d, 2 := c], Some(1), Some(2), None);
    FindsNothing(sha, d1, t);
    var second := ReadLines(tailer, d1, 10);
    ShortBytes(d, 0);
    SoleRead(d1, AfterRotation(sha, d1, t), tailer.View(), second, 10);
    delivered, loss := first + second, tailer.loss;
  }

  lemma NoLetters(c: seq<byte>)
    requires c == []
    ensures IsShort(c)
  {
  }

  lemma FindsNothing(sha: Hash, d: Disk, t: TailerState)
    requires d.live == Some(1) && LiveContent(d) != []
    requires t.state.inode == 1 && t.state.offset == 0 && t.state.fingerprintLen == Some(0) && t.lastKnownSize == 0
    ensures var t1 := AfterRotation(sha, d, t);
            && t1.drains == t.drains && t1.state.inode == 1 && t1.state.offset == 0 && t1.loss == t.loss
            && t1.uncommitted == t.uncommitted
  {
    EmptyStampFindsNothing(sha, d, t.state);
  }

  /** A batch over a rotated copy and the live file, accepted past its second line: the copy, read to its end,
      is still queued, so the cursor names it, and a restart reads the live file's accepted line again. */
  method RestartReplays(sha: Hash) returns (accepted: seq<Line>, reread: seq<Line>)
    requires sha([99, NL, 100, NL]) != sha([97, NL, 98, NL])
    ensures accepted == [[97], [98], [99]] && reread == [[99], [100]]
  {
    hide LinesFrom, AfterRotation, ReadContract, Stream, IsShort, Follows, Through, ThroughAllowed;
    var ab, cd: seq<byte> := [97, NL, 98, NL], [99, NL, 100, NL];
    FourLetters(ab, cd);
    var d0 := Disk(map[1 := ab], Some(1), None, None);
    var tailer, first := StartAndRead(sha, d0, 1);
    ghost var t := tailer.View();
    FollowsAt(sha, d0, t, 2);
    var d1 := Disk(map[1 := cd, 2 := ab], Some(1), Some(2), None);
    RecoversCopy(sha, d1, t);
    var second := ReadLines(tailer, d1, 10);
    ghost var t1, t2 := AfterRotation(sha, d1, t), tailer.View();
    ReadsBoth(d1, t1, t2, second);
    OpenBatch(d1, t1, t2, second);
    var ok := tailer.CommitBatchThrough(d1, 2, d1.files, second);
    AcceptsTwo(sha, d1, t1, t2, second);
    accepted := first + second[..2];
    var saved := tailer.PersistCursor();
    var restarted := new LogTailer(sha, d1, Some(saved));
    ghost var t3 := restarted.View();
    RecoversNothing(sha, d1, t3);
    reread := ReadLines(restarted, d1, 10);
    ShortBytes(cd, 0);
    SoleRead(d1, AfterRotation(sha, d1, t3), restarted.View(), reread, 10);
  }

  lemma FourLetters(ab: seq<byte>, cd: seq<byte>)
    requires ab == [97, NL, 98, NL] && cd == [99, NL, 100, NL]
    ensures IsShort(ab) && IsShort(cd) && Head(ab) == ab && Head(cd) == cd && ab[..4] == ab && cd[..4] == cd
    ensures LinesFrom(ab, 0) == [[97], [98]] && LinesFrom(ab, 2) == [[98]] && LinesFrom(ab, 4) == []
    ensures LinesFrom(cd, 0) == [[99], [100]] && LinesFrom(cd, 2) == [[100]] && LinesFrom(cd, 4) == []
  {
    ShortFile(ab);
    ShortFile(cd);
  }

  function CopyDisk(): Disk {
    Disk(map[1 := [99, NL, 100, NL], 2 := [97, NL, 98, NL]], Some(1), Some(2), None)
  }

  lemma RecoversCopy(sha: Hash, d: Disk, t: TailerState)
    requires sha([99, NL, 100, NL]) != sha([97, NL, 98, NL]) && d == CopyDisk()
    requires t.state == CursorState(1, 2, sha([97, NL, 98, NL]), Some(4)) && t.drains == [] && t.resumes == []
    requires t.uncommitted.None?
    ensures var t1 := AfterRotation(sha, d, t);
            && t1.drains == [Position(2, 2)] && t1.resumes == [Resume(2, sha([97, NL, 98, NL]), 4)]
            && t1.state == CursorState(1, 0, sha([99, NL, 100, NL]), Some(4)) && t1.uncommitted.None?
  {
    var ab, cd: seq<byte> := [97, NL, 98, NL], [99, NL, 100, NL];
    assert Head(ab) == ab && Head(cd) == cd && ab[..4] == ab && cd[..4] == cd;
    assert DetectRotation(sha, d, t.state) == Replaced;
    var gs := [Generation(2, 2, sha(ab), 4, true)];
    assert FindGenerations(sha, d, t.state) == Ok(Found(gs, None));
    assert gs[1..] == [];
    var t0 := t.(resumes := Queued(t.resumes, Inodes(t.drains)));
    assert QueueGenerations(t0, gs) == QueueGeneration(t0, gs[0]);
  }

  lemma CopyLines(files: Files)
    requires Content(files, 2) == [97, NL, 98, NL] && Content(files, 1) == [99, NL, 100, NL]
    ensures LinesAt(files, Position(2, 2)) == [[98]] && LinesAt(files, Position(1, 0)) == [[99], [100]]
  {
    hide LinesFrom;
    FourLetters(Content(files, 2), Content(files, 1));
  }

  lemma ReadsBoth(d: Disk, t1: TailerState, t2: TailerState, got: seq<Line>)
    requires Content(d.files, 2) == [97, NL, 98, NL] && Content(d.files, 1) == [99, NL, 100, NL] && d.live.Some?
    requires t1.drains == [Position(2, 2)] && t1.state.inode == 1 && t1.state.offset == 0
    requires t1.uncommitted.None? && ReadContract(d, t1, t2, [], got, 10, BUDGET)
    ensures got == [[98], [99], [100]] && Unread(d.files, t2) == []
  {
    hide LinesFrom, LinesAt, Content, ReadContract, Stream, Unread, LineBytes;
    var p, q := Position(2, 2), Position(1, 0);
    assert Positions(t1) == [p] + [q];
    hide *;
    CopyLines(d.files);
    QueueOfOne(d.files, t1, p, q);
    var all := Unread(d.files, t1);
    assert all == [[98], [99], [100]];
    LettersBytes(all);
    TakesAll(d, t1, t2, got, 10);
  }

  lemma OpenBatch(d: Disk, t1: TailerState, t2: TailerState, got: seq<Line>)
    requires t1.uncommitted.None? && ReadContract(d, t1, t2, [], got, 10, BUDGET)
    ensures t2.uncommitted.Some? && BatchInv(d.files, t2, got) && SpansInv(d.files, t2, got)
  {
    hide Stream, LineBytes, SpanSteps, LinesPlaced;
    assert [] + got == got;
  }

  /** What accepting two of the three lines leaves, and what is saved of it. */
  lemma AcceptsTwo(sha: Hash, d: Disk, t1: TailerState, t2: TailerState, got: seq<Line>)
    requires d == CopyDisk() && t1.drains == [Position(2, 2)] && t1.uncommitted.None?
    requires t1.state == CursorState(1, 0, sha([99, NL, 100, NL]), Some(4))
    requires t1.resumes == [Resume(2, sha([97, NL, 98, NL]), 4)]
    requires ReadContract(d, t1, t2, [], got, 10, BUDGET) && got == [[98], [99], [100]] && Unread(d.files, t2) == []
    ensures ThroughAllowed(sha, d, t2, 2)
    ensures Persisted(Through(t2, 2)) == CursorState(1, 4, sha([97, NL, 98, NL]), Some(4))
  {
    FourLetters([97, NL, 98, NL], [99, NL, 100, NL]);
    OpenBatch(d, t1, t2, got);
    StillThere(sha, d, t1, t2, got);
    hide LinesFrom, ReadContract, Unread, BatchInv, SpansInv, IsShort, FindGenerations;
    ThroughTakesPrefix(d.files, t2, got, 2);
    FrontAtEnd(d.files, t2, got);
  }

  lemma StillThere(sha: Hash, d: Disk, t1: TailerState, t2: TailerState, got: seq<Line>)
    requires d == CopyDisk() && t1.uncommitted.None? && t1.drains == [Position(2, 2)]
    requires t1.state == CursorState(1, 0, sha([99, NL, 100, NL]), Some(4))
    requires ReadContract(d, t1, t2, [], got, 10, BUDGET) && t2.uncommitted.Some?
    ensures DetectRotation(sha, d, t2.state) == NoRotation && t2.state.inode == 1 && t2.resumes == t1.resumes
    ensures BatchStart(t2) == [Position(2, 2)] + [Position(1, 0)]
  {
    hide LinesFrom, LineBytes, Stream, SpansInv, FindGenerations, BatchInv, MovedByLines, FrontOnly;
    var cd: seq<byte> := [99, NL, 100, NL];
    assert LiveContent(d) == cd && Head(cd) == cd && cd[..4] == cd;
  }

  lemma PartOfOne<T>(a: seq<T>, b: seq<T>, x: T)
    requires a + b == [x]
    ensures a == [] || a == [x]
  {
    if a != [] {
      assert a[0] == (a + b)[0] && |a| == 1;
    }
  }

  /** With both files' first lines accepted, the queued file has been read to its end. */
  lemma FrontAtEnd(files: Files, t: TailerState, got: seq<Line>)
    requires Content(files, 2) == [97, NL, 98, NL] && Content(files, 1) == [99, NL, 100, NL] && t.state.inode == 1
    requires t.uncommitted.Some? && BatchInv(files, t, got) && SpansInv(files, t, got)
             && 2 <= |t.uncommitted.value.spans|
    requires BatchStart(t) == [Position(2, 2)] + [Position(1, 0)]
    requires got == [[98], [99], [100]] && Unread(files, t) == []
    ensures Through(t, 2).drains == [Position(2, 4)] && Through(t, 2).state.inode == 1
  {
    var ab, cd: seq<byte> := [97, NL, 98, NL], [99, NL, 100, NL];
    FourLetters(ab, cd);
    hide LinesFrom, Stream, SpanSteps, LinesPlaced, AdvanceAll, BytesOf, IsShort, BatchInv, Unread;
    var t' := Through(t, 2);
    ThroughTakesPrefix(files, t, got, 2);
    SpanBoundary(files, t, got, 2, 0);
    var p, q := t'.drains[0], Position(1, t'.state.offset);
    assert Positions(t') == [p] + [q];
    QueueOfOne(files, t', p, q);
    assert got[2..] == [[100]];
    assert p.inode == 2 && p.offset in {2, 4};
    assert LinesAt(files, p) == LinesFrom(ab, p.offset);
    PartOfOne(LinesAt(files, p), LinesAt(files, q), [100]);
  }

  lemma RecoversNothing(sha: Hash, d: Disk, t: TailerState)
    requires sha([99, NL, 100, NL]) != sha([97, NL, 98, NL]) && d == CopyDisk()
    requires t.state == CursorState(1, 4, sha([97, NL, 98, NL]), Some(4)) && t.drains == [] && t.resumes == []
    requires t.uncommitted.None?
    ensures var t1 := AfterRotation(sha, d, t);
            t1.drains == [] && t1.state.inode == 1 && t1.state.offset == 0 && t1.uncommitted.None?
  {
    var ab, cd: seq<byte> := [97, NL, 98, NL], [99, NL, 100, NL];
    assert Head(ab) == ab && Head(cd) == cd && ab[..4] == ab && cd[..4] == cd;
    assert DetectRotation(sha, d, t.state) == Replaced;
    assert FindGenerations(sha, d, t.state) == Ok(Found([], None));
  }

  // ---- a crash before the first save ----

  /** Three lines, of which the second is never delivered: it was rotated away when the process died without
      having saved a position. */
  method CrashBeforeFirstSave(sha: Hash) returns (delivered: seq<Line>)
    ensures delivered == [[97], [100]]
  {
    hide LinesFrom, IsShort, Follows;
    var ab, c, d: seq<byte> := [97, NL, 98, NL], [99, NL], [100, NL];
    Letters(ab, c, d);
    var tailer, first := StartAndRead(sha, Disk(map[1 := ab], Some(1), None, None), 1);
    var restarted, second := StartAndRead(sha, Disk(map[1 := d, 2 := ab], Some(1), Some(2), None), 10);
    delivered := first + second;
  }

  // ---- a queued file that cannot be read ----

  /** Three lines, of which the second is never delivered: the read of its renamed file fails once, and the
      accepted batch is past it for good. */
  method UnreadableFileIsLost(sha: Hash) returns (delivered: seq<Line>)
    ensures delivered == [[97], [100]]
  {
    hide LinesFrom, AfterRotation, ReadContract, Head, Stream, IsShort, Follows, DeliveredLines;
    var ab, c, d: seq<byte> := [97, NL, 98, NL], [99, NL], [100, NL];
    Letters(ab, c, d);
    var tailer, first := StartAndRead(sha, Disk(map[1 := ab], Some(1), None, None), 1);
    ghost var t0 := tailer.View();
    FollowsAt(sha, Disk(map[1 := ab], Some(1), None, None), t0, 2);
    var d1 := Disk(map[1 := ab, 2 := d], Some(2), Some(1), None);
    RenameQueues(sha, d1, t0);
    ghost var t1 := AfterRotation(sha, d1, t0);
    var entries := tailer.ReadEntries(d1, i => i != 1, 10, BUDGET, []);
    var second := DeliveredLines(entries);
    OnlyNewFile(Seen(d1, i => i != 1), t1, tailer.View(), second);
    tailer.CommitBatch();
    ghost var t2 := tailer.View();
    StaysBound(sha, d1, t2, 2);
    var third := ReadLines(tailer, d1, 10);
    ShortBytes(d, 2);
    ShortOffset(d, 2, 2);
    SoleRead(d1, AfterRotation(sha, d1, t2), tailer.View(), third, 10);
    delivered := first + second + third;
  }

  /** A read of a queued file that gives nothing and of the short file being followed: it is done with both. */
  lemma OnlyNewFile(d: Disk, t1: TailerState, t2: TailerState, got: seq<Line>)
    requires ReadContract(d, t1, t2, [], got, 10, BUDGET) && t1.uncommitted.None? && t1.drains == [Position(1, 2)]
    requires d.live == Some(2) && 1 !in d.files && t1.state.inode == 2 && t1.state.offset == 0
    requires Content(d.files, 2) == [100, NL]
    ensures got == [[100]] && t2.drains == [] && t2.state == t1.state.(offset := 2) && t2.resumes == t1.resumes
  {
    var c: seq<byte> := Content(d.files, 2);
    ShortFile(c);
    NothingPastTheEnd([], 2);
    assert LinesAt(d.files, Position(1, 2)) == [] && LinesAt(d.files, Position(2, 0)) == [[100]];
    QueueOfOne(d.files, t1, Position(1, 2), Position(2, 0));
    assert Unread(d.files, t1) == [[100]];
    hide LinesFrom, LineBytes, ReadContract, Stream, IsShort, Unread;
    LettersBytes(Unread(d.files, t1));
    TakesAll(d, t1, t2, got, 10);
    DoneWithDrain(d, t1, t2, got);
    StreamOne(d.files, Position(2, t2.state.offset));
    ShortOffset(c, 0, t2.state.offset);
  }

  lemma DoneWithDrain(d: Disk, t1: TailerState, t2: TailerState, got: seq<Line>)
    requires ReadContract(d, t1, t2, [], got, 10, BUDGET) && t1.uncommitted.None? && t1.drains == [Position(1, 2)]
    requires 1 !in d.files && |got| == 1 && t1.state.inode == 2
    ensures t2.drains == [] && t2.state == t1.state.(offset := t2.state.offset) && t2.resumes == t1.resumes
    ensures Boundary(Content(d.files, 2), t1.state.offset, t2.state.offset)
    ensures Unread(d.files, t2) == Stream(d.files, [Position(2, t2.state.offset)])
  {
    hide LinesFrom, LineBytes, SpansInv, Stream;
    BatchStartInodes(t2);
    if t2.drains != [] {
      assert QueuedStart(t2) == [Position(1, 2)] && t2.drains[0].inode == 1;
      NothingPastTheEnd([], t2.drains[0].offset);
      assert false;
    }
    assert Positions(t2) == [Position(2, t2.state.offset)];
  }

  // ---- a live file counted as lost ----

  /** A position saved while the log was empty, a line, and a restart: the line is delivered and nothing is lost,
      and yet a loss is counted. */
  method GrowthCountedAsLoss(sha: Hash) returns (delivered: seq<Line>, loss: RotationLoss)
    ensures delivered == [[100]] && loss.events == 1
  {
    hide LinesFrom, AfterRotation, ReadContract, Stream, IsShort, Follows;
    var ab, c, d: seq<byte> := [97, NL, 98, NL], [99, NL], [100, NL];
    Letters(ab, c, d);
    var d0 := Disk(map[1 := []], Some(1), None, None);
    assert IsShort(LiveContent(d0)) by {
      NoLetters(LiveContent(d0));
    }
    var tailer, first := StartAndRead(sha, d0, 10);
    FollowsAt(sha, d0, tailer.View(), 0);
    assert Head(LiveContent(d0)) == [];
    var saved := tailer.PersistCursor();
    var d1 := Disk(map[1 := d], Some(1), None, None);
    var restarted := new LogTailer(sha, d1, Some(saved));
    ghost var t := restarted.View();
    CountsALoss(sha, d1, t);
    var second := ReadLines(restarted, d1, 10);
    ShortBytes(d, 0);
    SoleRead(d1, AfterRotation(sha, d1, t), restarted.View(), second, 10);
    delivered, loss := first + second, restarted.loss;
  }

  lemma CountsALoss(sha: Hash, d: Disk, t: TailerState)
    requires d.live == Some(1) && LiveContent(d) != [] && t == Started(d, Some(t.state))
    requires t.state.inode == 1 && t.state.offset == 0 && t.state.fingerprintLen == Some(0)
    ensures var t1 := AfterRotation(sha, d, t);
            && t1.drains == [] && t1.state.inode == 1 && t1.state.offset == 0 && t1.loss.events == 1
            && t1.uncommitted.None?
  {
    EmptyStampFindsNothing(sha, d, t.state);
  }

  // ---- a rewind after a rotation under an open batch ----

  /** A line is handed out, its file is rotated away and read again before the batch is settled, and the batch is
      rewound: the line is not handed out again. */
  method RewindLosesTruncated(sha: Hash) returns (handedOut: seq<Line>, again: seq<Line>)
    ensures handedOut == [[97]] && again == []
  {
    hide LinesFrom, AfterRotation, ReadContract, Head, Stream, DeliveredLines, Rewound;
    var a: seq<byte> := [97, NL];
    var d0, d1 := Disk(map[1 := a], Some(1), None, None), Disk(map[1 := [], 2 := a], Some(1), Some(2), None);
    var tailer := new LogTailer(sha, d0, None);
    handedOut := ReadLines(tailer, d0, 10);
    ghost var t := tailer.View();
    OpenedBatch(sha, d0, t, handedOut);
    TruncatedUnderBatch(sha, d1, t);
    ghost var t1 := AfterRotation(sha, d1, t);
    AllSeen(d1, _ => true);
    var entries := tailer.ReadEntries(d1, _ => true, 10, BUDGET, []);
    ghost var t2 := tailer.View();
    NothingJoined(d1, t1, t2, DeliveredLines(entries));
    tailer.RewindBatch();
    EmptyLogStays(sha, d1, tailer.View());
    again := ReadLines(tailer, d1, 10);
    NothingThere(d1, AfterRotation(sha, d1, Rewound(t2)), tailer.View(), again);
  }

  /** The first read of a fresh tailer on a log of one line, its batch still open. */
  lemma OpenedBatch(sha: Hash, d: Disk, t: TailerState, got: seq<Line>)
    requires d == Disk(map[1 := [97, NL]], Some(1), None, None)
    requires ReadContract(d, AfterRotation(sha, d, Started(d, None)), t, [], got, 10, BUDGET)
    ensures got == [[97]] && t.drains == [] && t.state == CursorState(1, 2, sha([97, NL]), Some(2))
    ensures t.uncommitted.Some? && t.uncommitted.value.exhausted == [] && t.uncommitted.value.drainOffsets == []
  {
    hide LinesFrom, Stream, AfterRotation, ReadContract, Boundary, LineBytes;
    var c := LiveContent(d);
    assert c == [97, NL] && Head(c) == c && IsShort(c);
    FirstBind(sha, d);
    var t1 := AfterRotation(sha, d, Started(d, None));
    ShortFile(c);
    ShortBytes(c, 0);
    SoleRead(d, t1, t, got, 10);
    ShortOffset(c, 0, t.state.offset);
    NothingParked(d, t1, t, got);
  }

  lemma NothingParked(d: Disk, t1: TailerState, t2: TailerState, got: seq<Line>)
    requires ReadContract(d, t1, t2, [], got, 10, BUDGET) && t1.uncommitted.None? && t1.drains == []
    ensures t2.uncommitted.Some? && t2.uncommitted.value.exhausted == [] && t2.uncommitted.value.drainOffsets == []
  {
    hide LinesFrom, Stream, SpansInv, LineBytes, Boundary, MovedByLines;
    assert |BatchStart(t2)| == |Positions(t1)| == 1;
  }

  lemma TruncatedUnderBatch(sha: Hash, d: Disk, t: TailerState)
    requires d == Disk(map[1 := [], 2 := [97, NL]], Some(1), Some(2), None)
    requires t.drains == [] && t.state == CursorState(1, 2, sha([97, NL]), Some(2))
    requires t.uncommitted.Some? && t.uncommitted.value.exhausted == [] && t.uncommitted.value.drainOffsets == []
    ensures var t1 := AfterRotation(sha, d, t);
            && t1.drains == [] && t1.state == CursorState(1, 0, sha([]), Some(0))
            && t1.uncommitted == Some(t.uncommitted.value.(offset := 0))
            && BatchInv(d.files, t1, [])
  {
    var c: seq<byte> := [97, NL];
    assert Head(c) == c && Head(c)[..2] == c && Head([]) == [];
    assert Content(d.files, 2) == c && LiveContent(d) == [];
    assert FindGenerations(sha, d, t.state) == Ok(Found([], None));
    assert QueueGenerations(t.(resumes := Queued(t.resumes, Inodes(t.drains))), [])
           == t.(resumes := Queued(t.resumes, Inodes(t.drains)));
    var t1 := AfterRotation(sha, d, t);
    assert BatchStart(t1) == [Position(1, 0)] == Positions(t1);
  }

  /** A read joined to the batch that finds nothing. */
  lemma NothingJoined(d: Disk, t1: TailerState, t2: TailerState, got: seq<Line>)
    requires d == Disk(map[1 := [], 2 := [97, NL]], Some(1), Some(2), None)
    requires ReadContract(d, t1, t2, [], got, 10, BUDGET) && t1.drains == [] && t1.uncommitted.Some?
    requires t1.state == CursorState(1, 0, t1.state.fingerprint, Some(0))
    requires t1.uncommitted.value.exhausted == [] && t1.uncommitted.value.drainOffsets == []
             && t1.uncommitted.value.offset == 0
    ensures Aligned(t2) && Rewound(t2).drains == [] && Rewound(t2).uncommitted.None?
    ensures Rewound(t2).state == t1.state
  {
    hide LinesFrom, Stream;
    assert BatchStart(t2) == [Position(1, 0)];
    BatchStartInodes(t2);
  }

  lemma EmptyLogStays(sha: Hash, d: Disk, t: TailerState)
    requires d == Disk(map[1 := [], 2 := [97, NL]], Some(1), Some(2), None)
    requires t.state == CursorState(1, 0, t.state.fingerprint, Some(0)) && t.drains == [] && t.uncommitted.None?
    ensures AfterRotation(sha, d, t) == t
  {
    assert LiveContent(d) == [] && Head([]) == [];
  }

  lemma NothingThere(d: Disk, t1: TailerState, t2: TailerState, got: seq<Line>)
    requires d == Disk(map[1 := [], 2 := [97, NL]], Some(1), Some(2), None)
    requires ReadContract(d, t1, t2, [], got, 10, BUDGET) && t1.drains == [] && t1.state.inode == 1
    ensures got == []
  {
    hide LinesFrom;
    assert Positions(t1) == [Position(1, t1.state.offset)];
    StreamOne(d.files, Positions(t1)[0]);
    NothingPastTheEnd([], t1.state.offset);
  }
}
