/** What the tailer's operations do to the logical stream, one operation at a time. */
module TailerRefinement {
  import opened Bytes
  import opened Sequences
  import opened LineReader
  import opened Cursor
  import opened LogStream
  import opened Tailer

  /** Rewinding puts back exactly the lines handed out since the last commit. */
  lemma RewindRestores(files: Files, t: TailerState, taken: seq<Line>)
    requires BatchInv(files, t, taken)
    ensures Unread(files, Rewound(t)) == taken + Unread(files, t)
    ensures BatchInv(files, Rewound(t), [])
  {
    hide Stream;
    if t.uncommitted.Some? {
      assert Positions(Rewound(t)) == BatchStart(t);
    }
  }

  /** A partial commit that is allowed keeps exactly the lines after the first `k`. */
  lemma ThroughTakesPrefix(files: Files, t: TailerState, taken: seq<Line>, k: nat)
    requires t.uncommitted.Some? && BatchInv(files, t, taken) && SpansInv(files, t, taken)
    requires k <= |t.uncommitted.value.spans|
    ensures k <= |taken| == |t.uncommitted.value.spans|
    ensures Unread(files, Through(t, k)) == taken[k..] + Unread(files, t)
    ensures BatchInv(files, Through(t, k), [])
  {
    hide Stream, SpanSteps, LinesPlaced, AdvanceAll;
    var u := t.uncommitted.value;
    var ps := BatchStart(t);
    SpanStepsTo(files, ps, u.spans, taken, k);
    var adv := AdvanceAll(ps, u.spans[..k]);
    AdvanceKeepsInodes(ps, u.spans[..k]);
    assert Positions(Through(t, k)) == adv;
    assert taken == taken[..k] + taken[k..];
    assert taken[..k] + Stream(files, adv) == taken[..k] + (taken[k..] + Unread(files, t));
    PrefixCancels(taken[..k], Stream(files, adv), taken[k..] + Unread(files, t));
  }

  lemma {:induction false} AdvanceKeepsInodes(ps: seq<Position>, spans: seq<Span>)
    requires SourcesBelow(spans, |ps|)
    ensures forall i :: 0 <= i < |ps| ==> AdvanceAll(ps, spans)[i].inode == ps[i].inode
  {
    if spans != [] {
      AdvanceKeepsInodes(ps, spans[..|spans| - 1]);
    }
  }

  // ---- rename rotation ----

  /** The handle kept open is always the file being followed. */
  predicate HandleInv(t: TailerState) {
    t.file.Some? ==> t.file.value == t.state.inode
  }

  /** The log's path now names another file than the one being followed. */
  predicate RenamedAway(d: Disk, t: TailerState) {
    d.live.Some? && d.live.value != t.state.inode
  }

  /** A renamed file the tailer holds open is drained in full before the new one: no line is lost or
      reordered, and a batch that was open across the rotation can still be rewound exactly. */
  lemma RenameKeepsStream(sha: Hash, d: Disk, t: TailerState, had: seq<Line>)
    requires RenamedAway(d, t) && t.file == Some(t.state.inode)
    requires BatchInv(d.files, t, had)
    ensures Unread(d.files, AfterRotation(sha, d, t)) == Unread(d.files, t) + LinesFrom(LiveContent(d), 0)
    ensures BatchInv(d.files, AfterRotation(sha, d, t), had)
  {
    hide Stream, LinesFrom;
    var t', new_ := AfterRotation(sha, d, t), [Position(d.live.value, 0)];
    assert Positions(t') == Positions(t) + new_;
    StreamConcat(d.files, Positions(t), new_);
    StreamOne(d.files, new_[0]);
    if t.uncommitted.Some? {
      assert BatchStart(t') == BatchStart(t) + new_;
      StreamConcat(d.files, BatchStart(t), new_);
    }
  }

  /** A renamed file the tailer never opened is dropped: the stream survives the rotation exactly when
      the displaced file was held open or had no unread line. */
  lemma RenameLosesUnopened(sha: Hash, d: Disk, t: TailerState)
    requires RenamedAway(d, t) && HandleInv(t) && t.uncommitted.None?
    ensures Unread(d.files, AfterRotation(sha, d, t)) == Unread(d.files, t) + LinesFrom(LiveContent(d), 0)
            <==> t.file.Some? || LinesAt(d.files, Position(t.state.inode, t.state.offset)) == []
  {
    hide Stream, LinesFrom;
    if t.file.Some? {
      RenameKeepsStream(sha, d, t, []);
    } else {
      var t', old_, new_ := AfterRotation(sha, d, t), [Position(t.state.inode, t.state.offset)],
                            [Position(d.live.value, 0)];
      assert Positions(t') == t.drains + new_ && Positions(t) == t.drains + old_;
      StreamConcat(d.files, t.drains, new_);
      StreamConcat(d.files, t.drains, old_);
      StreamOne(d.files, new_[0]);
      StreamOne(d.files, old_[0]);
    }
  }

  // ---- a file that only grows ----

  /** The file being followed still begins with the bytes its stamp was taken on. */
  ghost predicate StampHolds(sha: Hash, c: seq<byte>, st: CursorState) {
    && st.fingerprintLen.Some?
    && var n := st.fingerprintLen.value;
       && n <= |c| && n <= WINDOW
       && (n > 0 ==> st.fingerprint == sha(c[..n]))
       && (n == 0 ==> st.offset == 0)
       && st.offset <= |c|
  }

  /** The stamp covers all there is of the window. */
  ghost predicate StampsHead(sha: Hash, c: seq<byte>, st: CursorState) {
    st.fingerprintLen == Some(|Head(c)|) && (c != [] ==> st.fingerprint == sha(Head(c)))
  }

  /** After rotation handling the stamp is that of the whole window of the live file, whatever it was before: a
      narrower one that still matches is widened, and every rotation takes a new one. */
  lemma PollStampsHead(sha: Hash, d: Disk, t: TailerState)
    requires d.live.Some? && (t.state.inode == d.live.value ==> t.state.fingerprintLen.Some?)
    requires t.state.fingerprintLen.Some? ==> t.state.fingerprintLen.value <= WINDOW
    ensures StampsHead(sha, LiveContent(d), AfterRotation(sha, d, t).state)
  {
    var head := Head(LiveContent(d));
    assert head[..|head|] == head;
    if DetectRotation(sha, d, t.state) in {Truncated, Replaced} {
      var search := FindGenerations(sha, d, t.state);
      var found := if search.Ok? then search.found else Found([], Some(search.reason));
      QueueKeepsState(t.(resumes := Queued(t.resumes, Inodes(t.drains))), found.generations);
    }
  }

  /** A batch of one read that has these lines. */
  predicate Describes(t: TailerState, lines: nat) {
    t.uncommitted.Some? && t.uncommitted.value.spansValid && lines <= |t.uncommitted.value.spans|
  }

  /** The first lines of a batch can be accepted when the log was renamed, or only grew since it was stamped. */
  lemma ThroughKept(sha: Hash, d: Disk, t: TailerState, lines: nat)
    requires Describes(t, lines) && d.live.Some?
    requires d.live.value != t.state.inode || StampHolds(sha, LiveContent(d), t.state)
    requires t.state.fingerprintLen == Some(0) ==> t.lastKnownSize == 0
    ensures ThroughAllowed(sha, d, t, lines)
  {
    var c := LiveContent(d);
    if d.live.value == t.state.inode && t.state.fingerprintLen.value > 0 {
      assert Head(c)[..t.state.fingerprintLen.value] == c[..t.state.fingerprintLen.value];
    }
  }

  /** A file that only grew since it was stamped is read on from where reading stood, whatever the
      rotated copies hold and however short the stamp was. */
  lemma GrowthKeepsPositions(sha: Hash, d: Disk, t: TailerState)
    requires d.live == Some(t.state.inode)
    requires StampHolds(sha, LiveContent(d), t.state)
    requires t.uncommitted.Some? && t.state.offset == 0 ==> t.uncommitted.value.offset == 0
    ensures var t' := AfterRotation(sha, d, t);
            && Positions(t') == Positions(t)
            && t'.resumes == (if AfterRecoveryRan(sha, d, t) then Queued(t.resumes, Inodes(t.drains)) else t.resumes)
            && (t'.uncommitted == t.uncommitted)
            && t'.state.inode == t.state.inode
            && StampHolds(sha, LiveContent(d), t'.state)
            && (HandleInv(t) ==> HandleInv(t'))
            && (LiveContent(d) != [] ==> t'.state.fingerprintLen.value > 0)
  {
    var c, n := LiveContent(d), t.state.fingerprintLen.value;
    var t' := AfterRotation(sha, d, t);
    if n > 0 {
      assert Head(c)[..n] == c[..n];
      assert DetectRotation(sha, d, t.state) == NoRotation;
    } else {
      EmptyStampFindsNothing(sha, d, t.state);
      assert QueueGenerations(t.(resumes := Queued(t.resumes, Inodes(t.drains))), [])
             == t.(resumes := Queued(t.resumes, Inodes(t.drains)));
    }
    assert Head(c) == c[..|Head(c)|];
    assert Head(c)[..|Head(c)|] == Head(c);
  }

  /** Whether the rotation handling took the recovery branch. */
  predicate AfterRecoveryRan(sha: Hash, d: Disk, t: TailerState) {
    var e := DetectRotation(sha, d, t.state);
    e == Truncated ||
    (e == Replaced && !(FindGenerations(sha, d, t.state).Missing? && MaybeFalsePositiveReplaced(d, t)))
  }

  lemma EmptyStampFindsNothing(sha: Hash, d: Disk, st: CursorState)
    requires st.fingerprintLen == Some(0)
    ensures FindGenerations(sha, d, st).Missing?
  {
  }
}
