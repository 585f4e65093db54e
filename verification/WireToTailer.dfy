/** The spool between the gateway and the tailer: what its lines are after any writes, and the round
    trip of records from the wire to the lines intake reads. */
module WireToTailer {
  import opened Bytes
  import opened Sequences
  import opened LineReader
  import opened Frame
  import opened Connection
  import opened Gateway

  // ---- lines of the spool ----

  /** Records written after `s`: the lines of `s`, the first record joined to the fragment `s` ends in,
      and the others one line each. */
  lemma {:induction false} JoinedLines(s: seq<byte>, rs: seq<Line>)
    requires rs != [] && forall i :: 0 <= i < |rs| ==> NL !in rs[i]
    ensures SplitFrom(s + Join(rs), 0) == SplitFrom(s, 0) + [s[FragmentFrom(s, 0)..] + rs[0]] + rs[1..]
    ensures AtLineStart(s + Join(rs))
    decreases |rs|
  {
    var init, last := rs[..|rs| - 1], rs[|rs| - 1];
    assert Join(rs) == Join(init) + last + [NL];
    assert init == [] ==> Join(init) == [];
    hide SplitFrom, FragmentFrom, Join;
    if init == [] {
      assert s + Join(rs) == s + last + [NL];
      SplitSnoc(s, last, 0);
      assert rs == [last];
    } else {
      JoinedLines(s, init);
      var t := s + Join(init);
      assert s + Join(rs) == t + last + [NL];
      SplitSnoc(t, last, 0);
      NoFragment(t, 0);
      assert t[|t|..] + last == last;
      assert rs[1..] == init[1..] + [last] && init[0] == rs[0];
    }
  }

  /** A batch written to the spool stands there as exactly its records, one line each, if and only if
      the spool did not end inside a line. */
  lemma RecordsBecomeLines(s: seq<byte>, rs: seq<Line>)
    requires rs != [] && forall i :: 0 <= i < |rs| ==> NL !in rs[i]
    ensures SplitFrom(s + Join(rs), 0) == SplitFrom(s, 0) + rs <==> AtLineStart(s)
  {
    hide SplitFrom, FragmentFrom;
    JoinedLines(s, rs);
    NoFragment(s, 0);
    var n := |SplitFrom(s, 0)|;
    var fragment := s[FragmentFrom(s, 0)..];
    var lines := SplitFrom(s + Join(rs), 0);
    assert lines[n] == fragment + rs[0] && (SplitFrom(s, 0) + rs)[n] == rs[0];
    if AtLineStart(s) {
      assert fragment + rs[0] == rs[0];
      assert rs == [rs[0]] + rs[1..];
      assert lines == SplitFrom(s, 0) + [rs[0]] + rs[1..];
    } else {
      assert |fragment + rs[0]| > |rs[0]|;
    }
  }

  /** A torn write followed by the retry that succeeds: the state is durable, and the record it covers
      is not a line of the spool. */
  lemma TornWriteMergesRecord(b: Batch)
    requires b.seqno == 1 && b.prev == Fresh().lastHash && b.records == [[65, 66]]
    ensures var events := [Offer(b, Faults(true, Some(1), Stored)), Offer(b, Faults(true, None, Stored))];
            var h := Replay(true, events);
            && h.c.disk == Some(CollectorState(1, b.hash))
            && h.c.spool == [65, 65, 66, 10]
            && SplitFrom(h.c.spool, 0) == [[65, 65, 66]]
  {
    var e1, e2 := Offer(b, Faults(true, Some(1), Stored)), Offer(b, Faults(true, None, Stored));
    var events := [e1, e2];
    assert events[..1] == [e1] && [e1][..0] == [];
    var h0 := Replay(true, []);
    var h1 := After(true, h0, e1);
    assert Replay(true, [e1]) == h1;
    assert Join(b.records) == [65, 66, 10] by {
      assert b.records[..0] == [];
      assert Join([]) + [65, 66] + [NL] == [65, 66, 10];
    }
    assert h1.c.spool == [65] by {
      assert [] + Torn([65, 66, 10], 1) == [65];
    }
    assert Replay(true, events) == After(true, h1, e2);
    var spool := [65, 65, 66, 10];
    assert Replay(true, events).c.spool == spool by {
      assert [65] + [65, 66, 10] == spool;
    }
    NextNewlineIs(spool, 0, 3);
    assert SplitFrom(spool, 4) == [];
    assert spool[0..3] == [65, 65, 66];
  }

  /** Newline-free batches, and no torn write that stops inside a line. */
  ghost predicate TornAtLineEnds(events: seq<Event>) {
    forall i :: 0 <= i < |events| && events[i].Offer? ==>
                  && events[i].batch.records != [] && RecordsInBounds(events[i].batch.records)
                  && (events[i].faults.torn.Some? ==>
                        AtLineStart(Torn(Join(events[i].batch.records), events[i].faults.torn.value)))
  }

  ghost predicate LineBacked(chain: seq<Batch>, spool: seq<byte>) {
    Subseq(RecordsOf(chain), SplitFrom(spool, 0))
  }

  /** Through every other failure, every record behind the durable state is a line of the spool, in
      order. */
  lemma {:induction false} RecordsStayLines(safe: bool, events: seq<Event>)
    requires TornAtLineEnds(events)
    ensures var h := Replay(safe, events);
            AtLineStart(h.c.spool) && LineBacked(h.memory, h.c.spool) && LineBacked(h.durable, h.c.spool)
  {
    if events == [] {
      assert RecordsOf([]) == [];
    } else {
      var init, e := events[..|events| - 1], events[|events| - 1];
      RecordsStayLines(safe, init);
      ReplayStep(safe, events);
      var h := Replay(safe, init);
      if e.Offer? {
        hide Replay, LineBacked, Join, RecordsInBounds, After;
        OfferKeepsLines(safe, h, e.batch, e.faults);
      } else {
        NothingLineBacked(h.c.spool);
      }
    }
  }

  lemma CurrentLineBacked(safe: bool, h: History, f: Faults)
    requires LineBacked(h.memory, h.c.spool) && LineBacked(h.durable, h.c.spool)
    ensures LineBacked(CurrentChain(safe, h, f), h.c.spool)
  {
    hide LineBacked;
    NothingLineBacked(h.c.spool);
  }

  lemma OfferKeepsLines(safe: bool, h: History, b: Batch, f: Faults)
    requires AtLineStart(h.c.spool) && LineBacked(h.memory, h.c.spool) && LineBacked(h.durable, h.c.spool)
    requires b.records != [] && RecordsInBounds(b.records)
    requires f.torn.Some? ==> AtLineStart(Torn(Join(b.records), f.torn.value))
    ensures var h' := After(safe, h, Offer(b, f));
            AtLineStart(h'.c.spool) && LineBacked(h'.memory, h'.c.spool) && LineBacked(h'.durable, h'.c.spool)
  {
    hide *;
    var chain, h' := CurrentChain(safe, h, f), After(safe, h, Offer(b, f));
    CurrentLineBacked(safe, h, f);
    OfferWrites(safe, h, b, f);
    if !Writes(safe, h, b, f) {
    } else if f.torn.Some? {
      var part := Torn(Join(b.records), f.torn.value);
      LinesGrow(chain, h.c.spool, part);
      LinesGrow(h.durable, h.c.spool, part);
      StartAfter(h.c.spool, part);
    } else {
      LinesGrow(chain, h.c.spool, Join(b.records));
      LinesGrow(h.durable, h.c.spool, Join(b.records));
      LinesExtend(chain, h.c.spool, b);
    }
  }

  /** Whether an offer gets as far as the spool. */
  ghost predicate Writes(safe: bool, h: History, b: Batch, f: Faults) {
    Extends(Current(safe, h.c, f), b) && safe
  }

  /** What an offer adds to the spool, and the chains it leaves. */
  lemma OfferWrites(safe: bool, h: History, b: Batch, f: Faults)
    ensures var chain, h' := CurrentChain(safe, h, f), After(safe, h, Offer(b, f));
            && (!Writes(safe, h, b, f) ==> h'.c.spool == h.c.spool && h'.memory == chain && h'.durable == h.durable)
            && (Writes(safe, h, b, f) && f.torn.Some? ==>
                  && h'.c.spool == h.c.spool + Torn(Join(b.records), f.torn.value)
                  && h'.memory == chain && h'.durable == h.durable)
            && (Writes(safe, h, b, f) && f.torn.None? ==>
                  && h'.c.spool == h.c.spool + Join(b.records)
                  && h'.memory in {chain, chain + [b]} && h'.durable in {h.durable, chain + [b]})
  {
    hide Extends, Current, CurrentChain, Join, Torn, Wholes;
  }

  lemma NothingLineBacked(spool: seq<byte>)
    ensures LineBacked([], spool)
  {
    assert RecordsOf([]) == [];
  }

  lemma StartAfter(a: seq<byte>, b: seq<byte>)
    requires AtLineStart(a) && AtLineStart(b)
    ensures AtLineStart(a + b)
  {
  }

  lemma LinesGrow(chain: seq<Batch>, spool: seq<byte>, more: seq<byte>)
    requires LineBacked(chain, spool)
    ensures LineBacked(chain, spool + more)
  {
    hide SplitFrom, FragmentFrom;
    SplitAppend(spool, more, 0);
    SubseqAppend(RecordsOf(chain), SplitFrom(spool, 0), SplitFrom(spool + more, FragmentFrom(spool, 0)));
  }

  lemma LinesExtend(chain: seq<Batch>, spool: seq<byte>, b: Batch)
    requires LineBacked(chain, spool) && AtLineStart(spool) && b.records != [] && RecordsInBounds(b.records)
    ensures LineBacked(chain + [b], spool + Join(b.records)) && AtLineStart(spool + Join(b.records))
  {
    hide SplitFrom, Join;
    RecordsBecomeLines(spool, b.records);
    JoinedLines(spool, b.records);
    RecordsSnoc(chain, b);
    SubseqBoth(RecordsOf(chain), SplitFrom(spool, 0), b.records);
  }

  // ---- without failures ----

  ghost predicate Faultless(sha: Hash, events: seq<Event>) {
    forall i :: 0 <= i < |events| ==>
                  events[i].Offer? ==> events[i].faults == Faults(true, None, Stored) && InBounds(sha, events[i].batch)
  }

  ghost predicate Once(sha: Hash, h: History) {
    && h.c.spool == Join(RecordsOf(h.durable))
    && AllInBounds(sha, h.durable)
    && (h.c.mem.Some? ==> h.memory == h.durable && h.c.mem.value == HeadOf(h.durable))
    && (if h.c.disk.None? then h.durable == [] else h.c.disk.value == HeadOf(h.durable))
  }

  lemma OfferedOnce(sha: Hash, h: History, b: Batch)
    requires Once(sha, h) && InBounds(sha, b)
    ensures Once(sha, After(true, h, Offer(b, Faults(true, None, Stored))))
  {
    hide Join, RecordsOf, InBounds, HeadOf, Wholes;
    var f := Faults(true, None, Stored);
    HeadSnoc(h.durable, b);
    assert Current(true, h.c, f) == HeadOf(h.durable) && CurrentChain(true, h, f) == h.durable;
    RecordsSnoc(h.durable, b);
    JoinConcat(RecordsOf(h.durable), b.records);
    var h' := After(true, h, Offer(b, f));
    if Extends(HeadOf(h.durable), b) {
      assert h'.durable == h'.memory == h.durable + [b] && h'.c.spool == h.c.spool + Join(b.records);
    } else {
      assert h'.durable == h'.memory == h.durable && h'.c.spool == h.c.spool;
    }
  }

  /** With no failure, and restarts anywhere, each batch of the chain is spooled exactly once. */
  lemma {:induction false} SpooledOnce(sha: Hash, events: seq<Event>)
    requires Faultless(sha, events)
    ensures Once(sha, Replay(true, events))
  {
    if events != [] {
      var init, e := events[..|events| - 1], events[|events| - 1];
      SpooledOnce(sha, init);
      var h := Replay(true, init);
      ReplayStep(true, events);
      if e.Offer? {
        assert e.faults == Faults(true, None, Stored) && InBounds(sha, e.batch);
        hide Replay, Once, After, InBounds;
        OfferedOnce(sha, h, e.batch);
      }
    } else {
      assert RecordsOf([]) == [];
    }
  }

  lemma HeadSnoc(bs: seq<Batch>, b: Batch)
    ensures Extends(HeadOf(bs), b) ==> HeadOf(bs + [b]) == CollectorState(b.seqno, b.hash)
    ensures HeadOf([]) == Fresh()
  {
  }

  lemma {:induction false} JoinConcat(a: seq<Line>, b: seq<Line>)
    ensures Join(a + b) == Join(a) + Join(b)
    decreases |b|
  {
    if b == [] {
      assert a + b == a;
    } else {
      JoinConcat(a, b[..|b| - 1]);
      assert (a + b)[..|a + b| - 1] == a + b[..|b| - 1];
    }
  }

  lemma {:induction false} RecordsBounded(sha: Hash, bs: seq<Batch>)
    requires AllInBounds(sha, bs)
    ensures RecordsInBounds(RecordsOf(bs))
  {
    if bs != [] {
      RecordsBounded(sha, bs[..|bs| - 1]);
      assert InBounds(sha, bs[|bs| - 1]);
    }
  }

  /** The records of decoded batches, spooled without failure, are read back by the tailer as exactly
      the same lines in the same order, and none of them is over length. */
  lemma RecordsReachTheTailer(sha: Hash, events: seq<Event>)
    requires Faultless(sha, events)
    ensures var h := Replay(true, events);
            && LinesFrom(h.c.spool, 0) == RecordsOf(h.durable)
            && SplitFrom(h.c.spool, 0) == RecordsOf(h.durable)
            && AtLineStart(h.c.spool)
  {
    SpooledOnce(sha, events);
    var h := Replay(true, events);
    var rs := RecordsOf(h.durable);
    hide Replay, InBounds, SplitFrom, LinesFrom, Join, RecordsOf;
    RecordsBounded(sha, h.durable);
    SplitJoin(rs);
    JoinAtLineStart(rs);
    assert MAX_RECORD_LEN == MAX_LINE_BYTES;
    NothingOverLength(h.c.spool, 0);
  }
}
