/** The logical stream a tailer reads: the unread lines of a queue of positions, one file after another. */
module LogStream {
  import opened Bytes
  import opened LineReader
  import opened Cursor

  /** A read offset into one file. */
  datatype Position = Position(inode: nat, offset: nat)

  /** Bytes consumed in source `source` of a batch by one delivered line. */
  datatype Span = Span(source: nat, bytes: nat)

  type Files = map<nat, seq<byte>>

  function LinesAt(files: Files, p: Position): seq<Line> {
    LinesFrom(Content(files, p.inode), p.offset)
  }

  /** Every line still unread in a queue of positions, oldest file first. */
  function Stream(files: Files, ps: seq<Position>): seq<Line> {
    if ps == [] then [] else LinesAt(files, ps[0]) + Stream(files, ps[1..])
  }

  lemma NothingQueued(files: Files)
    ensures Stream(files, []) == []
  {
  }

  lemma {:induction false} StreamConcat(files: Files, a: seq<Position>, b: seq<Position>)
    ensures Stream(files, a + b) == Stream(files, a) + Stream(files, b)
  {
    hide LinesAt;
    if a == [] {
      assert a + b == b;
    } else {
      assert (a + b)[1..] == a[1..] + b;
      StreamConcat(files, a[1..], b);
    }
  }

  lemma StreamOne(files: Files, p: Position)
    ensures Stream(files, [p]) == LinesAt(files, p)
  {
    hide LinesAt;
    assert [p][1..] == [];
  }

  /** Every entry still owed in a queue of positions: its lines, and each over-length one in its place. */
  function EntryStream(files: Files, ps: seq<Position>): seq<TailEntry> {
    if ps == [] then [] else EntriesFrom(Content(files, ps[0].inode), ps[0].offset) + EntryStream(files, ps[1..])
  }

  lemma {:induction false} EntryStreamConcat(files: Files, a: seq<Position>, b: seq<Position>)
    ensures EntryStream(files, a + b) == EntryStream(files, a) + EntryStream(files, b)
  {
    hide EntriesFrom, Content;
    if a == [] {
      assert a + b == b;
    } else {
      assert (a + b)[1..] == a[1..] + b;
      EntryStreamConcat(files, a[1..], b);
    }
  }

  lemma EntryStreamOne(files: Files, p: Position)
    ensures EntryStream(files, [p]) == EntriesFrom(Content(files, p.inode), p.offset)
  {
    hide EntriesFrom, Content;
    assert [p][1..] == [];
  }

  /** The stream of lines is what the stream of entries delivers. */
  lemma {:induction false} EntryStreamDelivers(files: Files, ps: seq<Position>)
    ensures DeliveredLines(EntryStream(files, ps)) == Stream(files, ps)
  {
    if ps != [] {
      hide EntriesFrom, Content, LinesFrom, DeliveredLines;
      EntryStreamDelivers(files, ps[1..]);
      EntriesDeliver(Content(files, ps[0].inode), ps[0].offset);
      DeliveredConcat(EntriesFrom(Content(files, ps[0].inode), ps[0].offset), EntryStream(files, ps[1..]));
    }
  }

  /** No line is left in the first `s` sources. */
  ghost predicate Quiet(files: Files, ps: seq<Position>, s: nat) {
    s <= |ps| && forall i :: 0 <= i < s ==> LinesAt(files, ps[i]) == []
  }

  lemma {:induction false} QuietPrefix(files: Files, ps: seq<Position>, s: nat)
    requires Quiet(files, ps, s)
    ensures Stream(files, ps) == Stream(files, ps[s..])
    decreases s
  {
    hide LinesAt;
    if s > 0 {
      QuietPrefix(files, ps[1..], s - 1);
      assert ps[1..][s - 1..] == ps[s..];
    } else {
      assert ps[0..] == ps;
    }
  }

  function Advance(ps: seq<Position>, sp: Span): seq<Position>
    requires sp.source < |ps|
  {
    ps[sp.source := ps[sp.source].(offset := ps[sp.source].offset + sp.bytes)]
  }

  predicate SourcesBelow(spans: seq<Span>, n: nat) {
    forall i :: 0 <= i < |spans| ==> spans[i].source < n
  }

  /** The positions after moving over `spans`, in order. */
  function AdvanceAll(ps: seq<Position>, spans: seq<Span>): (r: seq<Position>)
    requires SourcesBelow(spans, |ps|)
    ensures |r| == |ps|
  {
    if spans == [] then ps
    else Advance(AdvanceAll(ps, spans[..|spans| - 1]), spans[|spans| - 1])
  }

  lemma AdvanceAllSnoc(ps: seq<Position>, spans: seq<Span>, sp: Span)
    requires SourcesBelow(spans, |ps|) && sp.source < |ps|
    ensures SourcesBelow(spans + [sp], |ps|)
    ensures AdvanceAll(ps, spans + [sp]) == Advance(AdvanceAll(ps, spans), sp)
  {
    assert (spans + [sp])[..|spans|] == spans;
  }

  lemma {:induction false} AdvanceAllCons(ps: seq<Position>, spans: seq<Span>)
    requires SourcesBelow(spans, |ps|) && spans != []
    ensures SourcesBelow(spans[1..], |ps|)
    ensures AdvanceAll(ps, spans) == AdvanceAll(Advance(ps, spans[0]), spans[1..])
  {
    hide Advance;
    if |spans| == 1 {
      assert spans[..0] == [] && spans[1..] == [];
    } else {
      var init := spans[..|spans| - 1];
      AdvanceAllCons(ps, init);
      assert spans[1..][..|spans| - 2] == init[1..];
    }
  }

  /** Moving over a line of the first source that has one takes exactly that line off the stream. */
  lemma AdvanceTakesLine(files: Files, ps: seq<Position>, sp: Span, l: Line)
    requires sp.source < |ps| && Quiet(files, ps, sp.source)
    requires LinesAt(files, ps[sp.source]) == [l] + LinesAt(files, Advance(ps, sp)[sp.source])
    ensures Stream(files, ps) == [l] + Stream(files, Advance(ps, sp))
    ensures Quiet(files, Advance(ps, sp), sp.source)
  {
    hide LinesAt;
    var s, ps' := sp.source, Advance(ps, sp);
    QuietPrefix(files, ps, s);
    QuietPrefix(files, ps', s);
    assert ps[s..][1..] == ps'[s..][1..];
  }

  /** Each span in turn takes exactly the next line of `ls` off the stream. */
  ghost predicate SpanSteps(files: Files, ps: seq<Position>, spans: seq<Span>, ls: seq<Line>)
    requires SourcesBelow(spans, |ps|)
    decreases |spans|
  {
    if spans == [] || ls == [] then spans == [] && ls == []
    else
      && Stream(files, ps) == [ls[0]] + Stream(files, Advance(ps, spans[0]))
      && SpanSteps(files, Advance(ps, spans[0]), spans[1..], ls[1..])
  }

  lemma {:induction false} SpanStepsSnoc(files: Files, ps: seq<Position>, spans: seq<Span>, ls: seq<Line>, sp: Span,
                                         l: Line)
    requires SourcesBelow(spans, |ps|) && sp.source < |ps|
    requires SpanSteps(files, ps, spans, ls)
    requires Stream(files, AdvanceAll(ps, spans)) == [l] + Stream(files, Advance(AdvanceAll(ps, spans), sp))
    ensures SourcesBelow(spans + [sp], |ps|)
    ensures SpanSteps(files, ps, spans + [sp], ls + [l])
    decreases |spans|
  {
    hide Stream, AdvanceAll, Advance;
    if spans == [] {
      assert (spans + [sp])[1..] == [] && (ls + [l])[1..] == [];
      EmptyAdvance(ps);
    } else {
      AdvanceAllCons(ps, spans);
      assert (spans + [sp])[1..] == spans[1..] + [sp];
      assert (ls + [l])[1..] == ls[1..] + [l];
      AdvanceLength(ps, spans[0]);
      SpanStepsSnoc(files, Advance(ps, spans[0]), spans[1..], ls[1..], sp, l);
    }
  }

  lemma EmptyAdvance(ps: seq<Position>)
    ensures AdvanceAll(ps, []) == ps
  {
  }

  lemma AdvanceLength(ps: seq<Position>, sp: Span)
    requires sp.source < |ps|
    ensures |Advance(ps, sp)| == |ps|
  {
  }

  /** Moving over the first `j` spans takes exactly the first `j` lines off the stream. */
  lemma {:induction false} SpanStepsTo(files: Files, ps: seq<Position>, spans: seq<Span>, ls: seq<Line>, j: nat)
    requires SourcesBelow(spans, |ps|) && SpanSteps(files, ps, spans, ls)
    requires j <= |spans|
    ensures |ls| == |spans|
    ensures Stream(files, ps) == ls[..j] + Stream(files, AdvanceAll(ps, spans[..j]))
    decreases |spans|
  {
    hide Stream, AdvanceAll, Advance;
    EmptyAdvance(ps);
    assert spans[..0] == [];
    if spans != [] {
      AdvanceLength(ps, spans[0]);
      if j == 0 {
        SpanStepsTo(files, Advance(ps, spans[0]), spans[1..], ls[1..], 0);
      } else {
        SpanStepsTo(files, Advance(ps, spans[0]), spans[1..], ls[1..], j - 1);
        AdvanceAllCons(ps, spans[..j]);
        assert spans[..j][1..] == spans[1..][..j - 1];
        assert ls[..j] == [ls[0]] + ls[1..][..j - 1];
      }
    }
  }

  /** The spans of one read, charged to its source. */
  function Tag(s: nat, spans: seq<nat>): (r: seq<Span>)
    ensures |r| == |spans|
  {
    seq(|spans|, i requires 0 <= i < |spans| => Span(s, spans[i]))
  }

  /** Recording a read of source `s`, the first with lines left, continues the batch's spans. */
  lemma {:induction false} RecordSteps(files: Files, ps: seq<Position>, spans: seq<Span>, ls: seq<Line>,
                                       s: nat, rspans: seq<nat>, rls: seq<Line>)
    requires SourcesBelow(spans, |ps|) && s < |ps|
    requires SpanSteps(files, ps, spans, ls)
    requires Quiet(files, AdvanceAll(ps, spans), s)
    requires var p := AdvanceAll(ps, spans)[s]; StepsOver(Content(files, p.inode), p.offset, rspans, rls)
    ensures SourcesBelow(spans + Tag(s, rspans), |ps|)
    ensures SpanSteps(files, ps, spans + Tag(s, rspans), ls + rls)
    ensures AdvanceAll(ps, spans + Tag(s, rspans)) == Advance(AdvanceAll(ps, spans), Span(s, Sum(rspans)))
    decreases |rspans|
  {
    hide Stream, AdvanceAll, LinesFrom, Content, SpanSteps;
    var cur := AdvanceAll(ps, spans);
    if rspans == [] {
      assert spans + Tag(s, rspans) == spans && ls + rls == ls;
    } else {
      var sp := Span(s, rspans[0]);
      AdvanceTakesLine(files, cur, sp, rls[0]);
      SpanStepsSnoc(files, ps, spans, ls, sp, rls[0]);
      AdvanceAllSnoc(ps, spans, sp);
      RecordSteps(files, ps, spans + [sp], ls + [rls[0]], s, rspans[1..], rls[1..]);
      assert spans + [sp] + Tag(s, rspans[1..]) == spans + Tag(s, rspans);
      assert ls + [rls[0]] + rls[1..] == ls + rls;
      SumCons(rspans);
    }
  }
}
