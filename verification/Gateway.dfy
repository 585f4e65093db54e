/** The gateway's per-collector acceptor: a sequence number and a hash chain checked in memory, a spool
    written first and a durable state replaced after it. */
module Gateway {
  import opened Bytes
  import opened Sequences
  import opened Frame
  import Cursor

  datatype CollectorState = CollectorState(lastSeq: nat, lastHash: seq<byte>)

  function Fresh(): CollectorState {
    CollectorState(0, Cursor.ZeroDigest())
  }

  /** An id that can name a file: one component, no separator, no control character. */
  predicate IsSafe(id: string) {
    && id != "" && id != "." && id != ".."
    && forall i :: 0 <= i < |id| ==> id[i] != '/' && id[i] != '\\' && !IsControl(id[i])
  }

  predicate IsControl(c: char) {
    c as int < 32 || 127 <= c as int < 160
  }

  // ---- where an id leads ----

  /** The components of a relative path. */
  function Components(path: string): (r: seq<string>)
    ensures |r| > 0
  {
    if path == "" then [""]
    else
      var r, c := Components(path[..|path| - 1]), path[|path| - 1];
      if c == '/' then r + [""] else r[|r| - 1 := r[|r| - 1] + [c]]
  }

  /** Where they lead from a directory, as the names below it; nowhere when they lead out of it. */
  function Walk(cs: seq<string>): Option<seq<string>> {
    if cs == [] then Some([])
    else
      var c := cs[|cs| - 1];
      match Walk(cs[..|cs| - 1])
      case None => None
      case Some(at) =>
        if c == "" || c == "." then Some(at)
        else if c != ".." then Some(at + [c])
        else if at == [] then None
        else Some(at[..|at| - 1])
  }

  lemma {:induction false} WithoutSeparator(path: string)
    requires '/' !in path
    ensures Components(path) == [path]
  {
    if path != "" {
      WithoutSeparator(path[..|path| - 1]);
      assert path == path[..|path| - 1] + [path[|path| - 1]];
    }
  }

  lemma {:induction false} ComponentsAreNames(path: string)
    ensures forall c :: c in Components(path) ==> '/' !in c
  {
    if path != "" {
      ComponentsAreNames(path[..|path| - 1]);
    }
  }

  lemma {:induction false} WalkKeepsNames(cs: seq<string>)
    ensures Walk(cs).Some? ==> forall c :: c in Walk(cs).value ==> c in cs
  {
    if cs != [] {
      WalkKeepsNames(cs[..|cs| - 1]);
    }
  }

  /** An id is safe if and only if it names a file directly in the directory it is joined to, and holds no
      backslash or control character. */
  lemma SafeNamesChild(id: string)
    ensures IsSafe(id)
            <==> && Walk(Components(id)) == Some([id])
                 && forall i :: 0 <= i < |id| ==> id[i] != '\\' && !IsControl(id[i])
  {
    hide Components;
    if '/' in id {
      ComponentsAreNames(id);
      WalkKeepsNames(Components(id));
      assert id in [id];
    } else {
      WithoutSeparator(id);
      assert Walk([]) == Some([]) && [id][..|[id]| - 1] == [] && [] + [id] == [id];
      assert forall i :: 0 <= i < |id| ==> id[i] != '/';
    }
  }

  datatype AckStatus = Accepted | Duplicate | Reject | Retry

  datatype Ack = Ack(status: AckStatus, reason: AckReason, nextExpected: nat)

  /** How storing the state ends: durable, failed before the rename, or failed after it. */
  datatype StoreFault = Stored | BeforeRename | AfterRename

  /** What goes wrong in one call: whether the state file can be read, how many bytes reach the spool
      when its write fails, and how the store ends. */
  datatype Faults = Faults(readable: bool, torn: Option<nat>, store: StoreFault)

  /** One collector: the state in memory (if it was seen since the start), the state file, the spool. */
  datatype Collector = Collector(mem: Option<CollectorState>, disk: Option<CollectorState>, spool: seq<byte>)

  class GatewaySink {
    var states: map<string, CollectorState>
    var stateFiles: map<string, CollectorState>
    var spools: map<string, seq<byte>>

    constructor ()
      ensures states == map[] && stateFiles == map[] && spools == map[]
    {
      states, stateFiles, spools := map[], map[], map[];
    }

    ghost function View(id: string): Collector
      reads this
    {
      Collector(if id in states then Some(states[id]) else None,
                if id in stateFiles then Some(stateFiles[id]) else None,
                if id in spools then spools[id] else [])
    }

    /** `write_records`: each record and its newline, in order. */
    method WriteRecords(id: string, records: seq<Line>, torn: Option<nat>) returns (ok: bool)
      modifies this`spools
      ensures ok == (IsSafe(id) && torn.None?)
      ensures !IsSafe(id) ==> spools == old(spools)
      ensures IsSafe(id) ==>
                spools == old(spools)[id := old(View(id)).spool
                                            + if torn.None? then Join(records) else Torn(Join(records), torn.value)]
    {
      if !IsSafe(id) {
        return false;
      }
      var out := [];
      for i := 0 to |records|
        invariant out == Join(records[..i])
      {
        assert records[..i + 1][..i] == records[..i];
        out := out + records[i];
        out := out + [NL];
      }
      assert records[..|records|] == records;
      var written := if torn.None? then out else Torn(out, torn.value);
      spools := spools[id := (if id in spools then spools[id] else []) + written];
      return torn.None?;
    }

    /** `CollectorState::store`: the rename is the moment the new state is the one on disk. */
    method Store(id: string, s: CollectorState, fault: StoreFault) returns (ok: bool)
      modifies this`stateFiles
      ensures ok == (IsSafe(id) && fault == Stored)
      ensures stateFiles == if IsSafe(id) && fault != BeforeRename then old(stateFiles)[id := s] else old(stateFiles)
    {
      if !IsSafe(id) || fault == BeforeRename {
        return false;
      }
      stateFiles := stateFiles[id := s];
      return fault == Stored;
    }

    /** `accept`. */
    method Accept(id: string, batch: Batch, f: Faults) returns (ack: Ack)
      modifies this
      ensures (View(id), ack) == Step(IsSafe(id), old(View(id)), batch, f)
      ensures forall other | other != id :: View(other) == old(View(other))
    {
      var current;
      if id in states {
        current := states[id];
      } else {
        current := if IsSafe(id) && f.readable && id in stateFiles then stateFiles[id] else Fresh();
        states := states[id := current];
      }
      if batch.seqno <= current.lastSeq {
        return Ack(Duplicate, NoReason, current.lastSeq + 1);
      }
      if batch.seqno != current.lastSeq + 1 {
        return Ack(Reject, SeqGap, current.lastSeq + 1);
      }
      if batch.prev != current.lastHash {
        return Ack(Reject, AckReason.HashMismatch, current.lastSeq + 1);
      }
      var ok := WriteRecords(id, batch.records, f.torn);
      if !ok {
        return Ack(Retry, SpoolWriteFailed, current.lastSeq + 1);
      }
      var next := CollectorState(batch.seqno, batch.hash);
      ok := Store(id, next, f.store);
      if !ok {
        return Ack(Retry, SpoolWriteFailed, current.lastSeq + 1);
      }
      states := states[id := next];
      return Ack(Accepted, NoReason, batch.seqno + 1);
    }

    /** A restart forgets what was in memory. */
    method Restart()
      modifies this`states
      ensures forall id :: View(id) == old(View(id)).(mem := None)
    {
      states := map[];
    }
  }

  // ---- one call on values ----

  function Current(safe: bool, c: Collector, f: Faults): CollectorState {
    if c.mem.Some? then c.mem.value
    else if safe && f.readable && c.disk.Some? then c.disk.value
    else Fresh()
  }

  /** The next batch of the chain, and only that one, is written. */
  predicate Extends(s: CollectorState, b: Batch) {
    b.seqno == s.lastSeq + 1 && b.prev == s.lastHash
  }

  function Step(safe: bool, c: Collector, b: Batch, f: Faults): (Collector, Ack) {
    var s := Current(safe, c, f);
    var seen := c.(mem := Some(s));
    var next := CollectorState(b.seqno, b.hash);
    if !Extends(s, b) then
      (seen, if b.seqno <= s.lastSeq then Ack(Duplicate, NoReason, s.lastSeq + 1)
             else Ack(Reject, if b.seqno != s.lastSeq + 1 then SeqGap else AckReason.HashMismatch, s.lastSeq + 1))
    else if !safe then (seen, Ack(Retry, SpoolWriteFailed, s.lastSeq + 1))
    else if f.torn.Some? then
      (seen.(spool := c.spool + Torn(Join(b.records), f.torn.value)), Ack(Retry, SpoolWriteFailed, s.lastSeq + 1))
    else
      var written := seen.(spool := c.spool + Join(b.records));
      match f.store
      case BeforeRename => (written, Ack(Retry, SpoolWriteFailed, s.lastSeq + 1))
      case AfterRename => (written.(disk := Some(next)), Ack(Retry, SpoolWriteFailed, s.lastSeq + 1))
      case Stored => (written.(mem := Some(next), disk := Some(next)), Ack(Accepted, NoReason, b.seqno + 1))
  }

  /** Only a batch that extends the chain of a safe id touches the spool or the state file; a duplicate
      or a reject never does. */
  lemma OnlyNextTouchesSpool(safe: bool, c: Collector, b: Batch, f: Faults)
    ensures var (c', ack) := Step(safe, c, b, f);
            && (c'.spool != c.spool ==> safe && Extends(Current(safe, c, f), b))
            && (ack.status in {Duplicate, Reject} ==> c'.spool == c.spool && c'.disk == c.disk)
            && (ack.status == Accepted ==> c'.disk == c'.mem == Some(CollectorState(b.seqno, b.hash)))
  {
  }

  // ---- the chain ----

  /** Batches 1..n, each naming its predecessor's hash from the zero hash on. */
  ghost predicate IsChain(bs: seq<Batch>) {
    forall i :: 0 <= i < |bs| ==> Extends(HeadOf(bs[..i]), bs[i])
  }

  function HeadOf(bs: seq<Batch>): CollectorState {
    if bs == [] then Fresh() else CollectorState(|bs|, bs[|bs| - 1].hash)
  }

  lemma ChainSnoc(bs: seq<Batch>, b: Batch)
    requires IsChain(bs) && Extends(HeadOf(bs), b)
    ensures IsChain(bs + [b]) && HeadOf(bs + [b]) == CollectorState(b.seqno, b.hash)
  {
    forall i | 0 <= i < |bs| + 1 ensures Extends(HeadOf((bs + [b])[..i]), (bs + [b])[i]) {
      if i < |bs| {
        assert (bs + [b])[..i] == bs[..i];
      } else {
        assert (bs + [b])[..i] == bs;
      }
    }
  }

  /** Every record of the batches, in order. */
  function RecordsOf(bs: seq<Batch>): seq<Line> {
    if bs == [] then [] else RecordsOf(bs[..|bs| - 1]) + bs[|bs| - 1].records
  }

  lemma RecordsSnoc(bs: seq<Batch>, b: Batch)
    ensures RecordsOf(bs + [b]) == RecordsOf(bs) + b.records
  {
    assert (bs + [b])[..|bs|] == bs;
  }

  /** A piece of the spool: a whole record with its newline, or what a torn write left. */
  datatype Piece = Whole(record: Line) | Partial(bytes: seq<byte>)

  function BytesOf(ps: seq<Piece>): seq<byte> {
    if ps == [] then []
    else
      var last := ps[|ps| - 1];
      BytesOf(ps[..|ps| - 1]) + match last case Whole(r) => r + [NL] case Partial(b) => b
  }

  function Wholes(rs: seq<Line>): seq<Piece> {
    if rs == [] then [] else Wholes(rs[..|rs| - 1]) + [Whole(rs[|rs| - 1])]
  }

  lemma {:induction false} WholesConcat(a: seq<Line>, b: seq<Line>)
    ensures Wholes(a + b) == Wholes(a) + Wholes(b)
    decreases |b|
  {
    if b == [] {
      assert a + b == a;
    } else {
      WholesConcat(a, b[..|b| - 1]);
      assert (a + b)[..|a + b| - 1] == a + b[..|b| - 1];
    }
  }

  lemma WholeBytes(pieces: seq<Piece>, r: Line)
    ensures BytesOf(pieces + [Whole(r)]) == BytesOf(pieces) + (r + [NL])
  {
    assert (pieces + [Whole(r)])[..|pieces|] == pieces;
  }

  lemma {:induction false} BytesOfWholes(ps: seq<Piece>, rs: seq<Line>)
    ensures BytesOf(ps + Wholes(rs)) == BytesOf(ps) + Join(rs)
    decreases |rs|
  {
    if rs == [] {
      assert ps + Wholes(rs) == ps;
    } else {
      var init, last := rs[..|rs| - 1], rs[|rs| - 1];
      assert Wholes(rs) == Wholes(init) + [Whole(last)] && Join(rs) == Join(init) + last + [NL];
      hide Wholes, Join, BytesOf;
      BytesOfWholes(ps, init);
      assert ps + Wholes(rs) == ps + Wholes(init) + [Whole(last)];
      WholeBytes(ps + Wholes(init), last);
      Regroup(BytesOf(ps), Join(init), last);
    }
  }

  lemma Regroup(a: seq<byte>, b: seq<byte>, l: Line)
    ensures a + b + (l + [NL]) == a + (b + l + [NL])
  {
  }

  /** A collector with the history that explains it: the chain behind the state in memory, the one
      behind the state on disk, and the pieces the spool was written in. */
  datatype History = History(c: Collector, memory: seq<Batch>, durable: seq<Batch>, pieces: seq<Piece>)

  datatype Event = Offer(batch: Batch, faults: Faults) | Restarted

  function CurrentChain(safe: bool, h: History, f: Faults): seq<Batch> {
    if h.c.mem.Some? then h.memory else if safe && f.readable && h.c.disk.Some? then h.durable else []
  }

  function After(safe: bool, h: History, e: Event): History {
    match e
    case Restarted => h.(c := h.c.(mem := None), memory := [])
    case Offer(b, f) =>
      var c' := Step(safe, h.c, b, f).0;
      var chain := CurrentChain(safe, h, f);
      if !Extends(Current(safe, h.c, f), b) || !safe then h.(c := c', memory := chain)
      else if f.torn.Some? then
        h.(c := c', memory := chain, pieces := h.pieces + [Partial(Torn(Join(b.records), f.torn.value))])
      else
        var written := h.(c := c', memory := chain, pieces := h.pieces + Wholes(b.records));
        match f.store
        case BeforeRename => written
        case AfterRename => written.(durable := chain + [b])
        case Stored => written.(memory := chain + [b], durable := chain + [b])
  }

  function Replay(safe: bool, events: seq<Event>): History {
    if events == [] then History(Collector(None, None, []), [], [], [])
    else After(safe, Replay(safe, events[..|events| - 1]), events[|events| - 1])
  }

  /** The state is the head of a chain whose records are all in the spool, in order. */
  ghost predicate Backed(s: Option<CollectorState>, chain: seq<Batch>, pieces: seq<Piece>) {
    && (if s.Some? then s.value == HeadOf(chain) else chain == [])
    && IsChain(chain)
    && Subseq(Wholes(RecordsOf(chain)), pieces)
  }

  ghost predicate Inv(h: History) {
    && Backed(h.c.mem, h.memory, h.pieces)
    && Backed(h.c.disk, h.durable, h.pieces)
    && h.c.spool == BytesOf(h.pieces)
  }

  lemma BackedGrows(s: Option<CollectorState>, chain: seq<Batch>, pieces: seq<Piece>, more: seq<Piece>)
    requires Backed(s, chain, pieces)
    ensures Backed(s, chain, pieces + more)
  {
    SubseqAppend(Wholes(RecordsOf(chain)), pieces, more);
  }

  lemma BackedExtends(chain: seq<Batch>, b: Batch, pieces: seq<Piece>)
    requires Backed(Some(HeadOf(chain)), chain, pieces) && Extends(HeadOf(chain), b)
    ensures Backed(Some(CollectorState(b.seqno, b.hash)), chain + [b], pieces + Wholes(b.records))
  {
    hide Wholes, RecordsOf, IsChain, Subseq;
    ChainSnoc(chain, b);
    RecordsSnoc(chain, b);
    WholesConcat(RecordsOf(chain), b.records);
    SubseqBoth(Wholes(RecordsOf(chain)), pieces, Wholes(b.records));
  }

  lemma CurrentBacked(safe: bool, h: History, f: Faults)
    requires Inv(h)
    ensures Current(safe, h.c, f) == HeadOf(CurrentChain(safe, h, f))
    ensures Backed(Some(Current(safe, h.c, f)), CurrentChain(safe, h, f), h.pieces)
  {
    hide Wholes, IsChain, Subseq, BytesOf;
    assert IsChain([]) && Subseq(Wholes(RecordsOf([])), h.pieces) by {
      NothingBacked(h.pieces);
    }
  }

  lemma NothingBacked(pieces: seq<Piece>)
    ensures IsChain([]) && Subseq(Wholes(RecordsOf([])), pieces)
  {
  }

  lemma OfferKeeps(safe: bool, h: History, b: Batch, f: Faults)
    requires Inv(h)
    ensures Inv(After(safe, h, Offer(b, f)))
  {
    var chain, s := CurrentChain(safe, h, f), Current(safe, h.c, f);
    CurrentBacked(safe, h, f);
    hide Backed, BytesOf, Wholes, HeadOf, Current, CurrentChain, Extends, Join, Torn;
    var h' := After(safe, h, Offer(b, f));
    if !Extends(s, b) || !safe {
      assert h' == History(h.c.(mem := Some(s)), chain, h.durable, h.pieces);
    } else if f.torn.Some? {
      var part := Partial(Torn(Join(b.records), f.torn.value));
      assert h' == History(h.c.(mem := Some(s), spool := h.c.spool + part.bytes), chain, h.durable, h.pieces + [part]);
      PartialBytes(h.pieces, part);
      BackedGrows(Some(s), chain, h.pieces, [part]);
      BackedGrows(h.c.disk, h.durable, h.pieces, [part]);
    } else {
      WrittenKeeps(h, b, f.store, s, chain);
      assert h' == Written(h, b, f.store, s, chain);
    }
  }

  /** The history after a spool write that succeeded. */
  function Written(h: History, b: Batch, store: StoreFault, s: CollectorState, chain: seq<Batch>): History {
    var next := Some(CollectorState(b.seqno, b.hash));
    var spool, pieces := h.c.spool + Join(b.records), h.pieces + Wholes(b.records);
    match store
    case BeforeRename => History(Collector(Some(s), h.c.disk, spool), chain, h.durable, pieces)
    case AfterRename => History(Collector(Some(s), next, spool), chain, chain + [b], pieces)
    case Stored => History(Collector(next, next, spool), chain + [b], chain + [b], pieces)
  }

  lemma WrittenKeeps(h: History, b: Batch, store: StoreFault, s: CollectorState, chain: seq<Batch>)
    requires Inv(h) && s == HeadOf(chain) && Backed(Some(s), chain, h.pieces) && Extends(s, b)
    ensures Inv(Written(h, b, store, s, chain))
  {
    hide Backed, BytesOf, Wholes, HeadOf, Extends, Join;
    BytesOfWholes(h.pieces, b.records);
    BackedGrows(Some(s), chain, h.pieces, Wholes(b.records));
    BackedGrows(h.c.disk, h.durable, h.pieces, Wholes(b.records));
    BackedExtends(chain, b, h.pieces);
  }

  lemma PartialBytes(pieces: seq<Piece>, part: Piece)
    requires part.Partial?
    ensures BytesOf(pieces + [part]) == BytesOf(pieces) + part.bytes
  {
    assert (pieces + [part])[..|pieces|] == pieces;
  }

  /** Across any offers, spool failures, store failures, unreadable state files and restarts: a durable
      state (n, h) is the head of a chain of batches 1..n from the zero hash, and all their records are
      in the spool, whole and in that order. */
  lemma {:induction false} DurableStateIsBacked(safe: bool, events: seq<Event>)
    ensures Inv(Replay(safe, events))
  {
    if events == [] {
      NothingBacked([]);
    } else {
      var init, e := events[..|events| - 1], events[|events| - 1];
      DurableStateIsBacked(safe, init);
      var h := Replay(safe, init);
      if e.Offer? {
        hide Inv, Step, Replay, After;
        OfferKeeps(safe, h, e.batch, e.faults);
        assert Replay(safe, events) == After(safe, h, e) by {
          ReplayStep(safe, events);
        }
      } else {
        NothingBacked(h.pieces);
      }
    }
  }

  lemma ReplayStep(safe: bool, events: seq<Event>)
    requires events != []
    ensures Replay(safe, events) == After(safe, Replay(safe, events[..|events| - 1]), events[|events| - 1])
  {
  }

  // ---- the answers ----

  /** The hash the next batch of a chain has to name. */
  function LastHash(bs: seq<Batch>): seq<byte> {
    if bs == [] then Cursor.ZeroDigest() else bs[|bs| - 1].hash
  }

  /** Nothing stands in the way of the call's writes. */
  predicate Healthy(safe: bool, f: Faults) {
    safe && f.torn.None? && f.store == Stored
  }

  /** After any offers, failures and restarts, the answer to a batch in terms of the chain behind the state it
      is judged by: a duplicate is one the chain has, a gap one past the next, a mismatch a next one that does
      not name the chain's last hash; the next one that does is accepted, or retried when a write failed. The
      sequence number asked for next is that after the chain the sink goes on from. */
  lemma AnswersExactly(safe: bool, events: seq<Event>, b: Batch, f: Faults)
    ensures var h := Replay(safe, events);
            var chain, ack := CurrentChain(safe, h, f), Step(safe, h.c, b, f).1;
            var follows := b.seqno == |chain| + 1 && b.prev == LastHash(chain);
            && IsChain(chain)
            && (ack.status == Duplicate <==> b.seqno <= |chain|)
            && (ack.status == Reject && ack.reason == SeqGap <==> b.seqno > |chain| + 1)
            && (ack.status == Reject && ack.reason == AckReason.HashMismatch
                <==> b.seqno == |chain| + 1 && b.prev != LastHash(chain))
            && (ack.status == Accepted <==> follows && Healthy(safe, f))
            && (ack.status == Retry <==> follows && !Healthy(safe, f))
            && (ack.status in {Duplicate, Accepted} ==> ack.reason == NoReason)
            && (ack.status == Retry ==> ack.reason == SpoolWriteFailed)
            && ack.nextExpected == (if ack.status == Accepted then |chain + [b]| else |chain|) + 1
  {
    hide Wholes, Subseq, BytesOf, Replay;
    DurableStateIsBacked(safe, events);
    CurrentBacked(safe, Replay(safe, events), f);
  }

  /** What is accepted is the chain from then on, in memory and on disk, and its records are in the spool; what
      is not accepted leaves the chain that was judged by. */
  lemma AcceptedExtends(safe: bool, events: seq<Event>, b: Batch, f: Faults)
    ensures var h := Replay(safe, events);
            var chain, h', ack := CurrentChain(safe, h, f), After(safe, h, Offer(b, f)), Step(safe, h.c, b, f).1;
            && h' == Replay(safe, events + [Offer(b, f)])
            && h'.memory == (if ack.status == Accepted then chain + [b] else chain)
            && (ack.status == Accepted ==> h'.durable == h'.memory && Subseq(Wholes(RecordsOf(chain + [b])), h'.pieces))
  {
    hide Wholes, Subseq, BytesOf, RecordsOf, IsChain;
    var es := events + [Offer(b, f)];
    assert es[..|es| - 1] == events;
    DurableStateIsBacked(safe, es);
  }

  /** An unsafe id never gets as far as a file. */
  lemma {:induction false} UnsafeWritesNothing(events: seq<Event>)
    ensures var c := Replay(false, events).c;
            c.spool == [] && c.disk.None? && (c.mem.Some? ==> c.mem.value == Fresh())
  {
    if events != [] {
      UnsafeWritesNothing(events[..|events| - 1]);
    }
  }
}
