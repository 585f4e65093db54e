/** The gateway's connection loop: length-prefixed frames off one byte stream, each decoded, handed to
    the sink and acknowledged, until the stream ends or stops making sense. */
module Connection {
  import opened Bytes
  import opened Frame

  function DecodeRejectReason(e: FrameError): AckReason {
    match e
    case FrameTooLarge => Oversize
    case RecordTooLarge => Oversize
    case HashMismatch => AckReason.HashMismatch
    case RecordNewline => BadRecordNewline
    case _ => Malformed
  }

  function LengthPrefixed(bytes: seq<byte>): seq<byte> {
    BigEndian(|bytes|, 4) + bytes
  }

  /** What a collector sends for these batches. */
  function Framed(bs: seq<Batch>): seq<byte> {
    if bs == [] then [] else Framed(bs[..|bs| - 1]) + LengthPrefixed(Encoded(bs[|bs| - 1]))
  }

  ghost predicate AllInBounds(sha: Hash, bs: seq<Batch>) {
    forall i :: 0 <= i < |bs| ==> InBounds(sha, bs[i])
  }

  /** The frame body at `p`, when its length is allowed and all of it arrived. */
  function BodyAt(input: seq<byte>, p: nat): Option<seq<byte>> {
    if p + 4 > |input| then None
    else
      var len := Value(input[p..p + 4]);
      if len > MAX_FRAME_LEN || p + 4 + len > |input| then None else Some(input[p + 4..p + 4 + len])
  }

  /** No decodable frame stands at `p`. */
  predicate Stops(sha: Hash, input: seq<byte>, p: nat) {
    var body := BodyAt(input, p);
    body.None? || Decode(sha, body.value).Err?
  }

  /** The batches delivered are whole frames from the start of the stream, in order; the loop ended at
      the first position without a decodable frame, or when an ack could not be written. */
  ghost predicate Served(sha: Hash, input: seq<byte>, ackOk: nat -> bool, delivered: seq<Batch>) {
    var n := |Framed(delivered)|;
    && AllInBounds(sha, delivered)
    && n <= |input| && input[..n] == Framed(delivered)
    && (forall k :: 0 <= k < |delivered| - 1 ==> ackOk(k))
    && (Stops(sha, input, n) || (delivered != [] && !ackOk(|delivered| - 1)))
  }

  lemma FramedSnoc(bs: seq<Batch>, b: Batch)
    ensures Framed(bs + [b]) == Framed(bs) + LengthPrefixed(Encoded(b))
  {
    assert (bs + [b])[..|bs|] == bs;
  }

  lemma {:induction false} FramedCons(b: Batch, bs: seq<Batch>)
    ensures Framed([b] + bs) == LengthPrefixed(Encoded(b)) + Framed(bs)
  {
    hide LengthPrefixed, Encoded;
    if bs == [] {
      assert [b] + bs == [b] && [b][..0] == [];
    } else {
      var init, last := bs[..|bs| - 1], bs[|bs| - 1];
      FramedCons(b, init);
      assert ([b] + bs)[..|bs|] == [b] + init && ([b] + bs)[|bs|] == last;
    }
  }

  /** `handle_connection`, after the handshake. `ackOk(k)` says whether the k-th ack can be written. */
  method HandleConnection(sha: Hash, input: seq<byte>, ackOk: nat -> bool)
    returns (delivered: seq<Batch>, rejected: Option<AckReason>)
    ensures Served(sha, input, ackOk, delivered)
    ensures rejected.Some? ==>
              var body := BodyAt(input, |Framed(delivered)|);
              && body.Some? && Decode(sha, body.value).Err?
              && rejected.value == DecodeRejectReason(Decode(sha, body.value).error)
    ensures rejected.None? ==>
              BodyAt(input, |Framed(delivered)|).None? || (delivered != [] && !ackOk(|delivered| - 1))
  {
    hide Decode, Framed, Value, InBounds, Encoded;
    delivered, rejected := [], None;
    var p: nat := 0;
    NothingFramed();
    while true
      invariant p <= |input| && p == |Framed(delivered)|
      invariant input[..p] == Framed(delivered)
      invariant AllInBounds(sha, delivered)
      invariant forall k :: 0 <= k < |delivered| ==> ackOk(k)
      decreases |input| - p
    {
      if p + 4 > |input| {
        return;
      }
      var len := Value(input[p..p + 4]);
      if len > MAX_FRAME_LEN {
        return;
      }
      if p + 4 + len > |input| {
        return;
      }
      var body := input[p + 4..p + 4 + len];
      var r := DecodeFrame(sha, body);
      if r.Err? {
        rejected := Some(DecodeRejectReason(r.error));
        return;
      }
      TakeFrame(sha, input, p, delivered, r.value);
      delivered := delivered + [r.value];
      p := p + 4 + len;
      if !ackOk(|delivered| - 1) {
        return;
      }
    }
  }

  /** The reason a frame off the stream is rejected with: its hash, when nothing else is wrong with it; the size or
      the newline of its first faulty record; and otherwise that it is malformed. */
  lemma RejectedFor(sha: Hash, body: seq<byte>)
    requires |body| <= MAX_FRAME_LEN && Decode(sha, body).Err?
    ensures var e := Decode(sha, body).error; var reason := DecodeRejectReason(e);
            && (reason == AckReason.HashMismatch
                <==> exists b :: body == Encoded(b) && WellFormed(b) && sha(Prefix(b)) != b.hash)
            && (reason == Oversize <==> e == RecordTooLarge)
            && (reason == BadRecordNewline <==> e == RecordNewline)
            && (reason == Malformed
                <==> e in {BadMagic, BadVersion, FrameError.Truncated, TooManyRecords, EmptyBatch})
  {
    HashRefused(sha, body);
    HeaderRefused(sha, body);
    hide Decode, Encoded, Prefix, WellFormed;
  }

  lemma NothingFramed()
    ensures Framed([]) == []
  {
  }

  lemma TakeFrame(sha: Hash, input: seq<byte>, p: nat, bs: seq<Batch>, b: Batch)
    requires p <= |input| && input[..p] == Framed(bs)
    requires BodyAt(input, p).Some? && Decode(sha, BodyAt(input, p).value) == Result.Ok(b)
    ensures var body := BodyAt(input, p).value;
            && |Framed(bs + [b])| == p + 4 + |body| <= |input|
            && input[..p + 4 + |body|] == Framed(bs + [b])
            && InBounds(sha, b)
  {
    hide Decode, Framed, Value, BigEndian, InBounds, Encoded;
    var body := BodyAt(input, p).value;
    EncodeOfDecode(sha, body);
    FramedSnoc(bs, b);
    BigEndianOfValue(input[p..p + 4]);
    assert input[..p + 4 + |body|] == input[..p] + input[p..p + 4] + body;
  }

  /** A frame at the front of the stream is found there. */
  lemma FrontFrame(sha: Hash, b: Batch, rest: seq<byte>)
    requires InBounds(sha, b)
    ensures var input := LengthPrefixed(Encoded(b)) + rest;
            && BodyAt(input, 0) == Some(Encoded(b))
            && Decode(sha, Encoded(b)) == Result.Ok(b)
            && input[4 + |Encoded(b)|..] == rest
  {
    SmallFrame(sha, b);
    DecodeOfEncode(sha, b);
    hide Decode, Value, BigEndian, InBounds, Encoded;
    var bytes := Encoded(b);
    var input := LengthPrefixed(bytes) + rest;
    Pow256Values();
    ValueOfBigEndian(|bytes|, 4);
    assert input[0..4] == BigEndian(|bytes|, 4);
    assert input[4..4 + |bytes|] == bytes;
  }

  lemma SmallFrame(sha: Hash, b: Batch)
    requires InBounds(sha, b)
    ensures |Encoded(b)| <= MAX_FRAME_LEN
  {
  }

  /** The stream does not depend on where it is looked at from. */
  lemma BodyShift(a: seq<byte>, b: seq<byte>, p: nat)
    ensures BodyAt(a + b, |a| + p) == BodyAt(b, p)
  {
    hide Value;
    var s, q := a + b, |a| + p;
    if p + 4 <= |b| {
      assert s[q..q + 4] == b[p..p + 4];
      var len := Value(b[p..p + 4]);
      if p + 4 + len <= |b| {
        assert s[q + 4..q + 4 + len] == b[p + 4..p + 4 + len];
      }
    }
  }

  /** Two batch sequences at the start of one stream agree as far as both go. */
  lemma {:induction false} CommonFrames(sha: Hash, bs: seq<Batch>, rest: seq<byte>, ds: seq<Batch>, tail: seq<byte>)
    requires AllInBounds(sha, bs) && AllInBounds(sha, ds)
    requires Framed(bs) + rest == Framed(ds) + tail
    ensures bs <= ds || ds <= bs
    decreases |bs|
  {
    hide Framed, InBounds, Encoded, BigEndian, Decode, BodyAt, LengthPrefixed;
    if bs != [] && ds != [] {
      var b, d := bs[0], ds[0];
      assert bs == [b] + bs[1..] && ds == [d] + ds[1..];
      FramedCons(b, bs[1..]);
      FramedCons(d, ds[1..]);
      var restB, restD := Framed(bs[1..]) + rest, Framed(ds[1..]) + tail;
      assert Framed(bs) + rest == LengthPrefixed(Encoded(b)) + restB;
      assert Framed(ds) + tail == LengthPrefixed(Encoded(d)) + restD;
      FrontFrame(sha, b, restB);
      FrontFrame(sha, d, restD);
      CommonFrames(sha, bs[1..], rest, ds[1..], tail);
    }
  }

  /** The sink is handed exactly the frames before the first position without a decodable one, in
      order, and nothing after it: whatever a collector sends after its last well-formed frame. */
  lemma DeliversExactly(sha: Hash, bs: seq<Batch>, rest: seq<byte>, ackOk: nat -> bool, delivered: seq<Batch>)
    requires AllInBounds(sha, bs) && Stops(sha, rest, 0)
    requires Served(sha, Framed(bs) + rest, ackOk, delivered)
    requires forall k :: 0 <= k < |bs| ==> ackOk(k)
    ensures delivered == bs
  {
    var input, n := Framed(bs) + rest, |Framed(delivered)|;
    hide Framed, InBounds, Encoded, Decode, BodyAt, LengthPrefixed;
    assert input == Framed(delivered) + input[n..];
    CommonFrames(sha, bs, rest, delivered, input[n..]);
    if |bs| < |delivered| {
      NextFrame(sha, bs, delivered, input[n..]);
      BodyShift(Framed(bs), rest, 0);
      assert false;
    } else if |delivered| < |bs| {
      NextFrame(sha, delivered, bs, rest);
      assert false;
    }
  }

  /** Where one sequence stops short of another, the next frame of the other stands. */
  lemma NextFrame(sha: Hash, bs: seq<Batch>, ds: seq<Batch>, tail: seq<byte>)
    requires bs <= ds && |bs| < |ds| && AllInBounds(sha, ds)
    ensures !Stops(sha, Framed(ds) + tail, |Framed(bs)|)
  {
    hide Framed, InBounds, Encoded, Decode, BodyAt, LengthPrefixed;
    var k := |bs|;
    var b, after := ds[k], ds[k + 1..];
    assert ds == bs + ([b] + after);
    FramedConcat(bs, [b] + after);
    FramedCons(b, after);
    var frame, rest, front := LengthPrefixed(Encoded(b)), Framed(after) + tail, Framed(bs);
    assert Framed(ds) + tail == front + (frame + rest) by {
      Regroup(front, frame, Framed(after), tail);
    }
    FrontFrame(sha, b, rest);
    BodyShift(front, frame + rest, 0);
  }

  lemma Regroup(a: seq<byte>, b: seq<byte>, c: seq<byte>, d: seq<byte>)
    ensures a + (b + c) + d == a + (b + (c + d))
  {
  }

  lemma {:induction false} FramedConcat(a: seq<Batch>, b: seq<Batch>)
    ensures Framed(a + b) == Framed(a) + Framed(b)
    decreases |b|
  {
    hide LengthPrefixed, Encoded;
    if b == [] {
      assert a + b == a;
    } else {
      FramedConcat(a, b[..|b| - 1]);
      assert (a + b)[..|a + b| - 1] == a + b[..|b| - 1];
    }
  }
}
