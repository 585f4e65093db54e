/** The collector's batch frame: a fixed header, length-prefixed records and a hash trailer. */
module Frame {
  import opened Bytes
  import Cursor

  type Hash = Cursor.Hash

  const VERSION: byte := 1
  const MAX_RECORDS_PER_BATCH := 1024
  const MAX_RECORD_LEN := 1_048_576
  const MAX_FRAME_LEN := 16 * 1024 * 1024
  const HEADER_LEN := 49
  const TRAILER_LEN := 32

  /** "PBW1". */
  function Magic(): seq<byte> {
    [80, 66, 87, 49]
  }

  datatype FrameError =
    | BadMagic | BadVersion | Truncated | TooManyRecords | RecordTooLarge | EmptyBatch | RecordNewline
    | FrameTooLarge | HashMismatch

  datatype AckReason =
    | NoReason | SeqGap | HashMismatch | Oversize | Malformed | BadRecordNewline | SpoolWriteFailed | Busy

  datatype Result<+T> = Ok(value: T) | Err(error: FrameError)

  datatype Batch = Batch(seqno: nat, prev: seq<byte>, records: seq<Line>, hash: seq<byte>)

  // ---- fixed-width big-endian integers ----

  /** The low `w` bytes of `n`, most significant first. */
  function BigEndian(n: nat, w: nat): (s: seq<byte>)
    ensures |s| == w
  {
    if w == 0 then [] else BigEndian(n / 256, w - 1) + [n % 256]
  }

  function Value(s: seq<byte>): nat {
    if s == [] then 0 else Value(s[..|s| - 1]) * 256 + s[|s| - 1]
  }

  lemma {:induction false} ValueOfBigEndian(n: nat, w: nat)
    requires n < Pow256(w)
    ensures Value(BigEndian(n, w)) == n
  {
    if w > 0 {
      ValueOfBigEndian(n / 256, w - 1);
      assert BigEndian(n, w)[..w - 1] == BigEndian(n / 256, w - 1);
    }
  }

  lemma {:induction false} BigEndianOfValue(s: seq<byte>)
    ensures Value(s) < Pow256(|s|) && BigEndian(Value(s), |s|) == s
  {
    if s != [] {
      var init := s[..|s| - 1];
      BigEndianOfValue(init);
      assert s == init + [s[|s| - 1]];
      assert Value(s) / 256 == Value(init) && Value(s) % 256 == s[|s| - 1] as int;
    }
  }

  // ---- encoding ----

  function EncodeRecord(r: Line): seq<byte> {
    BigEndian(|r|, 4) + r
  }

  function EncodeRecords(rs: seq<Line>): seq<byte> {
    if rs == [] then [] else EncodeRecords(rs[..|rs| - 1]) + EncodeRecord(rs[|rs| - 1])
  }

  function Header(b: Batch): seq<byte> {
    Magic() + [VERSION] + BigEndian(b.seqno, 8) + b.prev + BigEndian(|b.records|, 4)
  }

  /** The bytes that are hashed. */
  function Prefix(b: Batch): seq<byte> {
    Header(b) + EncodeRecords(b.records)
  }

  function Encoded(b: Batch): seq<byte> {
    Prefix(b) + b.hash
  }

  method EncodePrefix(b: Batch) returns (out: seq<byte>)
    ensures out == Prefix(b)
  {
    out := Magic();
    out := out + [VERSION];
    out := out + BigEndian(b.seqno, 8);
    out := out + b.prev;
    out := out + BigEndian(|b.records|, 4);
    for i := 0 to |b.records|
      invariant out == Header(b) + EncodeRecords(b.records[..i])
    {
      assert b.records[..i + 1][..i] == b.records[..i];
      out := out + BigEndian(|b.records[i]|, 4);
      out := out + b.records[i];
    }
    assert b.records[..|b.records|] == b.records;
  }

  method EncodeFrame(b: Batch) returns (out: seq<byte>)
    ensures out == Encoded(b)
  {
    out := EncodePrefix(b);
    out := out + b.hash;
  }

  // ---- bounds ----

  predicate RecordInBounds(r: Line) {
    0 < |r| <= MAX_RECORD_LEN && NL !in r
  }

  ghost predicate RecordsInBounds(rs: seq<Line>) {
    forall i :: 0 <= i < |rs| ==> RecordInBounds(rs[i])
  }

  /** The batches a frame can carry, whatever their hash. */
  ghost predicate WellFormed(b: Batch) {
    && b.seqno < 0x1_0000_0000_0000_0000
    && |b.prev| == 32
    && 0 < |b.records| <= MAX_RECORDS_PER_BATCH && RecordsInBounds(b.records)
    && |b.hash| == TRAILER_LEN
    && |Encoded(b)| <= MAX_FRAME_LEN
  }

  /** The batches a frame can carry. */
  ghost predicate InBounds(sha: Hash, b: Batch) {
    WellFormed(b) && b.hash == sha(Prefix(b))
  }

  // ---- decoding ----

  /** `n` records from `off`, ending no later than `limit`, and where they end. */
  function ParseRecords(bytes: seq<byte>, off: nat, n: nat, limit: nat): Result<(seq<Line>, nat)>
    requires off <= limit <= |bytes|
    decreases n
  {
    if n == 0 then Ok(([], off))
    else if off + 4 > limit then Err(Truncated)
    else
      var len := Value(bytes[off..off + 4]);
      if len == 0 || len > MAX_RECORD_LEN then Err(RecordTooLarge)
      else if off + 4 + len > limit then Err(Truncated)
      else
        var rec := bytes[off + 4..off + 4 + len];
        if NL in rec then Err(RecordNewline)
        else
          match ParseRecords(bytes, off + 4 + len, n - 1, limit)
          case Err(e) => Err(e)
          case Ok((rs, end)) => Ok(([rec] + rs, end))
  }

  function Decode(sha: Hash, bytes: seq<byte>): Result<Batch> {
    if |bytes| > MAX_FRAME_LEN then Err(FrameTooLarge)
    else if |bytes| < HEADER_LEN then Err(Truncated)
    else if bytes[0..4] != Magic() then Err(BadMagic)
    else if bytes[4] != VERSION then Err(BadVersion)
    else
      var count := Value(bytes[45..49]);
      if count == 0 then Err(EmptyBatch)
      else if count > MAX_RECORDS_PER_BATCH then Err(TooManyRecords)
      else if |bytes| < HEADER_LEN + TRAILER_LEN then Err(Truncated)
      else
        match ParseRecords(bytes, HEADER_LEN, count, |bytes| - TRAILER_LEN)
        case Err(e) => Err(e)
        case Ok((records, off)) =>
          if off != |bytes| - TRAILER_LEN then Err(Truncated)
          else if sha(bytes[..off]) != bytes[off..] then Err(FrameError.HashMismatch)
          else Ok(Batch(Value(bytes[5..13]), bytes[13..45], records, bytes[off..]))
  }

  /** The records parsed so far, put before what the rest gives. */
  function Prepend(rs: seq<Line>, r: Result<(seq<Line>, nat)>): Result<(seq<Line>, nat)> {
    match r
    case Err(e) => Err(e)
    case Ok((more, end)) => Ok((rs + more, end))
  }

  /** `decode_frame`: a moving offset and a growing list of records. */
  method DecodeFrame(sha: Hash, bytes: seq<byte>) returns (r: Result<Batch>)
    ensures r == Decode(sha, bytes)
  {
    hide Value;
    if |bytes| > MAX_FRAME_LEN {
      return Err(FrameTooLarge);
    }
    if |bytes| < HEADER_LEN {
      return Err(Truncated);
    }
    if bytes[0..4] != Magic() {
      return Err(BadMagic);
    }
    if bytes[4] != VERSION {
      return Err(BadVersion);
    }
    var seqno, prev := Value(bytes[5..13]), bytes[13..45];
    var count := Value(bytes[45..49]);
    if count == 0 {
      return Err(EmptyBatch);
    }
    if count > MAX_RECORDS_PER_BATCH {
      return Err(TooManyRecords);
    }
    if |bytes| < HEADER_LEN + TRAILER_LEN {
      return Err(Truncated);
    }
    ghost var all := ParseRecords(bytes, HEADER_LEN, count, |bytes| - TRAILER_LEN);
    PrependNone(all);
    var off, records: seq<Line> := HEADER_LEN, [];
    for i := 0 to count
      invariant HEADER_LEN <= off <= |bytes| - TRAILER_LEN
      invariant all == Prepend(records, ParseRecords(bytes, off, count - i, |bytes| - TRAILER_LEN))
    {
      if off + 4 > |bytes| - TRAILER_LEN {
        return Err(Truncated);
      }
      var len := Value(bytes[off..off + 4]);
      off := off + 4;
      if len == 0 || len > MAX_RECORD_LEN {
        return Err(RecordTooLarge);
      }
      var end := off + len;
      if end > |bytes| - TRAILER_LEN {
        return Err(Truncated);
      }
      var rec := bytes[off..end];
      if NL in rec {
        return Err(RecordNewline);
      }
      PrependSnoc(records, rec, ParseRecords(bytes, end, count - i - 1, |bytes| - TRAILER_LEN));
      records := records + [rec];
      off := end;
    }
    if off != |bytes| - TRAILER_LEN {
      return Err(Truncated);
    }
    var claimed := bytes[off..];
    if sha(bytes[..off]) != claimed {
      return Err(FrameError.HashMismatch);
    }
    assert all == Ok((records, off)) by {
      assert records + [] == records;
    }
    return Ok(Batch(seqno, prev, records, claimed));
  }

  lemma PrependNone(r: Result<(seq<Line>, nat)>)
    ensures Prepend([], r) == r
  {
    if r.Ok? {
      assert [] + r.value.0 == r.value.0;
    }
  }

  lemma PrependSnoc(rs: seq<Line>, rec: Line, r: Result<(seq<Line>, nat)>)
    ensures Prepend(rs + [rec], r) == Prepend(rs, Prepend([rec], r))
  {
    if r.Ok? {
      assert rs + [rec] + r.value.0 == rs + ([rec] + r.value.0);
    }
  }

  // ---- the two are inverse ----

  lemma {:induction false} EncodeCons(r: Line, rs: seq<Line>)
    ensures EncodeRecords([r] + rs) == EncodeRecord(r) + EncodeRecords(rs)
  {
    if rs == [] {
      assert [r] + rs == [] + [r];
      EncodeSnoc([], r);
    } else {
      hide *;
      var init, last := rs[..|rs| - 1], rs[|rs| - 1];
      EncodeCons(r, init);
      assert rs == init + [last] && [r] + rs == [r] + init + [last];
      EncodeSnoc(init, last);
      EncodeSnoc([r] + init, last);
    }
  }

  lemma EncodeSnoc(rs: seq<Line>, r: Line)
    ensures EncodeRecords(rs + [r]) == EncodeRecords(rs) + EncodeRecord(r)
  {
    assert (rs + [r])[..|rs|] == rs;
  }

  /** One record in place is taken and the parse goes on after it. */
  lemma ParseOne(bytes: seq<byte>, off: nat, n: nat, limit: nat, r: Line)
    requires off + 4 + |r| <= limit <= |bytes| && RecordInBounds(r)
    requires Value(bytes[off..off + 4]) == |r| && bytes[off + 4..off + 4 + |r|] == r
    ensures ParseRecords(bytes, off, n + 1, limit) == Prepend([r], ParseRecords(bytes, off + 4 + |r|, n, limit))
  {
    hide Value;
  }

  /** A parse that succeeds took one record in place first. */
  lemma ParsedOne(bytes: seq<byte>, off: nat, n: nat, limit: nat) returns (r: Line)
    requires off <= limit <= |bytes| && n > 0 && ParseRecords(bytes, off, n, limit).Ok?
    ensures off + 4 + |r| <= limit && RecordInBounds(r)
    ensures Value(bytes[off..off + 4]) == |r| && bytes[off + 4..off + 4 + |r|] == r
    ensures ParseRecords(bytes, off + 4 + |r|, n - 1, limit).Ok?
    ensures ParseRecords(bytes, off, n, limit) == Prepend([r], ParseRecords(bytes, off + 4 + |r|, n - 1, limit))
  {
    r := bytes[off + 4..off + 4 + Value(bytes[off..off + 4])];
    hide Value;
  }

  /** Encoded records parse back, and end where they end. */
  lemma {:induction false} ParseEncoded(bytes: seq<byte>, off: nat, rs: seq<Line>, limit: nat)
    requires off <= limit <= |bytes| && bytes[off..limit] == EncodeRecords(rs) && RecordsInBounds(rs)
    ensures ParseRecords(bytes, off, |rs|, limit) == Ok((rs, limit))
    decreases |rs|
  {
    if rs != [] {
      hide *;
      var r, rest := rs[0], rs[1..];
      assert rs == [r] + rest;
      EncodeCons(r, rest);
      EncodedFront(bytes, off, limit, r, rest);
      FirstInBounds(rs);
      ParseEncoded(bytes, off + 4 + |r|, rest, limit);
      ParseOne(bytes, off, |rest|, limit, r);
      PrependOk(r, rest, limit);
    } else {
      assert |bytes[off..limit]| == 0;
    }
  }

  lemma PrependOk(r: Line, rs: seq<Line>, end: nat)
    ensures Prepend([r], Ok((rs, end))) == Ok(([r] + rs, end))
  {
  }

  lemma FirstInBounds(rs: seq<Line>)
    requires rs != [] && RecordsInBounds(rs)
    ensures RecordInBounds(rs[0]) && RecordsInBounds(rs[1..])
  {
  }

  lemma EncodedFront(bytes: seq<byte>, off: nat, limit: nat, r: Line, rest: seq<Line>)
    requires off <= limit <= |bytes| && bytes[off..limit] == EncodeRecord(r) + EncodeRecords(rest)
    requires |r| < 0x1_0000_0000
    ensures off + 4 + |r| <= limit
    ensures Value(bytes[off..off + 4]) == |r| && bytes[off + 4..off + 4 + |r|] == r
    ensures bytes[off + 4 + |r|..limit] == EncodeRecords(rest)
  {
    hide EncodeRecords, Value, BigEndian, Pow256;
    var body, mid := bytes[off..limit], off + 4 + |r|;
    assert body == BigEndian(|r|, 4) + r + EncodeRecords(rest);
    assert |body| == limit - off == 4 + |r| + |EncodeRecords(rest)|;
    assert bytes[off..off + 4] == body[..4];
    assert body[..4] == BigEndian(|r|, 4);
    assert forall i :: 0 <= i < |r| ==> bytes[off + 4 + i] == body[4 + i] == r[i];
    assert bytes[off + 4..mid] == r;
    assert bytes[mid..limit] == body[4 + |r|..];
    assert body[4 + |r|..] == EncodeRecords(rest);
    Pow256Values();
    ValueOfBigEndian(|r|, 4);
  }

  lemma ConsInBounds(r: Line, rs: seq<Line>)
    requires RecordInBounds(r) && RecordsInBounds(rs)
    ensures RecordsInBounds([r] + rs)
  {
  }

  lemma EncodedAgain(bytes: seq<byte>, off: nat, end: nat, r: Line, rest: seq<Line>)
    requires off + 4 + |r| <= end <= |bytes|
    requires Value(bytes[off..off + 4]) == |r| && bytes[off + 4..off + 4 + |r|] == r
    requires bytes[off + 4 + |r|..end] == EncodeRecords(rest)
    ensures bytes[off..end] == EncodeRecords([r] + rest)
  {
    hide EncodeRecords, Value, BigEndian;
    EncodeCons(r, rest);
    BigEndianOfValue(bytes[off..off + 4]);
    assert bytes[off..end] == bytes[off..off + 4] + bytes[off + 4..off + 4 + |r|] + bytes[off + 4 + |r|..end];
  }

  /** What parses is the encoding of records within bounds. */
  lemma {:induction false} ParseSound(bytes: seq<byte>, off: nat, n: nat, limit: nat)
    requires off <= limit <= |bytes| && ParseRecords(bytes, off, n, limit).Ok?
    ensures var (rs, end) := ParseRecords(bytes, off, n, limit).value;
            && |rs| == n && RecordsInBounds(rs)
            && off <= end <= limit && bytes[off..end] == EncodeRecords(rs)
    decreases n
  {
    if n > 0 {
      hide ParseRecords, EncodeRecords, Value, BigEndian, RecordsInBounds, RecordInBounds;
      var r := ParsedOne(bytes, off, n, limit);
      var mid := off + 4 + |r|;
      ParseSound(bytes, mid, n - 1, limit);
      var (rest, end) := ParseRecords(bytes, mid, n - 1, limit).value;
      EncodedAgain(bytes, off, end, r, rest);
      ConsInBounds(r, rest);
    } else {
      assert bytes[off..off] == [];
    }
  }

  /** Every batch within bounds survives the wire. */
  lemma DecodeOfEncode(sha: Hash, b: Batch)
    requires InBounds(sha, b)
    ensures Decode(sha, Encoded(b)) == Ok(b)
  {
    hide BigEndian, Value, EncodeRecords, ParseRecords, RecordsInBounds;
    var bytes := Encoded(b);
    var limit := |bytes| - TRAILER_LEN;
    assert bytes[..limit] == Prefix(b) && bytes[limit..] == b.hash;
    assert bytes[..HEADER_LEN] == Header(b);
    assert bytes[0..4] == Header(b)[0..4] == Magic() && bytes[4] == VERSION;
    assert bytes[5..13] == Header(b)[5..13] == BigEndian(b.seqno, 8);
    assert bytes[13..45] == Header(b)[13..45] == b.prev;
    assert bytes[45..49] == Header(b)[45..49] == BigEndian(|b.records|, 4);
    assert bytes[HEADER_LEN..limit] == EncodeRecords(b.records);
    Pow256Values();
    ValueOfBigEndian(b.seqno, 8);
    ValueOfBigEndian(|b.records|, 4);
    ParseEncoded(bytes, HEADER_LEN, b.records, limit);
  }

  /** Every accepted byte string is the encoding of the batch it decodes to, which is within bounds. */
  lemma EncodeOfDecode(sha: Hash, bytes: seq<byte>)
    requires Decode(sha, bytes).Ok?
    ensures Encoded(Decode(sha, bytes).value) == bytes
    ensures InBounds(sha, Decode(sha, bytes).value)
  {
    hide BigEndian, Value, EncodeRecords, RecordsInBounds, ParseRecords;
    var b, count, limit := Decode(sha, bytes).value, Value(bytes[45..49]), |bytes| - TRAILER_LEN;
    ParseSound(bytes, HEADER_LEN, count, limit);
    Pow256Values();
    BigEndianOfValue(bytes[5..13]);
    BigEndianOfValue(bytes[45..49]);
    assert Header(b) == bytes[..HEADER_LEN] by {
      assert bytes[..HEADER_LEN] == bytes[0..4] + [bytes[4]] + bytes[5..13] + bytes[13..45] + bytes[45..49];
    }
    assert bytes[..limit] == bytes[..HEADER_LEN] + bytes[HEADER_LEN..limit];
    assert bytes == bytes[..limit] + bytes[limit..];
  }

  /** A batch comes back from the wire if and only if it is within bounds. */
  lemma SurvivesWire(sha: Hash, b: Batch)
    ensures Decode(sha, Encoded(b)) == Ok(b) <==> InBounds(sha, b)
  {
    if InBounds(sha, b) {
      DecodeOfEncode(sha, b);
    } else if Decode(sha, Encoded(b)).Ok? {
      EncodeOfDecode(sha, Encoded(b));
    }
  }

  // ---- why a frame is refused ----

  /** Long enough for a header, not too long, and begins as a frame of this version. */
  predicate IsFrame(bytes: seq<byte>) {
    HEADER_LEN <= |bytes| <= MAX_FRAME_LEN && Magic() + [VERSION] <= bytes
  }

  /** The header's faults, in order: a frame too long, too short, of another kind or version, without records or
      with too many. */
  lemma HeaderRefused(sha: Hash, bytes: seq<byte>)
    ensures var r := Decode(sha, bytes);
            && (r == Err(FrameTooLarge) <==> |bytes| > MAX_FRAME_LEN)
            && (|bytes| < HEADER_LEN ==> r == Err(Truncated))
            && (r == Err(BadMagic) <==> HEADER_LEN <= |bytes| <= MAX_FRAME_LEN && !(Magic() <= bytes))
            && (r == Err(BadVersion)
                <==> HEADER_LEN <= |bytes| <= MAX_FRAME_LEN && Magic() <= bytes && !(Magic() + [VERSION] <= bytes))
            && (r == Err(EmptyBatch) <==> IsFrame(bytes) && bytes[45..49] == BigEndian(0, 4))
            && (r == Err(TooManyRecords)
                <==> && IsFrame(bytes)
                     && exists n :: MAX_RECORDS_PER_BATCH < n < 0x1_0000_0000 && bytes[45..49] == BigEndian(n, 4))
  {
    hide Value, BigEndian, Pow256;
    Pow256Values();
    if HEADER_LEN <= |bytes| <= MAX_FRAME_LEN {
      var c := bytes[45..49];
      BigEndianOfValue(c);
      ValueOfBigEndian(0, 4);
      forall n: nat | n < 0x1_0000_0000 && c == BigEndian(n, 4) ensures n == Value(c) {
        ValueOfBigEndian(n, 4);
      }
      assert Magic() <= bytes <==> bytes[0..4] == Magic();
      assert Magic() + [VERSION] <= bytes <==> bytes[0..4] == Magic() && bytes[4] == VERSION;
      if IsFrame(bytes) && 0 < Value(c) <= MAX_RECORDS_PER_BATCH && HEADER_LEN + TRAILER_LEN <= |bytes|
         && ParseRecords(bytes, HEADER_LEN, Value(c), |bytes| - TRAILER_LEN).Err? {
        var _, _ := RecordsRefused(bytes, HEADER_LEN, Value(c), |bytes| - TRAILER_LEN);
      }
    }
  }

  /** The fault of a record that does not stand whole at `at`. */
  predicate Faulty(bytes: seq<byte>, at: nat, limit: nat, fault: FrameError)
    requires at <= limit <= |bytes|
  {
    if at + 4 > limit then fault == Truncated
    else
      var len := Value(bytes[at..at + 4]);
      match fault
      case RecordTooLarge => len == 0 || len > MAX_RECORD_LEN
      case Truncated => 0 < len <= MAX_RECORD_LEN && at + 4 + len > limit
      case RecordNewline => 0 < len <= MAX_RECORD_LEN && at + 4 + len <= limit && NL in bytes[at + 4..at + 4 + len]
      case _ => false
  }

  /** Records are refused for the fault of the first that is not within bounds. */
  lemma {:induction false} RecordsRefused(bytes: seq<byte>, off: nat, n: nat, limit: nat)
    returns (good: seq<Line>, at: nat)
    requires off <= limit <= |bytes| && ParseRecords(bytes, off, n, limit).Err?
    ensures |good| < n && RecordsInBounds(good) && off <= at <= limit && bytes[off..at] == EncodeRecords(good)
    ensures Faulty(bytes, at, limit, ParseRecords(bytes, off, n, limit).error)
    decreases n
  {
    hide Value, EncodeRecords;
    good, at := [], off;
    assert bytes[off..off] == [] == EncodeRecords([]) by {
      NothingEncoded();
    }
    if off + 4 <= limit {
      var len := Value(bytes[off..off + 4]);
      if 0 < len <= MAX_RECORD_LEN && off + 4 + len <= limit && NL !in bytes[off + 4..off + 4 + len] {
        var r := bytes[off + 4..off + 4 + len];
        var rest;
        rest, at := RecordsRefused(bytes, off + 4 + len, n - 1, limit);
        EncodedAgain(bytes, off, at, r, rest);
        ConsInBounds(r, rest);
        good := [r] + rest;
      }
    }
  }

  lemma NothingEncoded()
    ensures EncodeRecords([]) == []
  {
  }

  /** A frame is refused for its hash if and only if that is all that is wrong with it. */
  lemma HashRefused(sha: Hash, bytes: seq<byte>)
    ensures Decode(sha, bytes) == Err(FrameError.HashMismatch)
            <==> exists b :: bytes == Encoded(b) && WellFormed(b) && sha(Prefix(b)) != b.hash
  {
    if Decode(sha, bytes) == Err(FrameError.HashMismatch) {
      HashIsAllThatIsWrong(sha, bytes);
    }
    forall b | bytes == Encoded(b) && WellFormed(b) && sha(Prefix(b)) != b.hash
      ensures Decode(sha, bytes) == Err(FrameError.HashMismatch)
    {
      DecodeOfEncode(_ => b.hash, b);
      EndsWithHash(b, bytes);
      hide *;
      SameButHash(sha, _ => b.hash, bytes);
    }
  }

  lemma EndsWithHash(b: Batch, bytes: seq<byte>)
    requires bytes == Encoded(b) && |b.hash| == TRAILER_LEN
    ensures |bytes| >= TRAILER_LEN && bytes[..|bytes| - TRAILER_LEN] == Prefix(b)
    ensures bytes[|bytes| - TRAILER_LEN..] == b.hash
  {
    hide Prefix;
  }

  /** Decoding depends on the hash function in nothing but the comparison with the trailer. */
  lemma SameButHash(sha: Hash, other: Hash, bytes: seq<byte>)
    requires Decode(other, bytes).Ok?
    ensures |bytes| >= TRAILER_LEN
    ensures var limit := |bytes| - TRAILER_LEN;
            Decode(sha, bytes) == if sha(bytes[..limit]) == bytes[limit..] then Decode(other, bytes)
                                  else Err(FrameError.HashMismatch)
  {
    hide Value, ParseRecords;
  }

  lemma HashIsAllThatIsWrong(sha: Hash, bytes: seq<byte>)
    requires Decode(sha, bytes) == Err(FrameError.HashMismatch)
    ensures exists b :: bytes == Encoded(b) && WellFormed(b) && sha(Prefix(b)) != b.hash
  {
    TrailerDiffers(sha, bytes);
    var limit := |bytes| - TRAILER_LEN;
    var claimed: Hash := _ => bytes[limit..];
    var b := Decode(claimed, bytes).value;
    EncodeOfDecode(claimed, bytes);
    EndsWithHash(b, bytes);
    assert bytes == Encoded(b) && WellFormed(b) && sha(Prefix(b)) != b.hash;
  }

  lemma TrailerDiffers(sha: Hash, bytes: seq<byte>)
    requires Decode(sha, bytes) == Err(FrameError.HashMismatch)
    ensures |bytes| >= TRAILER_LEN
    ensures var limit := |bytes| - TRAILER_LEN;
            sha(bytes[..limit]) != bytes[limit..] && Decode(_ => bytes[limit..], bytes).Ok?
  {
    hide Value;
    var count := Value(bytes[45..49]);
    if ParseRecords(bytes, HEADER_LEN, count, |bytes| - TRAILER_LEN).Err? {
      var _, _ := RecordsRefused(bytes, HEADER_LEN, count, |bytes| - TRAILER_LEN);
    }
  }
}
