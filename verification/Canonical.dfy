/** The frozen canonical encoding of an event and the hash chain over it. An event is the tuple of its
    fields as rendered to bytes. */
module Canonical {
  import opened Bytes
  import Cursor

  type Hash = Cursor.Hash

  datatype Event = Event(sourceIp: seq<byte>, wanIp: Option<seq<byte>>, sensor: seq<byte>, signalType: seq<byte>,
                         protocol: seq<byte>, authenticated: bool, category: seq<byte>, weight: nat,
                         confidence: seq<byte>, observedAt: seq<byte>, metadata: seq<byte>)

  /** Lengths fit 64 bits and the weight fits 32. */
  predicate Rendered(e: Event) {
    && Fits(e.sourceIp) && (e.wanIp.Some? ==> Fits(e.wanIp.value)) && Fits(e.sensor) && Fits(e.signalType)
    && Fits(e.protocol) && Fits(e.category) && e.weight < 0x1_0000_0000 && Fits(e.confidence)
    && Fits(e.observedAt) && Fits(e.metadata)
  }

  predicate Fits(s: seq<byte>) {
    |s| < 0x1_0000_0000_0000_0000
  }

  // ---- fixed-width little-endian integers ----

  function LittleEndian(n: nat, w: nat): (s: seq<byte>)
    ensures |s| == w
  {
    if w == 0 then [] else [n % 256] + LittleEndian(n / 256, w - 1)
  }

  lemma {:induction false} LittleEndianInjective(a: nat, b: nat, w: nat)
    requires a < Pow256(w) && b < Pow256(w) && LittleEndian(a, w) == LittleEndian(b, w)
    ensures a == b
  {
    if w > 0 {
      assert LittleEndian(a, w)[0] == a % 256 && LittleEndian(b, w)[0] == b % 256;
      assert LittleEndian(a, w)[1..] == LittleEndian(a / 256, w - 1);
      assert LittleEndian(b, w)[1..] == LittleEndian(b / 256, w - 1);
      LittleEndianInjective(a / 256, b / 256, w - 1);
    }
  }

  // ---- the encoding ----

  function LenPrefixed(s: seq<byte>): seq<byte> {
    LittleEndian(|s|, 8) + s
  }

  function WanField(wan: Option<seq<byte>>): seq<byte> {
    if wan.Some? then [1] + LenPrefixed(wan.value) else [0]
  }

  function Flag(b: bool): seq<byte> {
    [if b then 1 else 0]
  }

  function Encoding(e: Event): seq<byte> {
    LenPrefixed(e.sourceIp) + (WanField(e.wanIp) + (LenPrefixed(e.sensor) + (LenPrefixed(e.signalType)
    + (LenPrefixed(e.protocol) + (Flag(e.authenticated) + (LenPrefixed(e.category) + (LittleEndian(e.weight, 4)
    + (LenPrefixed(e.confidence) + (LenPrefixed(e.observedAt) + LenPrefixed(e.metadata))))))))))
  }

  method PushLenPrefixed(buf: seq<byte>, s: seq<byte>) returns (out: seq<byte>)
    ensures out == buf + LenPrefixed(s)
  {
    out := buf + LittleEndian(|s|, 8);
    out := out + s;
  }

  /** `canonical_bytes`: one field after another onto a buffer. */
  method CanonicalBytes(e: Event) returns (buf: seq<byte>)
    ensures buf == Encoding(e)
  {
    hide LenPrefixed, LittleEndian;
    buf := PushLenPrefixed([], e.sourceIp);
    if e.wanIp.Some? {
      buf := buf + [1];
      buf := PushLenPrefixed(buf, e.wanIp.value);
    } else {
      buf := buf + [0];
    }
    assert buf == LenPrefixed(e.sourceIp) + WanField(e.wanIp);
    buf := PushLenPrefixed(buf, e.sensor);
    buf := PushLenPrefixed(buf, e.signalType);
    buf := PushLenPrefixed(buf, e.protocol);
    buf := buf + Flag(e.authenticated);
    buf := PushLenPrefixed(buf, e.category);
    buf := buf + LittleEndian(e.weight, 4);
    buf := PushLenPrefixed(buf, e.confidence);
    buf := PushLenPrefixed(buf, e.observedAt);
    buf := PushLenPrefixed(buf, e.metadata);
    Associates(e);
  }

  lemma Associates(e: Event)
    ensures LenPrefixed(e.sourceIp) + WanField(e.wanIp) + LenPrefixed(e.sensor) + LenPrefixed(e.signalType)
            + LenPrefixed(e.protocol) + Flag(e.authenticated) + LenPrefixed(e.category) + LittleEndian(e.weight, 4)
            + LenPrefixed(e.confidence) + LenPrefixed(e.observedAt) + LenPrefixed(e.metadata)
            == Encoding(e)
  {
    hide LenPrefixed, LittleEndian, WanField, Flag;
  }

  // ---- fields never blur into each other ----

  /** Where two strings start with fields of one length, the fields and the rests agree. */
  lemma Peel(a: seq<byte>, s: seq<byte>, b: seq<byte>, t: seq<byte>)
    requires a + s == b + t && |a| == |b|
    ensures a == b && s == t
  {
    assert (a + s)[..|a|] == a && (b + t)[..|b|] == b;
    assert (a + s)[|a|..] == s && (b + t)[|b|..] == t;
  }

  lemma PeelPrefixed(a: seq<byte>, s: seq<byte>, b: seq<byte>, t: seq<byte>)
    requires Fits(a) && Fits(b) && LenPrefixed(a) + s == LenPrefixed(b) + t
    ensures a == b && s == t
  {
    hide LittleEndian;
    assert LenPrefixed(a) + s == LittleEndian(|a|, 8) + (a + s);
    assert LenPrefixed(b) + t == LittleEndian(|b|, 8) + (b + t);
    Peel(LittleEndian(|a|, 8), a + s, LittleEndian(|b|, 8), b + t);
    Pow256Values();
    LittleEndianInjective(|a|, |b|, 8);
    Peel(a, s, b, t);
  }

  lemma PeelWan(a: Option<seq<byte>>, s: seq<byte>, b: Option<seq<byte>>, t: seq<byte>)
    requires a.Some? ==> Fits(a.value)
    requires b.Some? ==> Fits(b.value)
    requires WanField(a) + s == WanField(b) + t
    ensures a == b && s == t
  {
    hide LenPrefixed;
    assert (WanField(a) + s)[0] == WanField(a)[0] && (WanField(b) + t)[0] == WanField(b)[0];
    if a.Some? {
      assert WanField(a) + s == [1] + (LenPrefixed(a.value) + s);
      assert WanField(b) + t == [1] + (LenPrefixed(b.value) + t);
      Peel([1], LenPrefixed(a.value) + s, [1], LenPrefixed(b.value) + t);
      PeelPrefixed(a.value, s, b.value, t);
    } else {
      Peel([0], s, [0], t);
    }
  }

  /** Two events with one encoding are the same in every rendered field. */
  lemma EncodingInjective(a: Event, b: Event)
    requires Rendered(a) && Rendered(b) && Encoding(a) == Encoding(b)
    ensures a == b
  {
    hide LenPrefixed, LittleEndian, WanField, Pow256;
    var a10, b10 := LenPrefixed(a.observedAt) + LenPrefixed(a.metadata),
                    LenPrefixed(b.observedAt) + LenPrefixed(b.metadata);
    var a9, b9 := LenPrefixed(a.confidence) + a10, LenPrefixed(b.confidence) + b10;
    var a8, b8 := LittleEndian(a.weight, 4) + a9, LittleEndian(b.weight, 4) + b9;
    var a7, b7 := LenPrefixed(a.category) + a8, LenPrefixed(b.category) + b8;
    var a6, b6 := Flag(a.authenticated) + a7, Flag(b.authenticated) + b7;
    var a5, b5 := LenPrefixed(a.protocol) + a6, LenPrefixed(b.protocol) + b6;
    var a4, b4 := LenPrefixed(a.signalType) + a5, LenPrefixed(b.signalType) + b5;
    var a3, b3 := LenPrefixed(a.sensor) + a4, LenPrefixed(b.sensor) + b4;
    PeelPrefixed(a.sourceIp, WanField(a.wanIp) + a3, b.sourceIp, WanField(b.wanIp) + b3);
    PeelWan(a.wanIp, a3, b.wanIp, b3);
    PeelPrefixed(a.sensor, a4, b.sensor, b4);
    PeelPrefixed(a.signalType, a5, b.signalType, b5);
    PeelPrefixed(a.protocol, a6, b.protocol, b6);
    Peel(Flag(a.authenticated), a7, Flag(b.authenticated), b7);
    assert a.authenticated == b.authenticated by {
      assert Flag(a.authenticated)[0] == Flag(b.authenticated)[0];
    }
    PeelPrefixed(a.category, a8, b.category, b8);
    Peel(LittleEndian(a.weight, 4), a9, LittleEndian(b.weight, 4), b9);
    Pow256Values();
    LittleEndianInjective(a.weight, b.weight, 4);
    PeelPrefixed(a.confidence, a10, b.confidence, b10);
    PeelPrefixed(a.observedAt, LenPrefixed(a.metadata), b.observedAt, LenPrefixed(b.metadata));
    assert LenPrefixed(a.metadata) + [] == LenPrefixed(a.metadata)
           && LenPrefixed(b.metadata) + [] == LenPrefixed(b.metadata);
    PeelPrefixed(a.metadata, [], b.metadata, []);
  }

  // ---- the encoding can be read back ----

  /** A field as read: text under a length prefix, the same behind a presence byte, a flag, or a number. */
  datatype Field = Text(bytes: seq<byte>) | Optional(text: Option<seq<byte>>) | Bit(isSet: bool) | Word(n: nat)

  datatype Shape = TextShape | OptionalShape | BitShape | WordShape

  function LittleValue(s: seq<byte>): nat {
    if s == [] then 0 else s[0] + 256 * LittleValue(s[1..])
  }

  /** One field off the front of a byte string, and the rest of it. */
  function TakeOne(shape: Shape, s: seq<byte>): Option<(Field, seq<byte>)> {
    match shape
    case TextShape =>
      if |s| < 8 || |s| < 8 + LittleValue(s[..8]) then None
      else Some((Text(s[8..8 + LittleValue(s[..8])]), s[8 + LittleValue(s[..8])..]))
    case OptionalShape =>
      if s == [] || s[0] > 1 then None
      else if s[0] == 0 then Some((Optional(None), s[1..]))
      else if |s| < 9 || |s| < 9 + LittleValue(s[1..9]) then None
      else Some((Optional(Some(s[9..9 + LittleValue(s[1..9])])), s[9 + LittleValue(s[1..9])..]))
    case BitShape => if s == [] || s[0] > 1 then None else Some((Bit(s[0] == 1), s[1..]))
    case WordShape => if |s| < 4 then None else Some((Word(LittleValue(s[..4])), s[4..]))
  }

  /** The fields of these shapes that a byte string consists of. */
  function Take(shapes: seq<Shape>, s: seq<byte>): Option<seq<Field>> {
    if shapes == [] then if s == [] then Some([]) else None
    else
      match TakeOne(shapes[0], s)
      case None => None
      case Some((field, rest)) =>
        match Take(shapes[1..], rest)
        case None => None
        case Some(fields) => Some([field] + fields)
  }

  /** The frozen layout. */
  function Layout(): seq<Shape> {
    [TextShape, OptionalShape, TextShape, TextShape, TextShape, BitShape, TextShape, WordShape, TextShape, TextShape,
     TextShape]
  }

  function FieldsOf(e: Event): seq<Field> {
    [Text(e.sourceIp), Optional(e.wanIp), Text(e.sensor), Text(e.signalType), Text(e.protocol), Bit(e.authenticated),
     Text(e.category), Word(e.weight), Text(e.confidence), Text(e.observedAt), Text(e.metadata)]
  }

  function ShapeOf(f: Field): Shape {
    match f
    case Text(_) => TextShape
    case Optional(_) => OptionalShape
    case Bit(_) => BitShape
    case Word(_) => WordShape
  }

  function EncodedField(f: Field): seq<byte> {
    match f
    case Text(s) => LenPrefixed(s)
    case Optional(s) => WanField(s)
    case Bit(b) => Flag(b)
    case Word(n) => LittleEndian(n, 4)
  }

  function EncodedFields(fs: seq<Field>): seq<byte> {
    if fs == [] then [] else EncodedField(fs[0]) + EncodedFields(fs[1..])
  }

  predicate Bounded(f: Field) {
    match f
    case Text(s) => Fits(s)
    case Optional(s) => s.Some? ==> Fits(s.value)
    case Bit(_) => true
    case Word(n) => n < 0x1_0000_0000
  }

  lemma {:induction false} LittleValueIs(n: nat, w: nat)
    requires n < Pow256(w)
    ensures LittleValue(LittleEndian(n, w)) == n
  {
    if w > 0 {
      LittleValueIs(n / 256, w - 1);
      assert LittleEndian(n, w)[1..] == LittleEndian(n / 256, w - 1);
    }
  }

  lemma TakesField(f: Field, rest: seq<byte>)
    requires Bounded(f)
    ensures TakeOne(ShapeOf(f), EncodedField(f) + rest) == Some((f, rest))
  {
    hide LittleEndian, LittleValue, Pow256;
    Pow256Values();
    var s := EncodedField(f) + rest;
    match f
    case Text(t) =>
      LittleValueIs(|t|, 8);
      assert s[..8] == LittleEndian(|t|, 8) && s[8..8 + |t|] == t && s[8 + |t|..] == rest;
    case Optional(o) =>
      if o.Some? {
        var t := o.value;
        LittleValueIs(|t|, 8);
        assert s[1..9] == LittleEndian(|t|, 8) && s[9..9 + |t|] == t && s[9 + |t|..] == rest;
      } else {
        assert s[1..] == rest;
      }
    case Bit(b) => assert s[1..] == rest;
    case Word(n) =>
      LittleValueIs(n, 4);
      assert s[..4] == LittleEndian(n, 4) && s[4..] == rest;
  }

  lemma {:induction false} TakesFields(fs: seq<Field>, shapes: seq<Shape>)
    requires |shapes| == |fs| && forall i :: 0 <= i < |fs| ==> Bounded(fs[i]) && shapes[i] == ShapeOf(fs[i])
    ensures Take(shapes, EncodedFields(fs)) == Some(fs)
    decreases |fs|
  {
    hide TakeOne, EncodedField, Bounded;
    if fs != [] {
      TakesField(fs[0], EncodedFields(fs[1..]));
      TakesFields(fs[1..], shapes[1..]);
      assert fs == [fs[0]] + fs[1..];
    }
  }

  /** Every event can be read back from its encoding, field by field, in the frozen order and framing. */
  lemma ReadsBack(e: Event)
    requires Rendered(e)
    ensures Take(Layout(), Encoding(e)) == Some(FieldsOf(e))
  {
    hide TakeOne, Take;
    EncodesFields(e);
    TakesFields(FieldsOf(e), Layout());
  }

  lemma EncodesFields(e: Event)
    ensures EncodedFields(FieldsOf(e)) == Encoding(e)
  {
    hide LenPrefixed, LittleEndian, WanField, Flag;
    var fs := FieldsOf(e);
    assert fs[10..] == [fs[10]] && EncodedFields(fs[10..]) == EncodedField(fs[10]);
    FieldsStep(fs, 9);
    FieldsStep(fs, 8);
    FieldsStep(fs, 7);
    FieldsStep(fs, 6);
    FieldsStep(fs, 5);
    FieldsStep(fs, 4);
    FieldsStep(fs, 3);
    FieldsStep(fs, 2);
    FieldsStep(fs, 1);
    FieldsStep(fs, 0);
    assert fs[0..] == fs;
  }

  lemma FieldsStep(fs: seq<Field>, i: nat)
    requires i < |fs|
    ensures EncodedFields(fs[i..]) == EncodedField(fs[i]) + EncodedFields(fs[i + 1..])
  {
    assert fs[i..][1..] == fs[i + 1..];
  }

  // ---- the chain ----

  /** What is hashed for an event: the hash before it, if any, then its encoding. */
  function Preimage(prev: Option<seq<byte>>, e: Event): seq<byte> {
    (if prev.Some? then prev.value else []) + Encoding(e)
  }

  function ChainHash(sha: Hash, prev: Option<seq<byte>>, e: Event): seq<byte> {
    sha(Preimage(prev, e))
  }

  /** The hash of a ledger's newest event, computed from its oldest on. */
  function Head(sha: Hash, es: seq<Event>): Option<seq<byte>> {
    if es == [] then None else Some(ChainHash(sha, Head(sha, es[..|es| - 1]), es[|es| - 1]))
  }

  lemma HeadSnoc(sha: Hash, es: seq<Event>, e: Event)
    ensures Head(sha, es + [e]) == Some(ChainHash(sha, Head(sha, es), e))
  {
    assert (es + [e])[..|es|] == es;
  }

  /** Digests are 32 bytes. */
  ghost predicate Wide(sha: Hash) {
    forall s :: |sha(s)| == 32
  }

  /** No two of the strings hashed for these ledgers, position by position, collide. */
  ghost predicate CollisionFree(sha: Hash, a: seq<Event>, b: seq<Event>)
    requires |a| == |b|
  {
    forall i :: 0 <= i < |a| ==>
                  var x, y := Preimage(Head(sha, a[..i]), a[i]), Preimage(Head(sha, b[..i]), b[i]);
                  sha(x) == sha(y) ==> x == y
  }

  /** Without a collision, two ledgers of one length with the same head agree on every event. */
  lemma {:induction false} HeadFixesLedger(sha: Hash, a: seq<Event>, b: seq<Event>)
    requires |a| == |b| && Wide(sha) && CollisionFree(sha, a, b)
    requires Head(sha, a) == Head(sha, b)
    requires AllRendered(a) && AllRendered(b)
    ensures a == b
    decreases |a|
  {
    hide *;
    if a != [] {
      var n := |a| - 1;
      RenderedParts(a);
      RenderedParts(b);
      LastFixed(sha, a, b);
      CollisionFreePrefix(sha, a, b);
      HeadFixesLedger(sha, a[..n], b[..n]);
      assert a == a[..n] + [a[n]] && b == b[..n] + [b[n]];
    }
  }

  ghost predicate AllRendered(es: seq<Event>) {
    forall i :: 0 <= i < |es| ==> Rendered(es[i])
  }

  lemma RenderedParts(es: seq<Event>)
    requires AllRendered(es) && es != []
    ensures AllRendered(es[..|es| - 1]) && Rendered(es[|es| - 1])
  {
    hide Rendered;
  }

  lemma LastFixed(sha: Hash, a: seq<Event>, b: seq<Event>)
    requires |a| == |b| > 0 && Wide(sha) && CollisionFree(sha, a, b) && Head(sha, a) == Head(sha, b)
    requires Rendered(a[|a| - 1]) && Rendered(b[|b| - 1])
    ensures a[|a| - 1] == b[|b| - 1] && Head(sha, a[..|a| - 1]) == Head(sha, b[..|b| - 1])
  {
    hide Encoding, Rendered;
    var n := |a| - 1;
    var p, q := Head(sha, a[..n]), Head(sha, b[..n]);
    assert Preimage(p, a[n]) == Preimage(q, b[n]);
    Peel(if p.Some? then p.value else [], Encoding(a[n]), if q.Some? then q.value else [], Encoding(b[n]));
    EncodingInjective(a[n], b[n]);
  }

  lemma CollisionFreePrefix(sha: Hash, a: seq<Event>, b: seq<Event>)
    requires |a| == |b| > 0 && CollisionFree(sha, a, b)
    ensures CollisionFree(sha, a[..|a| - 1], b[..|b| - 1])
  {
    hide Head, Encoding;
    var n := |a| - 1;
    assert forall i :: 0 <= i < n ==> a[..n][..i] == a[..i] && b[..n][..i] == b[..i];
  }

  /** The links a batch is stored with: each event's own hash and the one before it, from the head the
      batch starts after. */
  method ChainLinks(sha: Hash, ghost ledger: seq<Event>, head: Option<seq<byte>>, events: seq<Event>)
    returns (prevs: seq<Option<seq<byte>>>, hashes: seq<seq<byte>>)
    requires head == Head(sha, ledger)
    ensures |prevs| == |hashes| == |events|
    ensures forall i :: 0 <= i < |events| ==>
                          && prevs[i] == Head(sha, ledger + events[..i])
                          && Some(hashes[i]) == Head(sha, ledger + events[..i + 1])
  {
    hide Head;
    prevs, hashes := [], [];
    var prev := head;
    assert ledger + events[..0] == ledger;
    for i := 0 to |events|
      invariant |prevs| == |hashes| == i
      invariant prev == Head(sha, ledger + events[..i])
      invariant forall j :: 0 <= j < i ==>
                              && prevs[j] == Head(sha, ledger + events[..j])
                              && Some(hashes[j]) == Head(sha, ledger + events[..j + 1])
    {
      var h := ChainHash(sha, prev, events[i]);
      HeadSnoc(sha, ledger + events[..i], events[i]);
      assert ledger + events[..i] + [events[i]] == ledger + events[..i + 1];
      prevs := prevs + [prev];
      hashes := hashes + [h];
      prev := Some(h);
    }
  }
}
