/** The quarantine directory: refused lines set aside as newline-terminated records, one file per
    sensor, under a byte cap and a record cap for the whole directory. */
module Quarantine {
  import opened Bytes
  import opened Sequences

  datatype RecordFile = RecordFile(name: string, content: seq<byte>)

  datatype Outcome = Written | Full | IoError

  function ContentOf(files: seq<RecordFile>, name: string): seq<byte> {
    if files == [] then [] else if files[0].name == name then files[0].content else ContentOf(files[1..], name)
  }

  ghost predicate Distinct(files: seq<RecordFile>) {
    forall i, j :: 0 <= i < j < |files| ==> files[i].name != files[j].name
  }

  function TotalBytes(files: seq<RecordFile>): nat {
    if files == [] then 0 else TotalBytes(files[..|files| - 1]) + |files[|files| - 1].content|
  }

  function Newlines(s: seq<byte>): nat {
    if s == [] then 0 else Newlines(s[..|s| - 1]) + if s[|s| - 1] == NL then 1 else 0
  }

  function TotalRecords(files: seq<RecordFile>): nat {
    if files == [] then 0 else TotalRecords(files[..|files| - 1]) + Newlines(files[|files| - 1].content)
  }

  /** What one append writes: a newline first when the file ends inside a record. */
  function Buffer(content: seq<byte>, record: Line): seq<byte> {
    (if AtLineStart(content) then [] else [NL]) + record + [NL]
  }

  /** The lines of a file are the records the directory holds, torn ones included. */
  lemma {:induction false} NewlinesAreLines(s: seq<byte>, p: nat)
    requires p <= |s|
    ensures Newlines(s) == Newlines(s[..p]) + |SplitFrom(s, p)|
    decreases |s| - p
  {
    var e := NextNewline(s, p);
    NextNewlineIs(s, p, e);
    NoNewlines(s, p, e);
    if e < |s| {
      NewlinesAreLines(s, e + 1);
      assert s[..e + 1][..e] == s[..e];
    } else {
      assert s[..e] == s;
    }
  }

  lemma {:induction false} NoNewlines(s: seq<byte>, p: nat, e: nat)
    requires p <= e <= |s| && forall i :: p <= i < e ==> s[i] != NL
    ensures Newlines(s[..e]) == Newlines(s[..p])
    decreases e - p
  {
    if p < e {
      NoNewlines(s, p, e - 1);
      assert s[..e][..e - 1] == s[..e - 1];
    }
  }

  /** One append in full: the old lines, the torn record (if the file ended inside one) closed off as
      a line of its own, and the new record as exactly one line. */
  lemma AppendedIsOneLine(content: seq<byte>, record: Line)
    requires NL !in record
    ensures SplitFrom(content + Buffer(content, record), 0)
            == SplitFrom(content, 0)
               + (if AtLineStart(content) then [] else [content[FragmentFrom(content, 0)..]]) + [record]
  {
    hide SplitFrom, FragmentFrom;
    NoFragment(content, 0);
    if AtLineStart(content) {
      SplitSnoc(content, record, 0);
      assert content + Buffer(content, record) == content + record + [NL];
      assert content[|content|..] + record == record;
    } else {
      var healed := content + [] + [NL];
      SplitSnoc(content, [], 0);
      NoFragment(healed, 0);
      SplitSnoc(healed, record, 0);
      assert content + Buffer(content, record) == healed + record + [NL];
      assert healed[|healed|..] + record == record;
      assert content[FragmentFrom(content, 0)..] + [] == content[FragmentFrom(content, 0)..];
    }
  }

  /** Records are rendered on one line, from the line and its offset. */
  ghost predicate OneLine(render: (nat, Line) -> Line) {
    forall o: nat, l: Line :: NL !in render(o, l)
  }

  lemma RendersOneLine(render: (nat, Line) -> Line, offset: nat, line: Line)
    requires OneLine(render)
    ensures NL !in render(offset, line)
  {
  }

  /** One call on a sensor's file: the record, and how many of the buffer's bytes reached the file
      when the write, the sync or the process failed. */
  datatype Attempt = Attempt(record: Line, torn: Option<nat>)

  function After(content: seq<byte>, a: Attempt): seq<byte> {
    var b := Buffer(content, a.record);
    content + if a.torn.Some? then Torn(b, a.torn.value) else b
  }

  /** A file after any calls on it. */
  function Replay(attempts: seq<Attempt>): seq<byte> {
    if attempts == [] then []
    else After(Replay(attempts[..|attempts| - 1]), attempts[|attempts| - 1])
  }

  /** The records acknowledged, in order. */
  function Acknowledged(attempts: seq<Attempt>): seq<Line> {
    if attempts == [] then []
    else
      var last := attempts[|attempts| - 1];
      Acknowledged(attempts[..|attempts| - 1]) + if last.torn.Some? then [] else [last.record]
  }

  /** Whatever writes were torn, every acknowledged record stands as a complete line, in order. */
  lemma {:induction false} AcknowledgedStand(attempts: seq<Attempt>)
    requires forall i :: 0 <= i < |attempts| ==> NL !in attempts[i].record
    ensures Subseq(Acknowledged(attempts), SplitFrom(Replay(attempts), 0))
  {
    if attempts == [] {
      return;
    }
    var init, a := attempts[..|attempts| - 1], attempts[|attempts| - 1];
    AcknowledgedStand(init);
    var c, acked := Replay(init), Acknowledged(init);
    if a.torn.Some? {
      var part := Torn(Buffer(c, a.record), a.torn.value);
      SplitAppend(c, part, 0);
      SubseqAppend(acked, SplitFrom(c, 0), SplitFrom(c + part, FragmentFrom(c, 0)));
      assert Acknowledged(attempts) == acked;
    } else {
      AppendedIsOneLine(c, a.record);
      var fragment := if AtLineStart(c) then [] else [c[FragmentFrom(c, 0)..]];
      SubseqAppend(acked, SplitFrom(c, 0), fragment);
      SubseqBoth(acked, SplitFrom(c, 0) + fragment, [a.record]);
    }
  }

  function Refused(files: seq<RecordFile>, incoming: nat, maxBytes: nat, maxRecords: nat): bool {
    TotalBytes(files) + incoming > maxBytes || TotalRecords(files) >= maxRecords
  }

  lemma {:induction false} ReplacedTotals(files: seq<RecordFile>, i: nat, content: seq<byte>)
    requires i < |files|
    ensures var next := files[i := files[i].(content := content)];
            && TotalBytes(next) == TotalBytes(files) + |content| - |files[i].content|
            && TotalRecords(next) == TotalRecords(files) + Newlines(content) - Newlines(files[i].content)
  {
    var last := |files| - 1;
    var next := files[i := files[i].(content := content)];
    if i < last {
      ReplacedTotals(files[..last], i, content);
      assert next[..last] == files[..last][i := files[i].(content := content)];
    } else {
      assert next[..last] == files[..last];
    }
  }

  lemma {:induction false} ContentAt(files: seq<RecordFile>, i: nat)
    requires i < |files| && Distinct(files)
    ensures ContentOf(files, files[i].name) == files[i].content
  {
    if i > 0 {
      ContentAt(files[1..], i - 1);
    }
  }

  lemma {:induction false} ContentMissing(files: seq<RecordFile>, name: string)
    requires forall i :: 0 <= i < |files| ==> files[i].name != name
    ensures ContentOf(files, name) == []
  {
    if files != [] {
      ContentMissing(files[1..], name);
    }
  }

  lemma {:induction false} ContentUpdated(files: seq<RecordFile>, i: nat, content: seq<byte>, name: string)
    requires i < |files| && name != files[i].name
    ensures ContentOf(files[i := files[i].(content := content)], name) == ContentOf(files, name)
  {
    var next := files[i := files[i].(content := content)];
    if i > 0 {
      ContentUpdated(files[1..], i - 1, content, name);
      assert next[1..] == files[1..][i - 1 := files[i].(content := content)];
    } else {
      assert next[1..] == files[1..];
    }
  }

  lemma {:induction false} ContentCreated(files: seq<RecordFile>, f: RecordFile, name: string)
    requires f.content == []
    ensures ContentOf(files + [f], name) == ContentOf(files, name)
  {
    if files != [] {
      ContentCreated(files[1..], f, name);
      assert (files + [f])[1..] == files[1..] + [f];
    } else {
      assert ([f])[1..] == [];
      assert files + [f] == [f];
    }
  }

  lemma {:induction false} NewlinesConcat(a: seq<byte>, b: seq<byte>)
    ensures Newlines(a + b) == Newlines(a) + Newlines(b)
    decreases |b|
  {
    if b == [] {
      assert a + b == a;
    } else {
      NewlinesConcat(a, b[..|b| - 1]);
      assert (a + b)[..|a + b| - 1] == a + b[..|b| - 1];
    }
  }

  /** A buffer, or the part of one that was written, adds one line, and one more for healing. */
  lemma BufferNewlines(content: seq<byte>, record: Line, part: seq<byte>)
    requires NL !in record && part <= Buffer(content, record)
    ensures Newlines(part) <= if AtLineStart(content) then 1 else 2
    ensures part == Buffer(content, record) ==> Newlines(part) == if AtLineStart(content) then 1 else 2
    ensures part != Buffer(content, record) ==> Newlines(part) <= if AtLineStart(content) then 0 else 1
  {
    var b := Buffer(content, record);
    var head: seq<byte> := if AtLineStart(content) then [] else [NL];
    NoNewlines(record, 0, |record|);
    assert record[..|record|] == record && record[..0] == [];
    NewlinesConcat(head, record);
    NewlinesConcat(head + record, [NL]);
    assert Newlines([NL]) == 1 && Newlines(head) == |head| by {
      assert [NL][..0] == [];
    }
    NewlinesConcat(part, b[|part|..]);
    assert part + b[|part|..] == b;
    var rest := b[|part|..];
    assert rest != [] ==> rest[|rest| - 1] == NL;
  }

  /** A torn record was healed and the whole buffer reached the file, acknowledged or not. */
  predicate Healed(content: seq<byte>, record: Line, torn: Option<nat>) {
    !AtLineStart(content) && (torn.Some? ==> torn.value >= |Buffer(content, record)|)
  }

  class Store {
    const maxBytes: nat
    const maxRecords: nat
    var files: seq<RecordFile>

    constructor (maxBytes: nat, maxRecords: nat)
      ensures Valid() && files == []
      ensures this.maxBytes == maxBytes && this.maxRecords == maxRecords
    {
      this.maxBytes, this.maxRecords, files := maxBytes, maxRecords, [];
    }

    /** The caps as the directory really keeps them: the newline that heals a torn record is not
        counted beforehand, so each can be passed by one. */
    ghost predicate Valid()
      reads this
    {
      Distinct(files) && TotalBytes(files) <= maxBytes + 1 && TotalRecords(files) <= maxRecords + 1
    }

    /** `check_caps`: the bytes from the file sizes, then the records by reading. */
    method CheckCaps(incoming: nat) returns (ok: bool)
      ensures ok == !Refused(files, incoming, maxBytes, maxRecords)
    {
      var bytes, i := 0, 0;
      while i < |files|
        invariant 0 <= i <= |files|
        invariant bytes == TotalBytes(files[..i])
      {
        assert files[..i + 1][..i] == files[..i];
        bytes, i := bytes + |files[i].content|, i + 1;
      }
      assert files[..|files|] == files;
      if bytes + incoming > maxBytes {
        return false;
      }
      var records: nat := 0;
      i := 0;
      while i < |files|
        invariant 0 <= i <= |files|
        invariant records == TotalRecords(files[..i])
      {
        assert files[..i + 1][..i] == files[..i];
        var n := CountNewlines(files[i].content);
        records, i := records + n, i + 1;
      }
      return records < maxRecords;
    }

    static method CountNewlines(s: seq<byte>) returns (n: nat)
      ensures n == Newlines(s)
    {
      var i := 0;
      n := 0;
      while i < |s|
        invariant 0 <= i <= |s|
        invariant n == Newlines(s[..i])
      {
        assert s[..i + 1][..i] == s[..i];
        n, i := n + (if s[i] == NL then 1 else 0), i + 1;
      }
      assert s[..|s|] == s;
    }

    /** Opens a sensor's file, creating it empty. */
    method Open(name: string) returns (at: nat)
      requires Distinct(files)
      modifies this`files
      ensures Distinct(files) && at < |files| && files[at].name == name
      ensures forall other :: ContentOf(files, other) == old(ContentOf(files, other))
      ensures files[at].content == ContentOf(files, name)
      ensures TotalBytes(files) == old(TotalBytes(files)) && TotalRecords(files) == old(TotalRecords(files))
    {
      at := 0;
      while at < |files|
        invariant 0 <= at <= |files|
        invariant forall i :: 0 <= i < at ==> files[i].name != name
      {
        if files[at].name == name {
          ContentAt(files, at);
          return;
        }
        at := at + 1;
      }
      var f := RecordFile(name, []);
      ContentMissing(files, name);
      forall other ensures ContentOf(files + [f], other) == ContentOf(files, other) {
        ContentCreated(files, f, other);
      }
      assert (files + [f])[..|files|] == files;
      files := files + [f];
    }

    /** `append`: refuses at a cap, heals a torn record, and acknowledges only what is synced.
        `torn` is how many bytes reached the file when the write did not succeed. */
    method Append(name: string, record: Line, torn: Option<nat>) returns (r: Outcome)
      requires Valid() && NL !in record
      modifies this`files
      ensures Valid()
      ensures r == Full <==> old(Refused(files, |record| + 1, maxBytes, maxRecords))
      ensures r == Full ==> files == old(files)
      ensures r != Full ==>
                && (r == Written <==> torn.None?)
                && ContentOf(files, name) == After(old(ContentOf(files, name)), Attempt(record, torn))
      ensures forall other | other != name :: ContentOf(files, other) == old(ContentOf(files, other))
      ensures TotalBytes(files) - |ContentOf(files, name)| == old(TotalBytes(files) - |ContentOf(files, name)|)
      ensures TotalRecords(files) - Newlines(ContentOf(files, name))
              == old(TotalRecords(files) - Newlines(ContentOf(files, name)))
      // The caps hold exactly, except for the healing newline of a buffer that reached the file whole.
      ensures r != Full ==>
                && (TotalBytes(files) > maxBytes <==>
                      Healed(old(ContentOf(files, name)), record, torn)
                      && old(TotalBytes(files)) + |record| + 1 == maxBytes)
                && (TotalRecords(files) > maxRecords <==>
                      Healed(old(ContentOf(files, name)), record, torn) && old(TotalRecords(files)) + 1 == maxRecords)
    {
      var ok := CheckCaps(|record| + 1);
      if !ok {
        return Full;
      }
      var at := Open(name);
      var content := files[at].content;
      var buffer := Buffer(content, record);
      var part := if torn.Some? then Torn(buffer, torn.value) else buffer;
      BufferNewlines(content, record, part);
      NewlinesConcat(content, part);
      ReplacedTotals(files, at, content + part);
      ghost var before := files;
      files := files[at := files[at].(content := content + part)];
      ContentAt(files, at);
      forall other | other != name ensures ContentOf(files, other) == ContentOf(before, other) {
        ContentUpdated(before, at, content + part, other);
      }
      return if torn.None? then Written else IoError;
    }
  }

  /** A torn record, then a whole one that just fits under both caps: the newline that heals the first takes the
      directory past both. */
  method HealingPassesCaps() returns (r: Outcome, bytes: nat, records: nat, maxBytes: nat, maxRecords: nat)
    ensures r == Written && bytes == maxBytes + 1 && records == maxRecords + 1
  {
    hide After, Newlines;
    var store := new Store(3, 1);
    var first := store.Append("s", [97], Some(1));
    TornAfterOne();
    r := store.Append("s", [98], None);
    bytes, records, maxBytes, maxRecords := TotalBytes(store.files), TotalRecords(store.files), 3, 1;
  }

  lemma TornAfterOne()
    ensures After([], Attempt([97], Some(1))) == [97] && Newlines([]) == 0 && Newlines([97]) == 0
  {
    assert Buffer([], [97]) == [97, NL];
    assert [97][..0] == [];
  }
}
