/**
 The append-only journal (internal/journal/journal.go): newline-delimited records in
 segment files, each named by the number its records start from.

 The record encoding is a parameter. All that is used of it is what JSON gives: it can be
 read back, is never empty, and contains no newline.
 */
module Journal {
  import opened Wrappers
  import opened ByteStrings
  import opened Blob
  import opened Index

  datatype Op =
    | Put(bucket: Bytes, key: Key, hash: Hash, etag: ETag, size: nat, mtime: Time)
    | Delete(bucket: Bytes, key: Key)
    | GC(hash: Hash)

  datatype Record = Record(seqno: nat, time: Time, op: Op)

  datatype Codec = Codec(encode: Record -> Bytes, decode: Bytes -> Option<Record>)

  ghost predicate IsLineCodec(c: Codec) {
    forall r :: c.decode(c.encode(r)) == Some(r) && c.encode(r) != [] && '\n' !in c.encode(r)
  }

  function Line(c: Codec, r: Record): Bytes {
    c.encode(r) + ['\n']
  }

  function Encode(c: Codec, rs: seq<Record>): Bytes {
    if rs == [] then [] else Line(c, rs[0]) + Encode(c, rs[1..])
  }

  lemma {:induction false} EncodeAppend(c: Codec, rs: seq<Record>, r: Record)
    ensures Encode(c, rs + [r]) == Encode(c, rs) + Line(c, r)
  {
    if rs == [] {
      assert (rs + [r])[1..] == [];
    } else {
      assert (rs + [r])[1..] == rs[1..] + [r];
      EncodeAppend(c, rs[1..], r);
    }
  }

  // ------------------------------------------------------- reading one file

  /** The records of the complete lines, or None when one of them does not parse. */
  function Scan(c: Codec, data: Bytes): Option<seq<Record>>
    decreases |data|
  {
    var i := NewlineAt(data);
    if i == |data| then Some([])
    else
      var first, rest := c.decode(data[..i]), Scan(c, data[i + 1..]);
      if first.None? || rest.None? then None else Some([first.value] + rest.value)
  }

  /** How many bytes the complete lines take: the offset a torn tail is cut at. */
  function Whole(data: Bytes): (n: nat)
    ensures n <= |data|
    decreases |data|
  {
    var i := NewlineAt(data);
    if i == |data| then 0 else i + 1 + Whole(data[i + 1..])
  }

  lemma {:induction false} ScanEncoded(c: Codec, rs: seq<Record>, torn: Bytes)
    requires IsLineCodec(c) && '\n' !in torn
    ensures Scan(c, Encode(c, rs) + torn) == Some(rs)
    ensures Whole(Encode(c, rs) + torn) == |Encode(c, rs)|
  {
    if rs == [] {
      assert Encode(c, rs) + torn == torn;
      assert NewlineAt(torn) == |torn|;
    } else {
      var line, rest := c.encode(rs[0]), Encode(c, rs[1..]) + torn;
      assert Encode(c, rs) + torn == line + ['\n'] + rest;
      ScanEncoded(c, rs[1..], torn);
      ScanLine(c, rs[0], rest);
      assert [rs[0]] + rs[1..] == rs;
    }
  }

  lemma ScanLine(c: Codec, r: Record, rest: Bytes)
    requires IsLineCodec(c)
    ensures var data := c.encode(r) + ['\n'] + rest;
            && Scan(c, data) == (if Scan(c, rest).None? then None else Some([r] + Scan(c, rest).value))
            && Whole(data) == |c.encode(r)| + 1 + Whole(rest)
  {
    FirstLine(c.encode(r), rest);
    assert c.decode(c.encode(r)) == Some(r);
  }

  function From(rs: seq<Record>, from: nat): seq<Record> {
    if rs == [] then []
    else (if rs[0].seqno < from then [] else [rs[0]]) + From(rs[1..], from)
  }

  /** What replayFile hands over: empty lines are skipped, an unterminated one is read too. */
  function Load(c: Codec, data: Bytes, from: nat): Option<seq<Record>>
    decreases |data|
  {
    if data == [] then Some([])
    else
      var i := NewlineAt(data);
      var rest := Load(c, if i == |data| then [] else data[i + 1..], from);
      if i == 0 then rest
      else
        var r := c.decode(data[..i]);
        if r.None? || rest.None? then None
        else if r.value.seqno < from then rest
        else Some([r.value] + rest.value)
  }

  lemma {:induction false} LoadEncoded(c: Codec, rs: seq<Record>, from: nat)
    requires IsLineCodec(c)
    ensures Load(c, Encode(c, rs), from) == Some(From(rs, from))
  {
    if rs != [] {
      var line, rest := c.encode(rs[0]), Encode(c, rs[1..]);
      LoadEncoded(c, rs[1..], from);
      assert Encode(c, rs) == line + ['\n'] + rest;
      LoadLine(c, rs[0], rest, from);
    }
  }

  /** Empty lines are passed over, a line without its end counts, and a line that does not parse is an error. */
  lemma LoadOddLines(c: Codec, line: Bytes, rest: Bytes, from: nat)
    requires '\n' !in line
    ensures Load(c, ['\n'] + rest, from) == Load(c, rest, from)
    ensures line != [] && c.decode(line).Some? ==>
              var r := c.decode(line).value; Load(c, line, from) == Some(if r.seqno < from then [] else [r])
    ensures line != [] && c.decode(line).None? ==> Load(c, line, from).None? && Load(c, line + ['\n'] + rest, from).None?
  {
    assert [] + ['\n'] + rest == ['\n'] + rest;
    LoadFirst(c, [], rest, from);
    LoadFirst(c, line, rest, from);
    if line != [] { LoadLast(c, line, from); }
  }

  lemma LoadFirst(c: Codec, line: Bytes, rest: Bytes, from: nat)
    requires '\n' !in line
    ensures line == [] ==> Load(c, line + ['\n'] + rest, from) == Load(c, rest, from)
    ensures line != [] && c.decode(line).None? ==> Load(c, line + ['\n'] + rest, from).None?
  {
    FirstLine(line, rest);
  }

  lemma LoadLast(c: Codec, line: Bytes, from: nat)
    requires '\n' !in line && line != []
    ensures c.decode(line).None? ==> Load(c, line, from).None?
    ensures c.decode(line).Some? ==>
              var r := c.decode(line).value; Load(c, line, from) == Some(if r.seqno < from then [] else [r])
  {
    assert NewlineAt(line) == |line| && line[..|line|] == line;
    LoadNone(c, from);
    if c.decode(line).Some? { assert [c.decode(line).value] + [] == [c.decode(line).value]; }
  }

  lemma LoadLine(c: Codec, r: Record, rest: Bytes, from: nat)
    requires IsLineCodec(c)
    ensures Load(c, c.encode(r) + ['\n'] + rest, from)
            == var more := Load(c, rest, from);
               if more.None? then None
               else Some((if r.seqno < from then [] else [r]) + more.value)
  {
    var line := c.encode(r);
    var data := line + ['\n'] + rest;
    FirstLine(line, rest);
    assert line != [] && c.decode(line) == Some(r);
    var more := Load(c, rest, from);
    assert Load(c, data, from) == if more.None? then None
                                  else if r.seqno < from then more else Some([r] + more.value);
    assert more.Some? ==> [] + more.value == more.value;
  }

  // ------------------------------------------------------------- segments

  datatype Seg = Seg(base: nat, recs: seq<Record>)

  datatype SegFile = SegFile(base: nat, data: Bytes)

  function FileOf(c: Codec, s: Seg): SegFile {
    SegFile(s.base, Encode(c, s.recs))
  }

  function Files(c: Codec, segs: seq<Seg>): (r: seq<SegFile>)
    ensures |r| == |segs|
    ensures forall i :: 0 <= i < |segs| ==> r[i] == FileOf(c, segs[i])
  {
    if segs == [] then [] else Files(c, segs[..|segs| - 1]) + [FileOf(c, segs[|segs| - 1])]
  }

  /** The one sequence of records the segments stand for. */
  function Flat(segs: seq<Seg>): seq<Record> {
    if segs == [] then [] else Flat(segs[..|segs| - 1]) + segs[|segs| - 1].recs
  }

  ghost predicate Numbered(rs: seq<Record>, first: nat) {
    forall i :: 0 <= i < |rs| ==> rs[i].seqno == first + i
  }

  /** A segment is over the limit only when a single record is. */
  ghost predicate Fits(c: Codec, max: nat, s: Seg) {
    |Encode(c, s.recs)| <= max || |s.recs| == 1
  }

  ghost predicate SegmentOk(c: Codec, max: nat, s: Seg) {
    s.base >= 1 && Numbered(s.recs, s.base) && (s.recs == [] || Fits(c, max, s))
  }

  /** Segments in base order, holding consecutive numbers up to last; only a lone one may be empty. */
  ghost predicate WellFormed(c: Codec, max: nat, segs: seq<Seg>, last: nat) {
    if segs == [] then last == 0
    else
      var n, newest := |segs| - 1, segs[|segs| - 1];
      && SegmentOk(c, max, newest) && newest.base + |newest.recs| == last + 1
      && (newest.recs == [] ==> n == 0 && last == 0)
      && (n > 0 ==> newest.base >= 2 && WellFormed(c, max, segs[..n], newest.base - 1))
  }

  /** Whether a record of this length opens a new segment file. */
  predicate Rotates(c: Codec, max: nat, segs: seq<Seg>, r: Record) {
    segs == [] || (|Encode(c, segs[|segs| - 1].recs)| + |Line(c, r)| > max
                   && segs[|segs| - 1].base != r.seqno)
  }

  /** The segments after an append. */
  function Place(c: Codec, max: nat, segs: seq<Seg>, r: Record): seq<Seg> {
    if Rotates(c, max, segs, r) then segs + [Seg(r.seqno, [r])]
    else
      var n := |segs| - 1;
      segs[..n] + [Seg(segs[n].base, segs[n].recs + [r])]
  }

  lemma PlaceRefinesAppend(c: Codec, max: nat, segs: seq<Seg>, last: nat, r: Record)
    requires WellFormed(c, max, segs, last) && r.seqno == last + 1
    ensures WellFormed(c, max, Place(c, max, segs, r), last + 1)
    ensures Flat(Place(c, max, segs, r)) == Flat(segs) + [r]
  {
    var placed := Place(c, max, segs, r);
    var n := |placed| - 1;
    if Rotates(c, max, segs, r) {
      assert placed[..n] == segs;
      EncodeAppend(c, [], r);
    } else {
      assert placed[..n] == segs[..n];
      assert Flat(segs) + [r] == Flat(segs[..n]) + (segs[n].recs + [r]);
      EncodeAppend(c, segs[n].recs, r);
    }
  }

  /** A new segment is begun exactly when the newest, not empty, has no room for the record. */
  lemma PlaceFillsSegments(c: Codec, max: nat, segs: seq<Seg>, last: nat, r: Record)
    requires WellFormed(c, max, segs, last) && r.seqno == last + 1
    ensures |Place(c, max, segs, r)| == |segs|
            <==> segs != [] && (|Encode(c, segs[|segs| - 1].recs)| + |Line(c, r)| <= max || segs[|segs| - 1].recs == [])
  {
    hide Encode, Line, Fits;
  }

  /** The flat sequence carries consecutive numbers that end at last. */
  lemma {:induction false} FlatIsNumbered(c: Codec, max: nat, segs: seq<Seg>, last: nat)
    requires WellFormed(c, max, segs, last)
    ensures segs != [] ==> Numbered(Flat(segs), segs[0].base) && segs[0].base + |Flat(segs)| == last + 1
    ensures segs == [] ==> Flat(segs) == []
  {
    if |segs| > 0 {
      var n := |segs| - 1;
      if n > 0 {
        FlatIsNumbered(c, max, segs[..n], segs[n].base - 1);
      }
    }
  }

  // --------------------------------------------------------------- replay

  lemma {:induction false} FromAppend(a: seq<Record>, b: seq<Record>, from: nat)
    ensures From(a + b, from) == From(a, from) + From(b, from)
  {
    if a == [] {
      assert a + b == b;
    } else {
      var first := if a[0].seqno < from then [] else [a[0]];
      FromAppend(a[1..], b, from);
      assert (a + b)[0] == a[0] && (a + b)[1..] == a[1..] + b;
      assert first + (From(a[1..], from) + From(b, from)) == (first + From(a[1..], from)) + From(b, from);
    }
  }

  lemma {:induction false} FromNone(rs: seq<Record>, from: nat)
    requires forall i :: 0 <= i < |rs| ==> rs[i].seqno < from
    ensures From(rs, from) == []
  {
    if rs != [] { FromNone(rs[1..], from); }
  }

  lemma {:induction false} FromIsSuffix(rs: seq<Record>, first: nat, from: nat)
    requires Numbered(rs, first)
    ensures From(rs, from) == if from <= first then rs
                              else if from - first <= |rs| then rs[from - first..] else []
  {
    if rs != [] {
      FromIsSuffix(rs[1..], first + 1, from);
    }
  }

  /** Which files replay may skip: the next one already starts early enough. */
  predicate Skipped(files: seq<SegFile>, i: nat, from: nat)
    requires i < |files|
  {
    i + 1 < |files| && files[i + 1].base <= from
  }

  function ReplayFiles(c: Codec, files: seq<SegFile>, n: nat, from: nat): Option<seq<Record>>
    requires n <= |files|
  {
    if n == 0 then Some([])
    else
      var before := ReplayFiles(c, files, n - 1, from);
      if before.None? || Skipped(files, n - 1, from) then before
      else
        var here := Load(c, files[n - 1].data, from);
        if here.None? then None else Some(before.value + here.value)
  }

  lemma {:induction false} WellFormedPrefix(c: Codec, max: nat, segs: seq<Seg>, last: nat, n: nat)
    requires WellFormed(c, max, segs, last) && 0 < n < |segs|
    ensures segs[n].base >= 2 && WellFormed(c, max, segs[..n], segs[n].base - 1)
    decreases |segs|
  {
    var m := |segs| - 1;
    if n < m {
      WellFormedPrefix(c, max, segs[..m], segs[m].base - 1, n);
      assert segs[..m][..n] == segs[..n];
    }
  }

  lemma SkippedHoldsNothing(c: Codec, max: nat, segs: seq<Seg>, last: nat, i: nat, from: nat)
    requires WellFormed(c, max, segs, last) && i < |segs| && Skipped(Files(c, segs), i, from)
    ensures From(segs[i].recs, from) == []
  {
    WellFormedPrefix(c, max, segs, last, i + 1);
    assert segs[..i + 1][i] == segs[i];
    FromNone(segs[i].recs, from);
  }

  lemma NoneFrom(from: nat)
    ensures From([], from) == []
  {
  }

  lemma {:induction false} ReplayFilesUpTo(c: Codec, max: nat, segs: seq<Seg>, last: nat, n: nat, from: nat)
    requires IsLineCodec(c) && WellFormed(c, max, segs, last) && n <= |segs|
    ensures ReplayFiles(c, Files(c, segs), n, from) == Some(From(Flat(segs[..n]), from))
  {
    hide WellFormed, Load, From, IsLineCodec, Encode;
    NoneFrom(from);
    if n > 0 {
      ReplayFilesUpTo(c, max, segs, last, n - 1, from);
      assert Flat(segs[..n]) == Flat(segs[..n - 1]) + segs[n - 1].recs by {
        assert segs[..n][..n - 1] == segs[..n - 1];
      }
      FromAppend(Flat(segs[..n - 1]), segs[n - 1].recs, from);
      if Skipped(Files(c, segs), n - 1, from) {
        SkippedHoldsNothing(c, max, segs, last, n - 1, from);
        assert From(Flat(segs[..n - 1]), from) + [] == From(Flat(segs[..n - 1]), from);
      } else {
        LoadEncoded(c, segs[n - 1].recs, from);
      }
    }
  }

  /** Skipping files loses nothing: a replay yields exactly the retained records from `from` on. */
  lemma ReplayIsExact(c: Codec, max: nat, segs: seq<Seg>, last: nat, from: nat)
    requires IsLineCodec(c) && WellFormed(c, max, segs, last)
    ensures ReplayFiles(c, Files(c, segs), |segs|, from) == Some(From(Flat(segs), from))
  {
    ReplayFilesUpTo(c, max, segs, last, |segs|, from);
    assert segs[..|segs|] == segs;
  }

  // ---------------------------------------------------------------- prune

  /** How many of the oldest segments have only records below keepFrom. */
  function Prunable(segs: seq<Seg>, keepFrom: nat): (n: nat)
    ensures n <= |segs| && (segs != [] ==> n < |segs|)
    ensures n > 0 ==> segs[n].base <= keepFrom
    ensures n + 1 < |segs| ==> segs[n + 1].base > keepFrom
  {
    if |segs| < 2 || segs[1].base > keepFrom then 0 else 1 + Prunable(segs[1..], keepFrom)
  }

  lemma {:induction false} FlatSplit(segs: seq<Seg>, n: nat)
    requires n <= |segs|
    ensures Flat(segs) == Flat(segs[..n]) + Flat(segs[n..])
  {
    if n < |segs| {
      var m := |segs| - 1;
      FlatSplit(segs[..m], n);
      assert segs[..m][..n] == segs[..n];
      assert segs[..m][n..] == segs[n..][..m - n];
    } else {
      assert segs[..n] == segs;
    }
  }

  lemma {:induction false} WellFormedSuffix(c: Codec, max: nat, segs: seq<Seg>, last: nat, n: nat)
    requires WellFormed(c, max, segs, last) && n < |segs|
    ensures WellFormed(c, max, segs[n..], last)
    decreases |segs|
  {
    var m := |segs| - 1;
    if n < m {
      WellFormedSuffix(c, max, segs[..m], segs[m].base - 1, n);
      assert segs[n..][..m - n] == segs[..m][n..];
    }
  }

  /** Pruning leaves a well-formed journal, and no replay from keepFrom or later can tell. */
  lemma PruneIsInvisible(c: Codec, max: nat, segs: seq<Seg>, last: nat, keepFrom: nat, from: nat)
    requires WellFormed(c, max, segs, last) && from >= keepFrom
    ensures var kept := segs[Prunable(segs, keepFrom)..];
            && WellFormed(c, max, kept, last)
            && From(Flat(kept), from) == From(Flat(segs), from)
            && Flat(segs) == Flat(segs[..Prunable(segs, keepFrom)]) + Flat(kept)
  {
    var n := Prunable(segs, keepFrom);
    FlatSplit(segs, n);
    if n > 0 {
      WellFormedPrefix(c, max, segs, last, n);
      WellFormedSuffix(c, max, segs, last, n);
      FlatIsNumbered(c, max, segs[..n], segs[n].base - 1);
      FromAppend(Flat(segs[..n]), Flat(segs[n..]), from);
      FromNone(Flat(segs[..n]), from);
    } else {
      assert segs[n..] == segs;
    }
  }

  /** The newest file once EnsureSegment has run for a line of this length. */
  function Ensured(max: nat, files: seq<SegFile>, nextSeq: nat, need: nat): (r: seq<SegFile>)
    ensures r != []
  {
    var n := |files| - 1;
    if files == [] || (|files[n].data| + need > max && files[n].base != nextSeq)
    then files + [SegFile(nextSeq, [])] else files
  }

  lemma EncodeOne(c: Codec, r: Record)
    ensures Encode(c, [r]) == Line(c, r)
  {
    assert [r][1..] == [];
    assert Line(c, r) + [] == Line(c, r);
  }

  lemma PlacedFiles(c: Codec, max: nat, segs: seq<Seg>, r: Record)
    ensures var files := Ensured(max, Files(c, segs), r.seqno, |Line(c, r)|);
            var n := |files| - 1;
            Files(c, Place(c, max, segs, r))
            == files[n := SegFile(files[n].base, files[n].data + Line(c, r))]
  {
    hide Line;
    if Rotates(c, max, segs, r) {
      EncodeOne(c, r);
      assert [] + Line(c, r) == Line(c, r);
    } else {
      var n := |segs| - 1;
      EncodeAppend(c, segs[n].recs, r);
      assert Files(c, segs)[..n] == Files(c, segs[..n]);
    }
  }

  // ------------------------------------------------------ crash and reopen

  /** The directory after a crash that let only `cut` bytes of the line for r reach the disk. */
  function TornAppend(c: Codec, max: nat, segs: seq<Seg>, r: Record, cut: nat): seq<SegFile>
    requires cut <= |Line(c, r)|
  {
    var n := |segs| - 1;
    if Rotates(c, max, segs, r) then Files(c, segs) + [SegFile(r.seqno, Line(c, r)[..cut])]
    else Files(c, segs)[n := SegFile(segs[n].base, Encode(c, segs[n].recs) + Line(c, r)[..cut])]
  }

  datatype Opened = Opened(files: seq<SegFile>, last: nat)

  /** What Open makes of a directory; None is the error for a corrupt record. */
  function Reopen(c: Codec, files: seq<SegFile>): Option<Opened> {
    if files == [] then Some(Opened([], 0))
    else
      var n := |files| - 1;
      var rs := Scan(c, files[n].data);
      if rs.None? then None
      else
        var last := if rs.value == [] then 0 else rs.value[|rs.value| - 1].seqno;
        Some(Opened(files[n := SegFile(files[n].base, files[n].data[..Whole(files[n].data)])], last))
  }

  /** The segments a crash leaves behind once the torn tail is cut. */
  function Survivors(c: Codec, max: nat, segs: seq<Seg>, r: Record, cut: nat): seq<Seg> {
    if cut == |Line(c, r)| then Place(c, max, segs, r)
    else if Rotates(c, max, segs, r) then segs + [Seg(r.seqno, [])]
    else segs
  }

  /** After a crash the newest file ends in what arrived of the line; without that the files are whole. */
  ghost predicate TornAtEnd(c: Codec, kept: seq<Seg>, disk: seq<SegFile>, torn: Bytes) {
    var n := |kept| - 1;
    && |disk| == |kept| > 0
    && disk[n := FileOf(c, kept[n])] == Files(c, kept)
    && disk[n] == SegFile(kept[n].base, Encode(c, kept[n].recs) + torn)
  }

  lemma TornFiles(c: Codec, max: nat, segs: seq<Seg>, r: Record, cut: nat)
    requires cut <= |Line(c, r)|
    ensures TornAtEnd(c, Survivors(c, max, segs, r, cut), TornAppend(c, max, segs, r, cut),
                      if cut == |Line(c, r)| then [] else Line(c, r)[..cut])
  {
    hide TornAtEnd, TornAppend, Place, Line;
    if cut == |Line(c, r)| {
      TornNowhere(c, max, segs, r);
    } else if Rotates(c, max, segs, r) {
      TornInNewFile(c, max, segs, r, cut);
    } else {
      TornInNewest(c, max, segs, r, cut);
    }
  }

  lemma TornNowhere(c: Codec, max: nat, segs: seq<Seg>, r: Record)
    ensures TornAtEnd(c, Place(c, max, segs, r), TornAppend(c, max, segs, r, |Line(c, r)|), [])
  {
    hide Line, Encode;
    var line, placed := Line(c, r), Place(c, max, segs, r);
    assert line[..|line|] == line;
    var recs := placed[|placed| - 1].recs;
    assert Encode(c, recs) + [] == Encode(c, recs);
    if Rotates(c, max, segs, r) {
      EncodeOne(c, r);
      assert placed[..|segs|] == segs;
    } else {
      EncodeAppend(c, segs[|segs| - 1].recs, r);
      assert |placed| == |segs|;
    }
  }

  lemma TornInNewFile(c: Codec, max: nat, segs: seq<Seg>, r: Record, cut: nat)
    requires cut <= |Line(c, r)| && Rotates(c, max, segs, r)
    ensures TornAtEnd(c, segs + [Seg(r.seqno, [])], TornAppend(c, max, segs, r, cut), Line(c, r)[..cut])
  {
    hide Line, Rotates;
    assert Encode(c, []) == [] && [] + Line(c, r)[..cut] == Line(c, r)[..cut];
  }

  lemma TornInNewest(c: Codec, max: nat, segs: seq<Seg>, r: Record, cut: nat)
    requires cut <= |Line(c, r)| && !Rotates(c, max, segs, r)
    ensures TornAtEnd(c, segs, TornAppend(c, max, segs, r, cut), Line(c, r)[..cut])
  {
    hide Line, Encode;
  }

  lemma ReopenCuts(c: Codec, files: seq<SegFile>, recs: seq<Record>, torn: Bytes)
    requires IsLineCodec(c) && '\n' !in torn
    requires files != [] && files[|files| - 1].data == Encode(c, recs) + torn
    ensures var n := |files| - 1;
            Reopen(c, files) == Some(Opened(files[n := SegFile(files[n].base, Encode(c, recs))],
                                            if recs == [] then 0 else recs[|recs| - 1].seqno))
  {
    ScanEncoded(c, recs, torn);
    var whole := Encode(c, recs);
    assert (whole + torn)[..|whole|] == whole;
  }

  /** Open keeps exactly the complete lines, and resumes from the newest file's last one. */
  lemma ReopenKeepsWholeLines(c: Codec, max: nat, segs: seq<Seg>, r: Record, cut: nat)
    requires IsLineCodec(c) && cut <= |Line(c, r)|
    ensures var kept := Survivors(c, max, segs, r, cut);
            var back := Reopen(c, TornAppend(c, max, segs, r, cut));
            && kept != []
            && var recs := kept[|kept| - 1].recs;
            back == Some(Opened(Files(c, kept), if recs == [] then 0 else recs[|recs| - 1].seqno))
  {
    hide Survivors, TornAppend, Reopen, Encode, Line, IsLineCodec;
    var kept := Survivors(c, max, segs, r, cut);
    var n := |kept| - 1;
    var disk := TornAppend(c, max, segs, r, cut);
    var torn := if cut == |Line(c, r)| then [] else Line(c, r)[..cut];
    TornFiles(c, max, segs, r, cut);
    if cut < |Line(c, r)| { TornHasNoNewline(c, r, cut); }
    ReopenCuts(c, disk, kept[n].recs, torn);
  }

  lemma TornHasNoNewline(c: Codec, r: Record, cut: nat)
    requires IsLineCodec(c) && cut < |Line(c, r)|
    ensures '\n' !in Line(c, r)[..cut]
  {
    assert Line(c, r)[..cut] == c.encode(r)[..cut];
  }

  lemma ReopenedFlat(segs: seq<Seg>, base: nat)
    ensures Flat(segs + [Seg(base, [])]) == Flat(segs)
  {
    assert (segs + [Seg(base, [])])[..|segs|] == segs;
  }

  lemma SurvivorsAreWellFormed(c: Codec, max: nat, segs: seq<Seg>, last: nat, r: Record, cut: nat)
    requires WellFormed(c, max, segs, last)
    requires r.seqno == last + 1 && cut <= |Line(c, r)|
    ensures var kept := Survivors(c, max, segs, r, cut);
            var whole := cut == |Line(c, r)|;
            && Flat(kept) == (if whole then Flat(segs) + [r] else Flat(segs))
            && (whole || !Rotates(c, max, segs, r) || last == 0 ==>
                  WellFormed(c, max, kept, if whole then last + 1 else last))
  {
    hide WellFormed, Rotates, Place, Flat, Line;
    if cut == |Line(c, r)| {
      PlaceRefinesAppend(c, max, segs, last, r);
    } else if Rotates(c, max, segs, r) {
      ReopenedFlat(segs, r.seqno);
      if last == 0 { FirstSegmentEmpty(c, max, segs, r); }
    }
  }

  /** Before the first record there is no segment to rotate from, and an empty first segment is in order. */
  lemma FirstSegmentEmpty(c: Codec, max: nat, segs: seq<Seg>, r: Record)
    requires WellFormed(c, max, segs, 0) && Rotates(c, max, segs, r) && r.seqno == 1
    ensures segs == [] && WellFormed(c, max, segs + [Seg(1, [])], 0)
  {
    hide Line;
  }

  /**
   Torn-tail recovery. Open keeps exactly the records whose newline reached the disk and
   touches no byte before them. The number it resumes from is the last of those records
   if and only if the crash did not interrupt the first record of a second or later segment;
   in that case, and only then, numbering restarts from 1.
   */
  lemma TornTailRecovery(c: Codec, max: nat, segs: seq<Seg>, last: nat, r: Record, cut: nat)
    requires IsLineCodec(c) && WellFormed(c, max, segs, last)
    requires r.seqno == last + 1 && cut <= |Line(c, r)|
    ensures var kept := Survivors(c, max, segs, r, cut);
            var back := Reopen(c, TornAppend(c, max, segs, r, cut));
            && back.Some? && back.value.files == Files(c, kept)
            && Flat(kept) == (if cut == |Line(c, r)| then Flat(segs) + [r] else Flat(segs))
            && (if cut < |Line(c, r)| && Rotates(c, max, segs, r) && last > 0
                then back.value.last == 0
                else WellFormed(c, max, kept, back.value.last)
                     && back.value.last == (if cut == |Line(c, r)| then last + 1 else last))
  {
    var kept := Survivors(c, max, segs, r, cut);
    ReopenKeepsWholeLines(c, max, segs, r, cut);
    SurvivorsAreWellFormed(c, max, segs, last, r, cut);
    if !(cut < |Line(c, r)| && Rotates(c, max, segs, r) && last > 0) {
    }
  }

  /** The segments a directory's files parse as. */
  function Parsed(c: Codec, files: seq<SegFile>): seq<Seg> {
    if files == [] then []
    else
      var n := |files| - 1;
      var rs := Scan(c, files[n].data);
      Parsed(c, files[..n]) + [Seg(files[n].base, if rs.None? then [] else rs.value)]
  }

  lemma {:induction false} ParsedFiles(c: Codec, segs: seq<Seg>)
    requires IsLineCodec(c)
    ensures Parsed(c, Files(c, segs)) == segs
  {
    if segs != [] {
      var n := |segs| - 1;
      ParsedFiles(c, segs[..n]);
      assert Files(c, segs)[..n] == Files(c, segs[..n]);
      ScanEncoded(c, segs[n].recs, []);
      assert Encode(c, segs[n].recs) + [] == Encode(c, segs[n].recs);
    }
  }

  /** With no append cut short, closing and opening change neither files nor numbers. */
  lemma ReopenChangesNothing(c: Codec, max: nat, segs: seq<Seg>, last: nat)
    requires IsLineCodec(c) && WellFormed(c, max, segs, last)
    ensures Reopen(c, Files(c, segs)) == Some(Opened(Files(c, segs), last))
  {
    if segs != [] {
      var n := |segs| - 1;
      hide WellFormed, Encode, Scan;
      var files := Files(c, segs);
      assert files[n] == FileOf(c, segs[n]) && files[n := files[n]] == files;
      assert Encode(c, segs[n].recs) + [] == Encode(c, segs[n].recs);
      ReopenCuts(c, Files(c, segs), segs[n].recs, []);
    }
  }

  /**
   The case in which numbering restarts does happen: one whole record fills the first segment,
   and a crash leaves any part of the second record's line at the start of the next. Open then
   resumes from 0, and the next record would be numbered 1 like the one already there.
   */
  lemma TornTailCanRestart(c: Codec, first: Record, second: Record, cut: nat)
    requires IsLineCodec(c) && first.seqno == 1 && second.seqno == 2 && cut < |Line(c, second)|
    ensures var segs, max := [Seg(1, [first])], |Line(c, first)|;
            && WellFormed(c, max, segs, 1) && Rotates(c, max, segs, second)
            && var back := Reopen(c, TornAppend(c, max, segs, second, cut));
               back == Some(Opened(Files(c, segs + [Seg(2, [])]), 0))
  {
    var segs, max := [Seg(1, [first])], |Line(c, first)|;
    hide Encode, Line, Reopen, TornAppend, Flat;
    EncodeOne(c, first);
    assert Rotates(c, max, segs, second);
    assert SegmentOk(c, max, segs[0]);
    assert WellFormed(c, max, segs, 1);
    TornTailRecovery(c, max, segs, 1, second, cut);
    assert Survivors(c, max, segs, second, cut) == segs + [Seg(2, [])];
  }

  // ----------------------------------------------------------------- runs

  /** What happens to a journal directory. */
  datatype Event =
    | Appended(r: Record)
    | CrashedIn(r: Record, cut: nat) // a crash during an append, then Open
    | Reopened                       // a close, or a crash between appends, then Open
    | Pruned(keepFrom: nat)

  /** The directory, the last number in use, every record ever completed, and those pruned away. */
  datatype Trace = Trace(segs: seq<Seg>, last: nat, log: seq<Record>, gone: seq<Record>)

  /** Records take the next number, and no crash hits the first record of a later segment. */
  predicate Occurs(c: Codec, max: nat, t: Trace, e: Event) {
    match e
    case Appended(r) => r.seqno == t.last + 1
    case CrashedIn(r, cut) =>
      && r.seqno == t.last + 1 && cut <= |Line(c, r)|
      && (cut == |Line(c, r)| || !Rotates(c, max, t.segs, r) || t.last == 0)
    case Reopened => true
    case Pruned(_) => true
  }

  function After(c: Codec, max: nat, t: Trace, e: Event): Trace
    requires Occurs(c, max, t, e)
  {
    match e
    case Appended(r) => Trace(Place(c, max, t.segs, r), r.seqno, t.log + [r], t.gone)
    case CrashedIn(r, cut) =>
      var back := Reopen(c, TornAppend(c, max, t.segs, r, cut));
      Trace(if back.None? then [] else Parsed(c, back.value.files),
            if back.None? then 0 else back.value.last,
            if cut == |Line(c, r)| then t.log + [r] else t.log, t.gone)
    case Reopened =>
      var back := Reopen(c, Files(c, t.segs));
      t.(segs := if back.None? then [] else Parsed(c, back.value.files),
         last := if back.None? then 0 else back.value.last)
    case Pruned(keepFrom) =>
      var n := Prunable(t.segs, keepFrom);
      t.(segs := t.segs[n..], gone := t.gone + Flat(t.segs[..n]))
  }

  ghost predicate Consistent(c: Codec, max: nat, t: Trace) {
    && WellFormed(c, max, t.segs, t.last)
    && Numbered(t.log, 1) && |t.log| == t.last
    && t.log == t.gone + Flat(t.segs)
  }

  lemma AppendIsConsistent(c: Codec, max: nat, t: Trace, segs: seq<Seg>, r: Record)
    requires Consistent(c, max, t) && r.seqno == t.last + 1
    requires WellFormed(c, max, segs, r.seqno) && Flat(segs) == Flat(t.segs) + [r]
    ensures Consistent(c, max, Trace(segs, r.seqno, t.log + [r], t.gone))
  {
    assert t.log + [r] == t.gone + Flat(segs);
  }

  lemma CrashIsConsistent(c: Codec, max: nat, t: Trace, r: Record, cut: nat)
    requires IsLineCodec(c) && Consistent(c, max, t) && Occurs(c, max, t, CrashedIn(r, cut))
    ensures Consistent(c, max, After(c, max, t, CrashedIn(r, cut)))
  {
    var kept := Survivors(c, max, t.segs, r, cut);
    TornTailRecovery(c, max, t.segs, t.last, r, cut);
    ParsedFiles(c, kept);
    if cut == |Line(c, r)| { AppendIsConsistent(c, max, t, kept, r); }
  }

  lemma PruneIsConsistent(c: Codec, max: nat, t: Trace, keepFrom: nat)
    requires Consistent(c, max, t)
    ensures Consistent(c, max, After(c, max, t, Pruned(keepFrom)))
  {
    hide WellFormed, Flat, Prunable, From, Numbered;
    var n := Prunable(t.segs, keepFrom);
    PruneIsInvisible(c, max, t.segs, t.last, keepFrom, keepFrom);
    assert t.gone + (Flat(t.segs[..n]) + Flat(t.segs[n..])) == t.gone + Flat(t.segs[..n]) + Flat(t.segs[n..]);
  }

  lemma AfterIsConsistent(c: Codec, max: nat, t: Trace, e: Event)
    requires IsLineCodec(c) && Consistent(c, max, t) && Occurs(c, max, t, e)
    ensures Consistent(c, max, After(c, max, t, e))
  {
    match e
    case Appended(r) =>
      PlaceRefinesAppend(c, max, t.segs, t.last, r);
      AppendIsConsistent(c, max, t, Place(c, max, t.segs, r), r);
    case CrashedIn(r, cut) => CrashIsConsistent(c, max, t, r, cut);
    case Reopened =>
      ReopenChangesNothing(c, max, t.segs, t.last);
      ParsedFiles(c, t.segs);
    case Pruned(keepFrom) => PruneIsConsistent(c, max, t, keepFrom);
  }

  predicate Happens(c: Codec, max: nat, t: Trace, es: seq<Event>)
    decreases |es|
  {
    es == [] || (Occurs(c, max, t, es[0]) && Happens(c, max, After(c, max, t, es[0]), es[1..]))
  }

  function Finally(c: Codec, max: nat, t: Trace, es: seq<Event>): Trace
    requires Happens(c, max, t, es)
    decreases |es|
  {
    if es == [] then t else Finally(c, max, After(c, max, t, es[0]), es[1..])
  }

  lemma EmptyIsConsistent(c: Codec, max: nat)
    ensures Consistent(c, max, Trace([], 0, [], []))
  {
  }

  /**
   Through any run of appends, rotations, crashes, reopenings and prunes, from an empty
   directory or any consistent one, the segments stay in order and within the limit, the
   records ever completed are numbered from 1 without reuse or gap, and what the directory
   retains is the end of that one sequence.
   */
  lemma {:induction false} RunsRefineOneSequence(c: Codec, max: nat, t: Trace, es: seq<Event>)
    requires IsLineCodec(c) && Consistent(c, max, t) && Happens(c, max, t, es)
    ensures Consistent(c, max, Finally(c, max, t, es))
    decreases |es|
  {
    if es != [] {
      AfterIsConsistent(c, max, t, es[0]);
      RunsRefineOneSequence(c, max, After(c, max, t, es[0]), es[1..]);
    }
  }

  // ------------------------------------------------------------- the code

  /** What a reader has so far, followed by what the rest of the file gives. */
  function Then(rs: seq<Record>, rest: Option<seq<Record>>): Option<seq<Record>> {
    if rest.None? then None else Some(rs + rest.value)
  }

  lemma ThenStart(rest: Option<seq<Record>>)
    ensures Then([], rest) == rest
  {
    if rest.Some? { assert [] + rest.value == rest.value; }
  }

  lemma ThenStep(rs: seq<Record>, r: Record, rest: Option<seq<Record>>)
    ensures Then(rs, Then([r], rest)) == Then(rs + [r], rest)
  {
    if rest.Some? { assert rs + ([r] + rest.value) == rs + [r] + rest.value; }
  }

  /** Reading one line of a segment. */
  lemma LoadStep(c: Codec, data: Bytes, from: nat)
    requires data != []
    ensures var i := NewlineAt(data);
            var rest := Load(c, if i == |data| then [] else data[i + 1..], from);
            var r := c.decode(data[..i]);
            Load(c, data, from) == if i == 0 then rest
                                   else if r.None? then None
                                   else if r.value.seqno < from then rest
                                   else Then([r.value], rest)
  {
  }

  lemma LoadNone(c: Codec, from: nat)
    ensures Load(c, [], from) == Some([])
  {
  }

  /** replayFile: streams one segment from `from` on; None is the error for a corrupt record. */
  method ReplayFile(c: Codec, data: Bytes, from: nat) returns (out: Option<seq<Record>>)
    ensures out == Load(c, data, from)
  {
    hide Load, NewlineAt;
    var rest, rs := data, [];
    ThenStart(Load(c, data, from));
    while rest != []
      invariant Load(c, data, from) == Then(rs, Load(c, rest, from))
      decreases |rest|
    {
      LoadStep(c, rest, from);
      var i := NewlineAt(rest);
      var line := rest[..i];
      rest := if i == |rest| then [] else rest[i + 1..];
      if line != [] {
        var r := c.decode(line);
        if r.None? {
          return None;
        }
        if r.value.seqno >= from {
          ThenStep(rs, r.value, Load(c, rest, from));
          rs := rs + [r.value];
        }
      }
    }
    LoadNone(c, from);
    assert rs + [] == rs;
    out := Some(rs);
  }

  /** repairTail's scan: the newest complete record and where it ends, or None for corruption. */
  method RepairTail(c: Codec, data: Bytes) returns (r: Option<(nat, nat)>)
    ensures r.None? <==> Scan(c, data).None?
    ensures r.Some? ==> var rs := Scan(c, data).value;
                        r.value == (if rs == [] then 0 else rs[|rs| - 1].seqno, Whole(data))
  {
    var last, offset, rest := 0, 0, data;
    ghost var rs: seq<Record> := [];
    ThenStart(Scan(c, data));
    while true
      invariant last == if rs == [] then 0 else rs[|rs| - 1].seqno
      invariant Whole(data) == offset + Whole(rest)
      invariant Scan(c, data) == Then(rs, Scan(c, rest))
      decreases |rest|
    {
      var i := NewlineAt(rest);
      if i == |rest| {
        assert rs + [] == rs;
        return Some((last, offset));
      }
      var rec := c.decode(rest[..i]);
      if rec.None? {
        return None;
      }
      ThenStep(rs, rec.value, Scan(c, rest[i + 1..]));
      last, offset, rest := rec.value.seqno, offset + i + 1, rest[i + 1..];
      rs := rs + [rec.value];
    }
  }

  class Journal {
    const codec: Codec
    const maxSegment: nat
    var files: seq<SegFile>
    var cur: bool
    var curSize: nat
    var curBase: nat
    var last: nat
    ghost var segs: seq<Seg>

    ghost predicate Valid()
      reads this
    {
      && IsLineCodec(codec)
      && WellFormed(codec, maxSegment, segs, last)
      && files == Files(codec, segs)
      && (cur ==> files != [] && var newest := files[|files| - 1];
                  curBase == newest.base && curSize == |newest.data|)
    }

    /** The one sequence of records everything else is about. */
    ghost function Records(): seq<Record>
      reads this
    {
      Flat(segs)
    }

    constructor (codec: Codec, maxSegment: nat, files: seq<SegFile>, last: nat)
      ensures this.codec == codec && this.maxSegment == maxSegment
      ensures this.files == files && this.last == last && !cur && segs == Parsed(codec, files)
    {
      this.codec, this.maxSegment, this.files, this.last := codec, maxSegment, files, last;
      cur, curSize, curBase := false, 0, 0;
      segs := Parsed(codec, files);
    }

    /** Opens a directory; None is the error for a corrupt record in the newest segment. */
    static method Open(codec: Codec, maxSegment: nat, disk: seq<SegFile>) returns (j: Option<Journal>)
      ensures j.Some? <==> Reopen(codec, disk).Some?
      ensures j.Some? ==> fresh(j.value) && j.value.codec == codec && j.value.maxSegment == maxSegment
                          && Opened(j.value.files, j.value.last) == Reopen(codec, disk).value
                          && (forall segs, last :: j.value.files == Files(codec, segs) && j.value.last == last
                                && IsLineCodec(codec) && WellFormed(codec, maxSegment, segs, last)
                                ==> j.value.segs == segs && j.value.Valid())
    {
      var files, last := disk, 0;
      if |disk| > 0 {
        var newest := disk[|disk| - 1];
        var tail := RepairTail(codec, newest.data);
        if tail.None? {
          return None;
        }
        last := tail.value.0;
        files := disk[|disk| - 1 := SegFile(newest.base, newest.data[..tail.value.1])];
      }
      var opening := new Journal(codec, maxSegment, files, last);
      forall segs | files == Files(codec, segs) && IsLineCodec(codec)
        ensures opening.segs == segs
      {
        ParsedFiles(codec, segs);
      }
      j := Some(opening);
    }

    /** Makes the newest file the one to write to, starting a new one when it would overflow. */
    method EnsureSegment(nextSeq: nat, need: nat)
      requires Valid() && nextSeq == last + 1
      modifies this`files, this`cur, this`curSize, this`curBase
      ensures cur && files != []
      ensures var newest := files[|files| - 1]; curBase == newest.base && curSize == |newest.data|
      ensures files == Ensured(maxSegment, old(files), nextSeq, need)
      ensures files == if old(files) != [] && (|old(files)[|old(files)| - 1].data| + need <= maxSegment
                                               || old(files)[|old(files)| - 1].base == nextSeq)
                       then old(files) else old(files) + [SegFile(nextSeq, [])]
    {
      if cur && curSize + need <= maxSegment {
        return;
      }
      cur := false;
      var base := nextSeq;
      if |files| > 0 {
        var newest := files[|files| - 1];
        if |newest.data| + need <= maxSegment {
          base := newest.base;
        }
      }
      // Opening with O_CREATE: an existing file of that name is appended to.
      if files == [] || files[|files| - 1].base != base {
        files := files + [SegFile(base, [])];
      }
      cur, curSize, curBase := true, |files[|files| - 1].data|, base;
    }

    method Write(r: Record)
      requires Valid() && r.seqno == last + 1
      modifies this
      ensures Valid() && last == r.seqno
      ensures segs == Place(codec, maxSegment, old(segs), r) && Records() == old(Records()) + [r]
    {
      hide IsLineCodec, WellFormed, Place, Flat, Files, Line;
      PlaceRefinesAppend(codec, maxSegment, segs, last, r);
      PlacedFiles(codec, maxSegment, segs, r);
      var line := Line(codec, r);
      EnsureSegment(r.seqno, |line|);
      var newest := files[|files| - 1];
      files := files[|files| - 1 := SegFile(newest.base, newest.data + line)];
      curSize := curSize + |line|;
      last := r.seqno;
      segs := Place(codec, maxSegment, segs, r);
    }

    /** Assigns the next number, with no reuse and no gap, and makes the record durable. */
    method Append(op: Op, now: Time) returns (seqno: nat)
      requires Valid()
      modifies this
      ensures Valid() && seqno == last == old(last) + 1
      ensures Records() == old(Records()) + [Record(seqno, now, op)]
      ensures segs == Place(codec, maxSegment, old(segs), Record(seqno, now, op))
    {
      seqno := last + 1;
      Write(Record(seqno, now, op));
    }

    /** Accepts a record that carries its own number, which must be exactly the next one. */
    method AppendAt(r: Record) returns (ok: bool)
      requires Valid()
      modifies this
      ensures Valid() && (ok <==> r.seqno == old(last) + 1)
      ensures ok ==> Records() == old(Records()) + [r] && last == r.seqno
      ensures !ok ==> segs == old(segs) && files == old(files) && last == old(last)
    {
      if r.seqno != last + 1 {
        return false;
      }
      Write(r);
      ok := true;
    }

    /** Hands over exactly the retained records numbered `from` and up, in order. */
    method Replay(from: nat) returns (out: Option<seq<Record>>)
      requires Valid()
      ensures out == Some(From(Records(), from))
    {
      hide IsLineCodec, WellFormed, Flat, Files, From, Load;
      var rs := [];
      for i := 0 to |files|
        invariant ReplayFiles(codec, files, i, from) == Some(rs)
      {
        if i + 1 < |files| && files[i + 1].base <= from {
          continue;
        }
        AllReadable(codec, maxSegment, segs, last, i + 1, from);
        var here := ReplayFile(codec, files[i].data, from);
        rs := rs + here.value;
      }
      ReplayIsExact(codec, maxSegment, segs, last, from);
      out := Some(rs);
    }

    /** Drops old segments as long as every record in them is below keepFrom. */
    method Prune(keepFrom: nat) returns (removed: nat)
      requires Valid()
      modifies this`files, this`segs
      ensures Valid() && removed == Prunable(old(segs), keepFrom)
      ensures segs == old(segs)[removed..] && last == old(last)
      ensures forall from: nat :: from >= keepFrom ==> From(Records(), from) == From(old(Records()), from)
    {
      hide IsLineCodec, WellFormed, Flat, Files, From, Prunable, Doomed;
      ghost var n := Prunable(segs, keepFrom);
      PrunedValid(codec, maxSegment, segs, last, keepFrom);
      PruneStops(codec, maxSegment, segs, last, keepFrom, if cur then Some(curBase) else None);
      removed, files := Sift(files, keepFrom, if cur then Some(curBase) else None, n);
      segs := segs[n..];
    }
  }

  /** Prune's walk over the listing: counts the files it removes and keeps the others. */
  method Sift(listed: seq<SegFile>, keepFrom: nat, tail: Option<nat>, ghost n: nat)
    returns (removed: nat, keep: seq<SegFile>)
    requires n <= |listed|
    requires forall i :: 0 <= i < |listed| ==> (i < n <==> Doomed(listed, keepFrom, tail, i))
    ensures removed == n && keep == listed[n..]
  {
    removed, keep := 0, [];
    for i := 0 to |listed|
      invariant removed == (if i <= n then i else n)
      invariant keep == if i <= n then [] else listed[n..i]
    {
      assert i < n <==> Doomed(listed, keepFrom, tail, i);
      if i + 1 >= |listed| || listed[i + 1].base > keepFrom {
        keep := keep + [listed[i]]; // needed: its successor starts too late, or there is none
      } else if Some(listed[i].base) == tail {
        keep := keep + [listed[i]]; // being appended to
      } else {
        removed := removed + 1;
      }
    }
  }

  /** Whether a prune removes file i, with tail the base of the file open for writing. */
  ghost predicate Doomed(files: seq<SegFile>, keepFrom: nat, tail: Option<nat>, i: nat)
    requires i < |files|
  {
    i + 1 < |files| && files[i + 1].base <= keepFrom && Some(files[i].base) != tail
  }

  lemma PrunedValid(c: Codec, max: nat, segs: seq<Seg>, last: nat, keepFrom: nat)
    requires WellFormed(c, max, segs, last)
    ensures var n := Prunable(segs, keepFrom);
            && WellFormed(c, max, segs[n..], last) && Files(c, segs)[n..] == Files(c, segs[n..])
            && forall from: nat :: from >= keepFrom ==> From(Flat(segs[n..]), from) == From(Flat(segs), from)
  {
    hide *;
    var n := Prunable(segs, keepFrom);
    PruneIsInvisible(c, max, segs, last, keepFrom, keepFrom);
    forall from: nat | from >= keepFrom ensures From(Flat(segs[n..]), from) == From(Flat(segs), from) {
      PruneIsInvisible(c, max, segs, last, keepFrom, from);
    }
  }

  lemma AllReadable(c: Codec, max: nat, segs: seq<Seg>, last: nat, n: nat, from: nat)
    requires IsLineCodec(c) && WellFormed(c, max, segs, last) && n <= |segs|
    ensures ReplayFiles(c, Files(c, segs), n, from).Some?
  {
    ReplayFilesUpTo(c, max, segs, last, n, from);
  }

  /** A prune removes exactly the oldest Prunable files, and never the one being written. */
  lemma PruneStops(c: Codec, max: nat, segs: seq<Seg>, last: nat, keepFrom: nat, tail: Option<nat>)
    requires WellFormed(c, max, segs, last)
    requires tail.Some? ==> segs != [] && tail.value == segs[|segs| - 1].base
    ensures forall i :: 0 <= i < |segs| ==>
              (i < Prunable(segs, keepFrom) <==> Doomed(Files(c, segs), keepFrom, tail, i))
  {
    var n := Prunable(segs, keepFrom);
    forall a: nat, b: nat | a < b < |segs| ensures segs[a].base < segs[b].base {
      BasesAscend(c, max, segs, last, a, b);
    }
  }

  lemma {:induction false} BasesAscend(c: Codec, max: nat, segs: seq<Seg>, last: nat, a: nat, b: nat)
    requires WellFormed(c, max, segs, last) && a < b < |segs|
    ensures segs[a].base < segs[b].base
    decreases b
  {
    WellFormedPrefix(c, max, segs, last, b);
    if a < b - 1 {
      BasesAscend(c, max, segs, last, a, b - 1);
    }
    var below := segs[..b];
    assert below[|below| - 1] == segs[b - 1];
  }
}
