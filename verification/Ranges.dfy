/**
 Byte ranges, per section 14.1.2 of RFC 9110: the server's reading of a Range header
 (internal/s3/server.go: parseRange, getObject), the client's writing of one
 (internal/s3client/client.go: GetRange) and the reads a mount serves through them
 (internal/agent/access.go: ReadRemoteAt, internal/mount/mount_linux.go: Read).
 */
module Ranges {
  import opened Wrappers
  import opened ByteStrings
  import opened Numbers

  /** Which bytes of an object to send; partial when a header asked for them. */
  datatype Span = Span(offset: nat, length: nat, partial: bool) {
    predicate Has(i: int) { offset <= i < offset + length }
  }

  const UNIT: Bytes := ['b', 'y', 't', 'e', 's', '=']

  /** strings.Cut: the text before and after the first separator. */
  function Cut(s: Bytes, sep: Byte): Option<(Bytes, Bytes)> {
    if s == [] then None
    else if s[0] == sep then Some(([], s[1..]))
    else
      var rest := Cut(s[1..], sep);
      if rest.None? then None else Some(([s[0]] + rest.value.0, rest.value.1))
  }

  lemma {:induction false} CutFinds(s: Bytes, sep: Byte, before: Bytes, after: Bytes)
    ensures Cut(s, sep) == Some((before, after)) <==> s == before + [sep] + after && sep !in before
  {
    if s != [] {
      var whole := before + [sep] + after;
      if s[0] == sep {
        if before == [] { assert whole[1..] == after; } else { assert whole[0] == before[0]; }
        assert s == [] + [sep] + s[1..];
      } else if before == [] {
        assert whole[0] == sep;
      } else {
        CutFinds(s[1..], sep, before[1..], after);
        assert whole == [before[0]] + (before[1..] + [sep] + after);
        assert s == [s[0]] + s[1..];
        assert before == [before[0]] + before[1..];
        assert whole[1..] == before[1..] + [sep] + after;
        if Cut(s, sep).Some? {
          var b := Cut(s[1..], sep).value.0;
          assert ([s[0]] + b)[0] == s[0] && ([s[0]] + b)[1..] == b;
        }
      }
    }
  }

  /** parseRange. None is the error InvalidRange. */
  function ParseRange(header: Bytes, size: nat): Option<Span> {
    if header == [] then Some(Span(0, size, false))
    else if !HasPrefix(header, UNIT) || ',' in header[|UNIT|..] then None
    else
      var cut := Cut(header[|UNIT|..], '-');
      if cut.None? then None
      else
        var (first, last) := cut.value;
        if first == [] && last == [] then None
        else if first == [] then
          var n := ParseInt(last, Decimal);
          if n.None? || n.value <= 0 then None
          else
            var n := if n.value > size then size else n.value;
            Some(Span(size - n, n, true))
        else
          var start := ParseInt(first, Decimal);
          if start.None? || start.value < 0 || start.value >= size then None
          else
            var end := if last == [] then Some(size - 1) else ParseInt(last, Decimal);
            if end.None? then None
            else
              var end := if end.value >= size then size - 1 else end.value;
              if end < start.value then None
              else Some(Span(start.value, end - start.value + 1, true))
  }

  // ------------------------------------------------------ what it means

  /** What a single range asks for: the last n bytes, or the bytes from one position on, perhaps up to another. */
  datatype Wish = Final(n: int) | From(start: int, end: Option<int>) {
    predicate Wants(i: int, size: nat) {
      && 0 <= i < size
      && match this
         case Final(n) => size - i <= n
         case From(start, end) => start <= i && (end.Some? ==> i <= end.value)
    }

    /** No negative position, not an empty suffix, and some byte to send unless a suffix of an empty object. */
    ghost predicate Satisfiable(size: nat) {
      match this
      case Final(n) => n > 0
      case From(start, end) => start >= 0 && exists i :: Wants(i, size)
    }
  }

  /** The header spells the wish out. */
  ghost predicate Spells(header: Bytes, first: Bytes, last: Bytes, wish: Wish) {
    && header == UNIT + (first + ['-'] + last)
    && '-' !in first && ',' !in first && ',' !in last
    && match wish
       case Final(n) => first == [] && ParseInt(last, Decimal) == Some(n)
       case From(start, end) =>
         first != [] && ParseInt(first, Decimal) == Some(start)
         && if end.None? then last == [] else ParseInt(last, Decimal) == end
  }

  /** A header that spells a wish is accepted just when the wish can be met, and the span is the bytes wished for. */
  lemma SpeltRange(header: Bytes, size: nat, first: Bytes, last: Bytes, wish: Wish)
    requires Spells(header, first, last, wish)
    ensures ParseRange(header, size).Some? <==> wish.Satisfiable(size)
    ensures ParseRange(header, size).Some? ==>
              var r := ParseRange(header, size).value;
              r.partial && forall i :: r.Has(i) <==> wish.Wants(i, size)
  {
    var text := first + ['-'] + last;
    assert header[..|UNIT|] == UNIT && header[|UNIT|..] == text;
    CutFinds(text, '-', first, last);
    assert ParseInt([], Decimal).None?;
    hide ParseInt, Cut;
    if wish.From? && wish.start < size && (wish.end.Some? ==> wish.start <= wish.end.value) {
      assert wish.start >= 0 ==> wish.Wants(wish.start, size);
    }
  }

  lemma AcceptedIsSpelt(header: Bytes, size: nat) returns (first: Bytes, last: Bytes, wish: Wish)
    requires header != [] && ParseRange(header, size).Some?
    ensures Spells(header, first, last, wish)
  {
    var text := header[|UNIT|..];
    var cut := Cut(text, '-').value;
    first, last := cut.0, cut.1;
    CutFinds(text, '-', first, last);
    assert header == UNIT + text;
    assert ',' !in text ==> ',' !in first && ',' !in last by {
      assert forall i :: 0 <= i < |first| ==> first[i] == text[i];
      assert forall i :: 0 <= i < |last| ==> last[i] == text[|first| + 1 + i];
    }
    hide ParseInt, Cut;
    wish := if first == [] then Final(ParseInt(last, Decimal).value)
            else From(ParseInt(first, Decimal).value, if last == [] then None else ParseInt(last, Decimal));
  }

  /** Accepted headers are exactly those that spell a wish that can be met. */
  lemma AcceptedExactly(header: Bytes, size: nat)
    requires header != []
    ensures ParseRange(header, size).Some? <==>
            exists first, last, wish: Wish :: Spells(header, first, last, wish) && wish.Satisfiable(size)
  {
    hide ParseRange, Spells;
    if ParseRange(header, size).Some? {
      var first, last, wish := AcceptedIsSpelt(header, size);
      SpeltRange(header, size, first, last, wish);
    }
    forall first, last, wish: Wish | Spells(header, first, last, wish) && wish.Satisfiable(size)
      ensures ParseRange(header, size).Some?
    {
      SpeltRange(header, size, first, last, wish);
    }
  }

  /** Whatever the header, an accepted range lies inside the object and is empty only if the object is. */
  lemma RangeIsInside(header: Bytes, size: nat)
    requires ParseRange(header, size).Some?
    ensures var r := ParseRange(header, size).value;
            r.offset + r.length <= size && (r.length == 0 <==> size == 0) && (r.partial <==> header != [])
  {
    hide ParseInt, Cut;
  }

  // ------------------------------------------------------------ the client

  /** fmt's %d. */
  function Print(n: int): Bytes {
    if n < 0 then ['-'] + Format(0 - n, Decimal) else Format(n, Decimal)
  }

  /** 64-bit addition. */
  function Wrap(n: int): int {
    if n >= INT64_LIMIT then n - 2 * INT64_LIMIT else n
  }

  /** The header GetRange sends. */
  function RangeHeader(offset: int, length: int): Bytes {
    UNIT + (Print(offset) + ['-'] + Print(Wrap(offset + length - 1)))
  }

  lemma PrintReads(n: int)
    requires -INT64_LIMIT <= n < INT64_LIMIT
    ensures ParseInt(Print(n), Decimal) == Some(n) && Print(n) != [] && ',' !in Print(n)
    ensures n >= 0 ==> '-' !in Print(n)
  {
    var v := if n < 0 then 0 - n else n;
    ParseFormat(v, Decimal);
    ParseFormatDigits(v, Decimal);
    var s := Format(v, Decimal);
    assert Digit('-').None? && Digit(',').None?;
    assert forall i :: 0 <= i < |s| ==> Digit(s[i]).Some?;
    assert '-' !in s && ',' !in s;
    hide Format, ParseDigits;
    if n < 0 { assert Print(n)[1..] == s; }
  }

  /** A range with both positions given. */
  lemma FromTo(first: Bytes, last: Bytes, start: nat, end: int, size: nat)
    requires '-' !in first && ',' !in first && ',' !in last && first != [] && last != []
    requires ParseInt(first, Decimal) == Some(start) && ParseInt(last, Decimal) == Some(end)
    ensures ParseRange(UNIT + (first + ['-'] + last), size)
            == if start < size && end >= start then Some(Span(start, Min(end + 1, size) - start, true)) else None
  {
    hide ParseInt, Cut;
    var text := first + ['-'] + last;
    var header := UNIT + text;
    assert header[..|UNIT|] == UNIT && header[|UNIT|..] == text;
    CutFinds(text, '-', first, last);
  }

  /** What GetRange asks for is read as asked, cut off at the end of the object, unless the last position overflows. */
  lemma RangeRoundTrip(offset: int, length: int, size: nat)
    requires 0 <= offset < INT64_LIMIT && 0 <= length < INT64_LIMIT && size < INT64_LIMIT
    ensures ParseRange(RangeHeader(offset, length), size)
            == if offset < size && length >= 1 && offset + length - 1 < INT64_LIMIT
               then Some(Span(offset, Min(length, size - offset), true))
               else None
  {
    hide ParseRange, Print, ParseInt;
    var end := Wrap(offset + length - 1);
    PrintReads(offset);
    PrintReads(end);
    FromTo(Print(offset), Print(end), offset, end, size);
  }

  function Min(a: nat, b: nat): nat {
    if a < b then a else b
  }

  // ------------------------------------------------------------- the reads

  /** Up to length bytes of the content from an offset on; nothing past the end. */
  function Part(content: Bytes, offset: nat, length: nat): (p: Bytes)
    ensures |p| == if offset < |content| then Min(length, |content| - offset) else 0
    ensures forall i :: 0 <= i < |p| ==> p[i] == content[offset + i]
  {
    if offset >= |content| then [] else content[offset..offset + Min(length, |content| - offset)]
  }

  /** getObject's body for one request: the whole object, or the part a range selects. */
  method Serve(content: Bytes, header: Bytes) returns (body: Option<Bytes>)
    ensures body.None? <==> ParseRange(header, |content|).None?
    ensures body.Some? ==> var r := ParseRange(header, |content|).value; body.value == Part(content, r.offset, r.length)
    ensures header == [] ==> body == Some(content)
  {
    var range := ParseRange(header, |content|);
    if range.None? {
      return None;
    }
    RangeIsInside(header, |content|);
    hide ParseInt, Cut;
    var r := range.value;
    if !r.partial {
      return Some(content);
    }
    var rest := content[r.offset..];
    body := Some(rest[..r.length]);
  }

  /** ReadRemoteAt: want bytes of the object into p. None is a refused range. */
  method ReadRemoteAt(content: Bytes, p: array<Byte>, want: nat, offset: nat) returns (n: Option<nat>)
    requires want <= p.Length < INT64_LIMIT && offset < INT64_LIMIT && |content| < INT64_LIMIT
    modifies p
    ensures n.None? <==> want > 0 && (offset >= |content| || offset + want > INT64_LIMIT)
    ensures n.Some? ==> n.value <= want && p[..n.value] == Part(content, offset, want)
  {
    if want == 0 {
      return Some(0);
    }
    RangeRoundTrip(offset, want, |content|);
    hide ParseRange, RangeHeader;
    var body := Serve(content, RangeHeader(offset, want));
    if body.None? {
      return None;
    }
    for i := 0 to |body.value|
      invariant i <= |body.value| <= want
      invariant p[..i] == body.value[..i]
    {
      p[i] := body.value[i];
    }
    n := Some(|body.value|);
  }

  /** A streamed read of an evicted file whose recorded size is size. None is an input-output error. */
  method Read(content: Bytes, size: nat, dest: array<Byte>, offset: nat) returns (data: Option<Bytes>)
    requires dest.Length < INT64_LIMIT && offset < INT64_LIMIT
    requires |content| < INT64_LIMIT && size < INT64_LIMIT
    modifies dest
    ensures size == |content| ==> data == Some(Part(content, offset, dest.Length))
    ensures data.None? <==> |content| <= offset < size && dest.Length > 0
    ensures data.Some? ==> data.value == Part(content, offset, if offset < size then Min(dest.Length, size - offset) else 0)
  {
    if offset >= size {
      return Some([]);
    }
    var want := dest.Length;
    if want > size - offset {
      want := size - offset;
    }
    var n := ReadRemoteAt(content, dest, want, offset);
    if n.None? {
      return None;
    }
    data := Some(dest[..n.value]);
  }

  /** What a reader collects with a series of reads, each starting where the one before ended. */
  function ReadOn(content: Bytes, offset: nat, lengths: seq<nat>): Bytes
    decreases |lengths|
  {
    if lengths == [] then []
    else
      var got := Part(content, offset, lengths[0]);
      got + ReadOn(content, offset + |got|, lengths[1..])
  }

  function Sum(lengths: seq<nat>): nat {
    if lengths == [] then 0 else lengths[0] + Sum(lengths[1..])
  }

  lemma PartsCompose(content: Bytes, offset: nat, a: nat, b: nat)
    ensures var got := Part(content, offset, a);
            got + Part(content, offset + |got|, b) == Part(content, offset, a + b)
  {
  }

  lemma ReadNone(content: Bytes, offset: nat)
    ensures ReadOn(content, offset, []) == [] == Part(content, offset, Sum([]))
  {
  }

  lemma ReadNext(content: Bytes, offset: nat, lengths: seq<nat>)
    requires lengths != []
    ensures Sum(lengths) == lengths[0] + Sum(lengths[1..])
    ensures var got := Part(content, offset, lengths[0]);
            ReadOn(content, offset, lengths) == got + ReadOn(content, offset + |got|, lengths[1..])
  {
    hide Part;
  }

  /** Reads in any sizes give what one read of their total size gives. */
  lemma {:induction false} ReadsCompose(content: Bytes, offset: nat, lengths: seq<nat>)
    decreases |lengths|
    ensures ReadOn(content, offset, lengths) == Part(content, offset, Sum(lengths))
  {
    hide *;
    if lengths == [] {
      ReadNone(content, offset);
    } else {
      ReadNext(content, offset, lengths);
      ReadsCompose(content, offset + |Part(content, offset, lengths[0])|, lengths[1..]);
      PartsCompose(content, offset, lengths[0], Sum(lengths[1..]));
    }
  }
}
