/**
 The aws-chunked decoder (internal/s3/chunked.go) and the framing it decodes.

 sign(prev, data) stands for a chunk's signature, chained from the previous one; all that is
 used of it is that it is written in hexadecimal digits.
 */
module Chunked {
  import opened Wrappers
  import opened ByteStrings
  import opened Numbers

  const MAX_CHUNK := 32 * 1024 * 1024
  const MAX_TRAILERS := 16
  const SIG_PREFIX: Bytes := "chunk-signature="
  const CRLF: Bytes := ['\r', '\n']

  type Signer = (Bytes, Bytes) -> Bytes

  ghost predicate IsHexSigner(sign: Signer) {
    forall prev, data, i :: 0 <= i < |sign(prev, data)| ==> Digit(sign(prev, data)[i]).Some?
  }

  datatype Fault = Eof | BadSize | TooLarge | NoSignature | ShortChunk | BadSignature | TooManyTrailers

  // ------------------------------------------------------------- scanning

  predicate IsSpace(c: Byte) {
    c == ' ' || 9 <= c as int <= 13
  }

  /** strings.TrimRight(s, "\r\n"). */
  function TrimEnd(s: Bytes): Bytes {
    if s != [] && (s[|s| - 1] == '\r' || s[|s| - 1] == '\n') then TrimEnd(s[..|s| - 1]) else s
  }

  function TrimLeft(s: Bytes): Bytes {
    if s != [] && IsSpace(s[0]) then TrimLeft(s[1..]) else s
  }

  function TrimRight(s: Bytes): Bytes {
    if s != [] && IsSpace(s[|s| - 1]) then TrimRight(s[..|s| - 1]) else s
  }

  function TrimSpace(s: Bytes): Bytes {
    TrimRight(TrimLeft(s))
  }

  /** One line without its end, and what follows it; None at the end of input. */
  function ReadLine(input: Bytes): (r: Option<(Bytes, Bytes)>)
    ensures r.Some? ==> |r.value.1| < |input|
    ensures r.None? <==> input == []
  {
    if input == [] then None
    else
      var i := NewlineAt(input);
      if i == |input| then Some((TrimEnd(input), [])) else Some((TrimEnd(input[..i]), input[i + 1..]))
  }

  /** strings.Cut(s, ";"). */
  function CutAt(s: Bytes): (Bytes, Bytes) {
    if s == [] then ([], [])
    else if s[0] == ';' then ([], s[1..])
    else
      var rest := CutAt(s[1..]);
      ([s[0]] + rest.0, rest.1)
  }

  /** Only line ends go, and all of them. */
  lemma {:induction false} TrimEndExactly(s: Bytes)
    ensures var r := TrimEnd(s);
            && r <= s && (r != [] ==> r[|r| - 1] != '\r' && r[|r| - 1] != '\n')
            && forall i :: |r| <= i < |s| ==> s[i] == '\r' || s[i] == '\n'
  {
    if s != [] && (s[|s| - 1] == '\r' || s[|s| - 1] == '\n') { TrimEndExactly(s[..|s| - 1]); }
  }

  /** Only white space goes, and all of it, on either side. */
  lemma {:induction false} TrimLeftExactly(s: Bytes)
    ensures var r := TrimLeft(s);
            && |r| <= |s| && r == s[|s| - |r|..] && (r != [] ==> !IsSpace(r[0]))
            && forall i :: 0 <= i < |s| - |r| ==> IsSpace(s[i])
  {
    hide IsSpace;
    if s != [] && IsSpace(s[0]) {
      TrimLeftExactly(s[1..]);
      var r := TrimLeft(s[1..]);
      assert s[1..][|s| - 1 - |r|..] == s[|s| - |r|..];
      assert forall i :: 1 <= i < |s| - |r| ==> s[i] == s[1..][i - 1];
    }
  }

  lemma {:induction false} TrimRightExactly(s: Bytes)
    ensures var r := TrimRight(s);
            && r <= s && (r != [] ==> !IsSpace(r[|r| - 1]))
            && forall i :: |r| <= i < |s| ==> IsSpace(s[i])
  {
    hide IsSpace;
    if s != [] && IsSpace(s[|s| - 1]) { TrimRightExactly(s[..|s| - 1]); }
  }

  lemma TrimSpaceExactly(s: Bytes) returns (before: Bytes, after: Bytes)
    ensures s == before + TrimSpace(s) + after
    ensures (forall c :: c in before || c in after ==> IsSpace(c))
    ensures TrimSpace(s) != [] ==> !IsSpace(TrimSpace(s)[0]) && !IsSpace(TrimSpace(s)[|TrimSpace(s)| - 1])
  {
    hide TrimLeft, TrimRight, IsSpace;
    var left := TrimLeft(s);
    var r := TrimRight(left);
    TrimLeftExactly(s);
    TrimRightExactly(left);
    before, after := s[..|s| - |left|], left[|r|..];
    assert s == before + left && left == r + after;
    assert forall i :: 0 <= i < |after| ==> after[i] == left[|r| + i];
    assert r != [] ==> left[0] == r[0];
  }

  /** The cut is at the first semicolon, or there is none. */
  lemma {:induction false} CutAtExactly(s: Bytes)
    ensures var r := CutAt(s); ';' !in r.0 && if ';' in s then s == r.0 + [';'] + r.1 else r == (s, [])
  {
    if s != [] && s[0] != ';' {
      CutAtExactly(s[1..]);
      assert s == [s[0]] + s[1..];
    }
  }

  function SignatureIn(meta: Bytes): Option<Bytes> {
    var m := TrimSpace(meta);
    if HasPrefix(m, SIG_PREFIX) then Some(m[|SIG_PREFIX|..]) else None
  }

  // ------------------------------------------------------------ one chunk

  datatype Chunk = Chunk(data: Bytes, rest: Bytes, prev: Bytes)

  /** The header line: a bare line end before it is passed over. */
  function Header(input: Bytes): (r: Option<(Bytes, Bytes)>)
    ensures r.Some? ==> |r.value.1| < |input|
  {
    var line := ReadLine(input);
    if line.None? then None
    else if line.value.0 != [] then line
    else ReadLine(line.value.1)
  }

  /** nextChunk up to the trailers: reads and verifies one chunk. */
  function TakeChunk(sign: Signer, verify: bool, input: Bytes, prev: Bytes): (r: Result<Chunk, Fault>)
    ensures r.Ok? ==> |r.value.rest| < |input|
  {
    var header := Header(input);
    if header.None? then Err(Eof)
    else
      var (sizeHex, meta) := CutAt(header.value.0);
      var size := ParseInt(TrimSpace(sizeHex), Hex);
      if size.None? || size.value < 0 then Err(BadSize)
      else if size.value > MAX_CHUNK then Err(TooLarge)
      else if verify && SignatureIn(meta).None? then Err(NoSignature)
      else if |header.value.1| < size.value then Err(ShortChunk)
      else
        var data := header.value.1[..size.value];
        var ending := ReadLine(header.value.1[size.value..]);
        if ending.None? then Err(Eof)
        else if verify && sign(prev, data) != SignatureIn(meta).value then Err(BadSignature)
        else Ok(Chunk(data, ending.value.1, if verify then sign(prev, data) else prev))
  }

  /** skipTrailers: what is left once an empty line or the end of input is met, within the limit. */
  function SkipTrailers(input: Bytes, i: nat): (r: Option<Bytes>)
    requires i <= MAX_TRAILERS
    ensures r.Some? ==> |r.value| <= |input|
    decreases MAX_TRAILERS - i
  {
    if i == MAX_TRAILERS then None
    else
      var line := ReadLine(input);
      if line.None? then Some(input)
      else if line.value.0 == [] then Some(line.value.1)
      else SkipTrailers(line.value.1, i + 1)
  }

  // ------------------------------------------------------------ the reader

  datatype Reader = Reader(input: Bytes, prev: Bytes, buf: Bytes, off: nat, done: bool, err: Option<Fault>)

  datatype Outcome = Served(data: Bytes) | AtEof | Failed(fault: Fault)

  /** How a fault shows to whoever reads: the end of input is an ordinary end. */
  function Ending(fault: Fault): Outcome {
    if fault == Eof then AtEof else Failed(fault)
  }

  function AfterChunk(sign: Signer, verify: bool, r: Reader): (r': Reader)
    ensures r'.err.None? ==> |r'.input| < |r.input|
    ensures r.err.None? && !r.done && (r'.err.Some? || r'.done) ==> r'.buf == r.buf && r'.off == r.off
  {
    var c := TakeChunk(sign, verify, r.input, r.prev);
    if c.Err? then r.(err := Some(c.error))
    else if c.value.data == [] then
      var rest := SkipTrailers(c.value.rest, 0);
      r.(input := if rest.Some? then rest.value else [], prev := c.value.prev, done := true,
         err := if rest.Some? then None else Some(TooManyTrailers))
    else r.(input := c.value.rest, prev := c.value.prev, buf := c.value.data, off := 0)
  }

  /** Read with room for n bytes. An end-of-input fault is the reader's ordinary end. */
  function Read(sign: Signer, verify: bool, r: Reader, n: nat): (Reader, Outcome)
    decreases |r.input|, r.err.None?, !r.done
  {
    if r.off < |r.buf| then
      var k := if n < |r.buf| - r.off then n else |r.buf| - r.off;
      (r.(off := r.off + k), Served(r.buf[r.off..r.off + k]))
    else if r.err.Some? then (r, Ending(r.err.value))
    else if r.done then (r, AtEof)
    else
      var r' := AfterChunk(sign, verify, r);
      if r'.err.Some? then (r', Ending(r'.err.value))
      else if r'.done then (r', AtEof)
      else Read(sign, verify, r', n)
  }

  // ------------------------------------------------------------ the encoder

  function HeaderFor(sign: Signer, verify: bool, prev: Bytes, data: Bytes): Bytes {
    Format(|data|, Hex) + if verify then [';'] + SIG_PREFIX + sign(prev, data) else []
  }

  function Link(sign: Signer, verify: bool, prev: Bytes, data: Bytes): Bytes {
    if verify then sign(prev, data) else prev
  }

  /** One chunk on the wire. */
  function Frame(sign: Signer, verify: bool, prev: Bytes, data: Bytes): Bytes {
    HeaderFor(sign, verify, prev, data) + CRLF + data + CRLF
  }

  /** The framed chunks, without the closing one. */
  function Frames(sign: Signer, verify: bool, prev: Bytes, chunks: seq<Bytes>): Bytes
    decreases |chunks|
  {
    if chunks == [] then []
    else Frame(sign, verify, prev, chunks[0])
         + Frames(sign, verify, Link(sign, verify, prev, chunks[0]), chunks[1..])
  }

  /** The value the signature chain has after these chunks. */
  function ChainAfter(sign: Signer, verify: bool, prev: Bytes, chunks: seq<Bytes>): Bytes
    decreases |chunks|
  {
    if chunks == [] then prev else ChainAfter(sign, verify, Link(sign, verify, prev, chunks[0]), chunks[1..])
  }

  function Lines(ts: seq<Bytes>): Bytes {
    if ts == [] then [] else ts[0] + CRLF + Lines(ts[1..])
  }

  /** The zero chunk, the trailing headers and the final empty line. */
  function Closing(sign: Signer, verify: bool, prev: Bytes, trailers: seq<Bytes>): Bytes {
    HeaderFor(sign, verify, prev, []) + CRLF + Lines(trailers) + CRLF
  }

  function Payload(chunks: seq<Bytes>): Bytes {
    if chunks == [] then [] else chunks[0] + Payload(chunks[1..])
  }

  ghost predicate Fit(chunks: seq<Bytes>) {
    forall i :: 0 <= i < |chunks| ==> 0 < |chunks[i]| <= MAX_CHUNK
  }

  // ---------------------------------------------------------- line lemmas

  /** Text that reads back as one line: no newline in it, and no carriage return at its end. */
  predicate PlainLine(s: Bytes) {
    '\n' !in s && (s != [] ==> s[|s| - 1] != '\r')
  }

  lemma ReadPlainLine(s: Bytes, rest: Bytes)
    requires PlainLine(s)
    ensures ReadLine(s + CRLF + rest) == Some((s, rest))
  {
    var line := s + ['\r'];
    assert s + CRLF + rest == line + ['\n'] + rest;
    FirstLine(line, rest);
    assert line[..|line| - 1] == s;
    assert TrimEnd(line) == TrimEnd(s) == s;
  }

  /** The last line of the input may lack its end, or half of it. */
  lemma ReadBareLine(s: Bytes)
    requires PlainLine(s)
    ensures s != [] ==> ReadLine(s) == Some((s, []))
    ensures ReadLine(s + ['\r']) == Some((s, []))
  {
    var line := s + ['\r'];
    assert line[..|line| - 1] == s;
    assert TrimEnd(line) == TrimEnd(s) == s;
  }

  lemma {:induction false} CutPlain(a: Bytes, b: Bytes)
    requires ';' !in a
    ensures CutAt(a + [';'] + b) == (a, b) && CutAt(a) == (a, [])
  {
    if a != [] {
      assert (a + [';'] + b)[0] == a[0] && (a + [';'] + b)[1..] == a[1..] + [';'] + b;
      CutPlain(a[1..], b);
      assert [a[0]] + a[1..] == a;
    } else {
      assert (a + [';'] + b)[0] == ';' && (a + [';'] + b)[1..] == b;
    }
  }

  lemma DigitsArePlain(s: Bytes)
    requires forall i :: 0 <= i < |s| ==> Digit(s[i]).Some?
    ensures PlainLine(s) && ';' !in s
    ensures s != [] ==> TrimSpace(s) == s
  {
  }

  /** A chunk's header gives back its size and its signature. */
  lemma HeaderReads(sign: Signer, verify: bool, prev: Bytes, data: Bytes)
    requires IsHexSigner(sign) && |data| <= MAX_CHUNK
    ensures var h := HeaderFor(sign, verify, prev, data);
            && PlainLine(h) && h != []
            && ParseInt(TrimSpace(CutAt(h).0), Hex) == Some(|data|)
            && (verify ==> SignatureIn(CutAt(h).1) == Some(sign(prev, data)))
  {
    hide Format, ParseInt, TrimSpace, CutAt, SignatureIn, PlainLine;
    var size := Format(|data|, Hex);
    SizeReads(|data|);
    if verify {
      assert forall i :: 0 <= i < |sign(prev, data)| ==> Digit(sign(prev, data)[i]).Some?;
      SignedReads(size, sign(prev, data));
    } else {
      assert HeaderFor(sign, verify, prev, data) == size;
    }
  }

  lemma SizeReads(n: nat)
    requires n <= MAX_CHUNK
    ensures var size := Format(n, Hex);
            PlainLine(size) && ';' !in size && CutAt(size) == (size, []) && ParseInt(TrimSpace(size), Hex) == Some(n)
  {
    hide Format, ParseInt, TrimSpace, CutAt, PlainLine;
    var size := Format(n, Hex);
    DigitsArePlain(size);
    ParseFormat(n, Hex);
    CutPlain(size, []);
  }

  lemma SignedReads(size: Bytes, sig: Bytes)
    requires size != [] && PlainLine(size) && ';' !in size && forall i :: 0 <= i < |sig| ==> Digit(sig[i]).Some?
    ensures var h := size + ([';'] + SIG_PREFIX + sig);
            && PlainLine(h) && CutAt(h).0 == size && SignatureIn(CutAt(h).1) == Some(sig)
  {
    hide TrimSpace, CutAt, SignatureIn, Digit;
    var meta := SIG_PREFIX + sig;
    assert size + ([';'] + SIG_PREFIX + sig) == size + [';'] + meta;
    CutPlain(size, meta);
    MetaReads(sig);
    PlainSigned(size, sig);
  }

  lemma PlainSigned(size: Bytes, sig: Bytes)
    requires size != [] && PlainLine(size) && forall i :: 0 <= i < |sig| ==> Digit(sig[i]).Some?
    ensures PlainLine(size + [';'] + (SIG_PREFIX + sig))
  {
    DigitsArePlain(sig);
    assert '\n' !in SIG_PREFIX;
    var h := size + [';'] + (SIG_PREFIX + sig);
    assert h[|h| - 1] == if sig == [] then '=' else sig[|sig| - 1];
  }

  lemma MetaReads(sig: Bytes)
    requires forall i :: 0 <= i < |sig| ==> Digit(sig[i]).Some?
    ensures SignatureIn(SIG_PREFIX + sig) == Some(sig)
  {
    var meta := SIG_PREFIX + sig;
    assert meta[0] == 'c' && meta[|meta| - 1] == if sig == [] then '=' else sig[|sig| - 1];
    assert meta[..|SIG_PREFIX|] == SIG_PREFIX && meta[|SIG_PREFIX|..] == sig;
  }

  /** A framed chunk is taken off the input whole, and moves the chain as the encoder's did. */
  lemma TakeFramed(sign: Signer, verify: bool, prev: Bytes, data: Bytes, rest: Bytes)
    requires IsHexSigner(sign) && |data| <= MAX_CHUNK
    ensures TakeChunk(sign, verify, HeaderFor(sign, verify, prev, data) + CRLF + data + CRLF + rest, prev)
            == Ok(Chunk(data, rest, Link(sign, verify, prev, data)))
  {
    var h := HeaderFor(sign, verify, prev, data);
    HeaderReads(sign, verify, prev, data);
    var after := data + CRLF + rest;
    assert h + CRLF + data + CRLF + rest == h + CRLF + after;
    ReadPlainLine(h, after);
    assert after[..|data|] == data && after[|data|..] == [] + CRLF + rest;
    ReadPlainLine([], rest);
    hide HeaderFor, ReadLine, CutAt, TrimSpace, ParseInt, SignatureIn;
  }

  // -------------------------------------------------------------- endings

  /** How the reader ends on what is left of the input; None when a chunk is served first. */
  function EndOf(sign: Signer, verify: bool, prev: Bytes, tail: Bytes): Option<Outcome> {
    var r := AfterChunk(sign, verify, Reader(tail, prev, [], 0, false, None));
    if r.err.Some? then Some(Ending(r.err.value)) else if r.done then Some(AtEof) else None
  }

  lemma {:induction false} SkipsTrailers(ts: seq<Bytes>, i: nat)
    requires i + |ts| < MAX_TRAILERS && forall k :: 0 <= k < |ts| ==> ts[k] != [] && PlainLine(ts[k])
    ensures SkipTrailers(Lines(ts) + CRLF, i) == Some([])
    decreases |ts|
  {
    if ts == [] {
      assert Lines(ts) + CRLF == [] + CRLF + [];
      ReadPlainLine([], []);
    } else {
      assert Lines(ts) + CRLF == ts[0] + CRLF + (Lines(ts[1..]) + CRLF);
      ReadPlainLine(ts[0], Lines(ts[1..]) + CRLF);
      SkipsTrailers(ts[1..], i + 1);
    }
  }

  /** The closing the encoder writes, with up to sixteen trailing headers, ends the reader cleanly. */
  lemma ClosingEnds(sign: Signer, verify: bool, prev: Bytes, ts: seq<Bytes>)
    requires IsHexSigner(sign) && GoodTrailers(ts)
    ensures EndOf(sign, verify, prev, Closing(sign, verify, prev, ts)) == Some(AtEof)
    ensures TakeChunk(sign, verify, Closing(sign, verify, prev, ts), prev).Ok?
    ensures TakeChunk(sign, verify, Closing(sign, verify, prev, ts), prev).value.prev == Link(sign, verify, prev, [])
  {
    hide HeaderFor, Link, TakeChunk;
    var h := HeaderFor(sign, verify, prev, []);
    if ts == [] {
      assert Closing(sign, verify, prev, ts) == h + CRLF + [] + CRLF + [];
      TakeFramed(sign, verify, prev, [], []);
    } else {
      // The line after an empty chunk's data is the first trailer.
      var rest := Lines(ts[1..]) + CRLF;
      assert Closing(sign, verify, prev, ts) == h + CRLF + (ts[0] + CRLF + rest);
      TakeZero(sign, verify, prev, ts[0], rest);
      SkipsTrailers(ts[1..], 0);
    }
  }

  lemma TakeZero(sign: Signer, verify: bool, prev: Bytes, line: Bytes, rest: Bytes)
    requires IsHexSigner(sign) && PlainLine(line)
    ensures TakeChunk(sign, verify, HeaderFor(sign, verify, prev, []) + CRLF + (line + CRLF + rest), prev)
            == Ok(Chunk([], rest, Link(sign, verify, prev, [])))
  {
    var h := HeaderFor(sign, verify, prev, []);
    HeaderReads(sign, verify, prev, []);
    var after := line + CRLF + rest;
    ReadPlainLine(h, after);
    ReadPlainLine(line, rest);
    assert after[..0] == [] && after[0..] == after;
    hide HeaderFor, ReadLine, CutAt, TrimSpace, ParseInt, SignatureIn;
  }

  /** But so does the input simply stopping where a chunk would begin. */
  lemma NothingEnds(sign: Signer, verify: bool, prev: Bytes)
    ensures EndOf(sign, verify, prev, []) == Some(AtEof)
  {
  }

  /** And so does its stopping right after a chunk's data: that chunk is then never served. */
  lemma LostChunkEnds(sign: Signer, verify: bool, prev: Bytes, data: Bytes)
    requires IsHexSigner(sign) && 0 < |data| <= MAX_CHUNK
    ensures EndOf(sign, verify, prev, HeaderFor(sign, verify, prev, data) + CRLF + data) == Some(AtEof)
  {
    var h := HeaderFor(sign, verify, prev, data);
    HeaderReads(sign, verify, prev, data);
    ReadPlainLine(h, data);
    assert data[..|data|] == data && data[|data|..] == [];
    hide HeaderFor, ReadLine, CutAt, TrimSpace, ParseInt, SignatureIn;
  }

  /** A chunk may be of up to 32 MiB, and claiming more is refused before anything is read of it. */
  lemma OversizeIsRefused(sign: Signer, verify: bool, prev: Bytes, n: nat, rest: Bytes)
    requires 32 * 1024 * 1024 < n < INT64_LIMIT
    ensures EndOf(sign, verify, prev, Format(n, Hex) + CRLF + rest) == Some(Failed(TooLarge))
  {
    var size := Format(n, Hex);
    ParseFormat(n, Hex);
    ParseFormatDigits(n, Hex);
    DigitsArePlain(size);
    CutPlain(size, []);
    ReadPlainLine(size, rest);
    hide Format, ReadLine, CutAt, TrimSpace, ParseInt, SignatureIn, PlainLine, SkipTrailers;
  }

  /** A negative size is no size. */
  lemma NegativeIsRefused(sign: Signer, verify: bool, prev: Bytes, n: nat, rest: Bytes)
    requires 0 < n < INT64_LIMIT
    ensures EndOf(sign, verify, prev, ['-'] + Format(n, Hex) + CRLF + rest) == Some(Failed(BadSize))
  {
    hide Format, ReadLine, CutAt, TrimSpace, ParseDigits, SignatureIn, PlainLine, SkipTrailers, Digit;
    var digits := Format(n, Hex);
    var size: Bytes := ['-'] + digits;
    ParseFormat(n, Hex);
    ParseFormatDigits(n, Hex);
    MinusReads(digits);
    CutPlain(size, []);
    ReadPlainLine(size, rest);
  }

  lemma MinusReads(digits: Bytes)
    requires digits != [] && forall i :: 0 <= i < |digits| ==> Digit(digits[i]).Some?
    ensures var size: Bytes := ['-'] + digits;
            ';' !in size && PlainLine(size) && size[1..] == digits && TrimSpace(size) == size
  {
    DigitsArePlain(digits);
  }

  /** One bare line end before a chunk's header is passed over. */
  lemma BareLineIsSkipped(sign: Signer, verify: bool, prev: Bytes, line: Bytes, rest: Bytes)
    requires PlainLine(line) && line != []
    ensures TakeChunk(sign, verify, CRLF + (line + CRLF + rest), prev) == TakeChunk(sign, verify, line + CRLF + rest, prev)
  {
    hide Header, ReadLine, CutAt, TrimSpace, ParseInt, SignatureIn, PlainLine;
    HeaderAfterBareLine(line, rest);
  }

  lemma HeaderAfterBareLine(line: Bytes, rest: Bytes)
    requires PlainLine(line) && line != []
    ensures Header(CRLF + (line + CRLF + rest)) == Header(line + CRLF + rest)
  {
    hide ReadLine;
    var input := line + CRLF + rest;
    assert [] + CRLF + input == CRLF + input;
    ReadPlainLine([], input);
    ReadPlainLine(line, rest);
  }

  /** More than sixteen trailing headers are too many. */
  lemma ManyTrailersFail(sign: Signer, verify: bool, prev: Bytes, ts: seq<Bytes>)
    requires IsHexSigner(sign) && |ts| > 16 && forall k :: 0 <= k < |ts| ==> ts[k] != [] && PlainLine(ts[k])
    ensures EndOf(sign, verify, prev, Closing(sign, verify, prev, ts)) == Some(Failed(TooManyTrailers))
  {
    hide HeaderFor, Link, TakeChunk;
    var h, rest := HeaderFor(sign, verify, prev, []), Lines(ts[1..]) + CRLF;
    assert Closing(sign, verify, prev, ts) == h + CRLF + (ts[0] + CRLF + rest);
    TakeZero(sign, verify, prev, ts[0], rest);
    SkipGivesUp(ts[1..], CRLF, 0);
  }

  lemma {:induction false} SkipGivesUp(ts: seq<Bytes>, rest: Bytes, i: nat)
    requires i <= MAX_TRAILERS <= i + |ts| && forall k :: 0 <= k < |ts| ==> ts[k] != [] && PlainLine(ts[k])
    ensures SkipTrailers(Lines(ts) + rest, i) == None
    decreases |ts|
  {
    hide ReadLine, PlainLine, Lines;
    if i < MAX_TRAILERS {
      FirstOfLines(ts, rest);
      ReadPlainLine(ts[0], Lines(ts[1..]) + rest);
      SkipGivesUp(ts[1..], rest, i + 1);
    }
  }

  lemma FirstOfLines(ts: seq<Bytes>, rest: Bytes)
    requires ts != []
    ensures Lines(ts) + rest == ts[0] + CRLF + (Lines(ts[1..]) + rest)
  {
  }

  // ------------------------------------------------------------- reading

  /**
   The reader still owes `owed`, and then ends as `end` says. It has some of that buffered, then
   framed chunks, then a tail on which it ends; or the very last newline of the frames is missing.
   */
  ghost predicate Owes(sign: Signer, verify: bool, r: Reader, chunks: seq<Bytes>, tail: Bytes,
                       owed: Bytes, end: Outcome) {
    && r.off <= |r.buf| && Fit(chunks) && !end.Served?
    && owed == r.buf[r.off..] + Payload(chunks)
    && if r.err.Some? then end == Ending(r.err.value) && chunks == []
       else if r.done then end == AtEof && chunks == []
       else
         || (&& r.input == Frames(sign, verify, r.prev, chunks) + tail
             && EndOf(sign, verify, ChainAfter(sign, verify, r.prev, chunks), tail) == Some(end))
         || (&& chunks != [] && r.input + ['\n'] == Frames(sign, verify, r.prev, chunks)
             && tail == [] && end == AtEof)
  }

  lemma NextFrame(sign: Signer, verify: bool, r: Reader, chunks: seq<Bytes>, tail: Bytes)
    requires IsHexSigner(sign) && Fit(chunks) && chunks != [] && r.err.None? && !r.done
    requires r.input == Frames(sign, verify, r.prev, chunks) + tail
    ensures AfterChunk(sign, verify, r)
            == r.(input := Frames(sign, verify, Link(sign, verify, r.prev, chunks[0]), chunks[1..]) + tail,
                  prev := Link(sign, verify, r.prev, chunks[0]), buf := chunks[0], off := 0)
  {
    var h, link := HeaderFor(sign, verify, r.prev, chunks[0]), Link(sign, verify, r.prev, chunks[0]);
    var more := Frames(sign, verify, link, chunks[1..]) + tail;
    assert r.input == h + CRLF + chunks[0] + CRLF + more;
    TakeFramed(sign, verify, r.prev, chunks[0], more);
    hide TakeChunk, HeaderFor, Frames;
  }

  /** A frame without its newline at the end of input is taken like a whole one. */
  lemma TakeBare(sign: Signer, verify: bool, prev: Bytes, data: Bytes)
    requires IsHexSigner(sign) && |data| <= MAX_CHUNK
    ensures TakeChunk(sign, verify, HeaderFor(sign, verify, prev, data) + CRLF + data + ['\r'], prev)
            == Ok(Chunk(data, [], Link(sign, verify, prev, data)))
  {
    var h := HeaderFor(sign, verify, prev, data);
    HeaderReads(sign, verify, prev, data);
    var after := data + ['\r'];
    assert h + CRLF + data + ['\r'] == h + CRLF + after;
    ReadPlainLine(h, after);
    assert after[..|data|] == data && after[|data|..] == ['\r'];
    ReadBareLine([]);
    hide HeaderFor, ReadLine, CutAt, TrimSpace, ParseInt, SignatureIn;
  }

  lemma {:induction false} FramesEndInNewline(sign: Signer, verify: bool, prev: Bytes, chunks: seq<Bytes>)
    requires chunks != []
    ensures var f := Frames(sign, verify, prev, chunks); f != [] && f[|f| - 1] == '\n'
    decreases |chunks|
  {
    hide HeaderFor;
    if |chunks| > 1 { FramesEndInNewline(sign, verify, Link(sign, verify, prev, chunks[0]), chunks[1..]); }
  }

  lemma NextBareFrame(sign: Signer, verify: bool, r: Reader, chunks: seq<Bytes>)
    requires IsHexSigner(sign) && Fit(chunks) && chunks != [] && r.err.None? && !r.done
    requires r.input + ['\n'] == Frames(sign, verify, r.prev, chunks)
    ensures var link := Link(sign, verify, r.prev, chunks[0]);
            var r' := AfterChunk(sign, verify, r);
            && r' == r.(input := r'.input, prev := link, buf := chunks[0], off := 0)
            && if |chunks| == 1 then r'.input == []
               else r'.input + ['\n'] == Frames(sign, verify, link, chunks[1..])
  {
    hide TakeChunk, HeaderFor, Frames;
    var h, link := HeaderFor(sign, verify, r.prev, chunks[0]), Link(sign, verify, r.prev, chunks[0]);
    var more := Frames(sign, verify, link, chunks[1..]);
    FramesFirst(sign, verify, r.prev, chunks);
    if |chunks| == 1 {
      FramesOfNothing(sign, verify, link, []);
      assert h + CRLF + chunks[0] + CRLF == h + CRLF + chunks[0] + ['\r'] + ['\n'];
      DropNewline(r.input, h + CRLF + chunks[0] + ['\r'], []);
      TakeBare(sign, verify, r.prev, chunks[0]);
    } else {
      FramesEndInNewline(sign, verify, link, chunks[1..]);
      DropNewline(r.input, h + CRLF + chunks[0] + CRLF, more);
      TakeFramed(sign, verify, r.prev, chunks[0], more[..|more| - 1]);
    }
  }

  lemma FramesFirst(sign: Signer, verify: bool, prev: Bytes, chunks: seq<Bytes>)
    requires chunks != []
    ensures Frames(sign, verify, prev, chunks)
            == HeaderFor(sign, verify, prev, chunks[0]) + CRLF + chunks[0] + CRLF
               + Frames(sign, verify, Link(sign, verify, prev, chunks[0]), chunks[1..])
  {
    hide HeaderFor, Link;
  }

  /** Taking one newline off the end of text that ends in one. */
  lemma DropNewline(s: Bytes, a: Bytes, b: Bytes)
    ensures b != [] && b[|b| - 1] == '\n' && s + ['\n'] == a + b ==>
              s == a + b[..|b| - 1] && b[..|b| - 1] + ['\n'] == b
    ensures b == [] && s + ['\n'] == a + ['\n'] + b ==> s == a
  {
    if b != [] && b[|b| - 1] == '\n' && s + ['\n'] == a + b {
      assert b == b[..|b| - 1] + ['\n'];
      assert s + ['\n'] == (a + b[..|b| - 1]) + ['\n'];
      assert s == (s + ['\n'])[..|s|] == (a + b[..|b| - 1] + ['\n'])[..|s|] == a + b[..|b| - 1];
    }
    if b == [] && s + ['\n'] == a + ['\n'] + b {
      assert s == (s + ['\n'])[..|s|] == (a + ['\n'])[..|s|] == a;
    }
  }

  lemma LastFrame(sign: Signer, verify: bool, r: Reader, tail: Bytes, end: Outcome)
    requires r.err.None? && !r.done && r.input == tail && EndOf(sign, verify, r.prev, tail) == Some(end)
    ensures var r' := AfterChunk(sign, verify, r);
            && r'.buf == r.buf && r'.off == r.off
            && if r'.err.Some? then end == Ending(r'.err.value) else r'.done && end == AtEof
  {
    hide TakeChunk, SkipTrailers;
  }

  /** One read of at least one byte: the next bytes owed, or the end exactly when nothing is. */
  lemma ReadServesNext(sign: Signer, verify: bool, r: Reader, chunks: seq<Bytes>, tail: Bytes,
                       owed: Bytes, end: Outcome, n: nat)
    returns (left: seq<Bytes>)
    requires IsHexSigner(sign) && n >= 1 && Owes(sign, verify, r, chunks, tail, owed, end)
    ensures !end.Served?
    ensures var (r', out) := Read(sign, verify, r, n);
            if owed == [] then out == end && left == [] && Owes(sign, verify, r', [], tail, [], end)
            else out.Served? && 0 < |out.data| <= n && |out.data| <= |owed| && out.data == owed[..|out.data|]
                 && Owes(sign, verify, r', left, tail, owed[|out.data|..], end)
  {
    hide TakeChunk, Frames, EndOf, HeaderFor, AfterChunk, Read;
    left := chunks;
    if r.off < |r.buf| {
      ServeBuffered(sign, verify, r, chunks, tail, owed, end, n);
    } else if r.err.None? && !r.done {
      assert r.buf[r.off..] == [] && owed == Payload(chunks);
      ReadOnce(sign, verify, r, n);
      if chunks == [] {
        FramesOfNothing(sign, verify, r.prev, tail);
        LastFrame(sign, verify, r, tail, end);
      } else {
        left := chunks[1..];
        var r1 := BufferNext(sign, verify, r, chunks, tail, owed, end);
        ServeBuffered(sign, verify, r1, left, tail, owed, end, n);
      }
    } else {
      ReadOnce(sign, verify, r, n);
    }
  }

  /** The next chunk moves from the input to the buffer, and as much is owed as before. */
  lemma BufferNext(sign: Signer, verify: bool, r: Reader, chunks: seq<Bytes>, tail: Bytes, owed: Bytes, end: Outcome)
    returns (r': Reader)
    requires IsHexSigner(sign) && Owes(sign, verify, r, chunks, tail, owed, end)
    requires r.off == |r.buf| && r.err.None? && !r.done && chunks != []
    ensures r' == AfterChunk(sign, verify, r) && r'.err.None? && !r'.done && r'.off == 0 < |r'.buf|
    ensures Owes(sign, verify, r', chunks[1..], tail, owed, end)
  {
    hide TakeChunk, Frames, HeaderFor, AfterChunk, Link;
    r' := AfterChunk(sign, verify, r);
    if r.input == Frames(sign, verify, r.prev, chunks) + tail
       && EndOf(sign, verify, ChainAfter(sign, verify, r.prev, chunks), tail) == Some(end) {
      hide EndOf;
      NextFrame(sign, verify, r, chunks, tail);
    } else {
      NextBareFrame(sign, verify, r, chunks);
      if |chunks| == 1 {
        NothingEnds(sign, verify, r'.prev);
        FramesOfNothing(sign, verify, r'.prev, tail);
      }
      hide EndOf;
    }
    assert r'.buf[r'.off..] == chunks[0];
    assert r.buf[r.off..] == [];
  }

  /** Read, one turn of its loop at a time. */
  lemma ReadOnce(sign: Signer, verify: bool, r: Reader, n: nat)
    requires r.off >= |r.buf|
    ensures Read(sign, verify, r, n) ==
            if r.err.Some? then (r, Ending(r.err.value))
            else if r.done then (r, AtEof)
            else var r' := AfterChunk(sign, verify, r);
                 if r'.err.Some? then (r', Ending(r'.err.value))
                 else if r'.done then (r', AtEof) else Read(sign, verify, r', n)
  {
    hide AfterChunk;
  }

  lemma ReadBuffered(sign: Signer, verify: bool, r: Reader, n: nat)
    requires r.off < |r.buf|
    ensures var k := if n < |r.buf| - r.off then n else |r.buf| - r.off;
            Read(sign, verify, r, n) == (r.(off := r.off + k), Served(r.buf[r.off..r.off + k]))
  {
  }

  lemma ServeBuffered(sign: Signer, verify: bool, r: Reader, chunks: seq<Bytes>, tail: Bytes,
                      owed: Bytes, end: Outcome, n: nat)
    requires n >= 1 && r.off < |r.buf| && Owes(sign, verify, r, chunks, tail, owed, end)
    ensures var (r', out) := Read(sign, verify, r, n);
            owed != [] && out.Served? && 0 < |out.data| <= n && |out.data| <= |owed| && out.data == owed[..|out.data|]
            && Owes(sign, verify, r', chunks, tail, owed[|out.data|..], end)
  {
    hide AfterChunk, Frames, EndOf, Read, ChainAfter, Payload, Fit;
    ReadBuffered(sign, verify, r, n);
    var k := if n < |r.buf| - r.off then n else |r.buf| - r.off;
    ServedOf(r.buf, r.off, k, Payload(chunks));
  }

  lemma ServedOf(buf: Bytes, off: nat, k: nat, more: Bytes)
    requires off + k <= |buf|
    ensures (buf[off..] + more)[..k] == buf[off..off + k]
    ensures (buf[off..] + more)[k..] == buf[off + k..] + more
  {
    hide *;
    assert buf[off..][..k] == buf[off..off + k];
  }

  lemma FramesOfNothing(sign: Signer, verify: bool, prev: Bytes, tail: Bytes)
    ensures Frames(sign, verify, prev, []) + tail == tail
  {
  }

  /** Everything a sequence of reads returned, and how it ended if it did. */
  function Drain(sign: Signer, verify: bool, r: Reader, sizes: seq<nat>): (Bytes, Option<Outcome>)
    decreases |sizes|
  {
    if sizes == [] then ([], None)
    else
      var (r', out) := Read(sign, verify, r, sizes[0]);
      if !out.Served? then ([], Some(out))
      else
        var (more, end) := Drain(sign, verify, r', sizes[1..]);
        (out.data + more, end)
  }

  lemma {:induction false} DrainServesAll(sign: Signer, verify: bool, r: Reader, chunks: seq<Bytes>, tail: Bytes,
                                          owed: Bytes, end: Outcome, sizes: seq<nat>)
    requires IsHexSigner(sign) && Owes(sign, verify, r, chunks, tail, owed, end)
    requires forall i :: 0 <= i < |sizes| ==> sizes[i] >= 1
    ensures var (data, ended) := Drain(sign, verify, r, sizes);
            && data <= owed && (ended.Some? ==> data == owed && ended == Some(end))
            && (|sizes| > |owed| ==> ended.Some?)
    decreases |sizes|
  {
    hide Read, Owes;
    if sizes != [] {
      var left := ReadServesNext(sign, verify, r, chunks, tail, owed, end, sizes[0]);
      var (r', out) := Read(sign, verify, r, sizes[0]);
      if out.Served? {
        DrainServesAll(sign, verify, r', left, tail, owed[|out.data|..], end, sizes[1..]);
        assert out.data + owed[|out.data|..] == owed;
      }
    }
  }

  ghost predicate GoodTrailers(ts: seq<Bytes>) {
    |ts| <= MAX_TRAILERS && forall k :: 0 <= k < |ts| ==> ts[k] != [] && PlainLine(ts[k])
  }

  /** A whole stream: the framed chunks and the closing. */
  function Stream(sign: Signer, verify: bool, seed: Bytes, chunks: seq<Bytes>, trailers: seq<Bytes>): Bytes {
    Frames(sign, verify, seed, chunks) + Closing(sign, verify, ChainAfter(sign, verify, seed, chunks), trailers)
  }

  function Start(input: Bytes, seed: Bytes): Reader {
    Reader(input, seed, [], 0, false, None)
  }

  /**
   The aws-chunked round trip. For any non-empty chunks within the size limit, framed with or
   without signatures and closed with up to sixteen trailing headers, reads of any non-empty
   sizes return the payload, in order and in full, and then the end.
   */
  lemma RoundTrip(sign: Signer, verify: bool, seed: Bytes, chunks: seq<Bytes>, trailers: seq<Bytes>, sizes: seq<nat>)
    requires IsHexSigner(sign) && Fit(chunks) && GoodTrailers(trailers)
    requires forall i :: 0 <= i < |sizes| ==> sizes[i] >= 1
    ensures var (data, ended) := Drain(sign, verify, Start(Stream(sign, verify, seed, chunks, trailers), seed), sizes);
            && data <= Payload(chunks) && (ended.Some? ==> data == Payload(chunks) && ended == Some(AtEof))
            && (|sizes| > |Payload(chunks)| ==> ended.Some?)
  {
    hide Read, TakeChunk, Frames, HeaderFor, EndOf;
    var chain := ChainAfter(sign, verify, seed, chunks);
    var tail := Closing(sign, verify, chain, trailers);
    ClosingEnds(sign, verify, chain, trailers);
    StartOwes(sign, verify, seed, chunks, tail, AtEof);
    DrainServesAll(sign, verify, Start(Stream(sign, verify, seed, chunks, trailers), seed),
                   chunks, tail, Payload(chunks), AtEof, sizes);
  }

  lemma StartOwes(sign: Signer, verify: bool, seed: Bytes, chunks: seq<Bytes>, tail: Bytes, end: Outcome)
    requires Fit(chunks) && !end.Served?
    requires EndOf(sign, verify, ChainAfter(sign, verify, seed, chunks), tail) == Some(end)
    ensures Owes(sign, verify, Start(Frames(sign, verify, seed, chunks) + tail, seed), chunks, tail, Payload(chunks), end)
  {
    assert [] + Payload(chunks) == Payload(chunks);
  }

  // ------------------------------------------------------------ truncation

  /** How much of the closing must be there for its header to parse. */
  function ParsesAt(verify: bool): nat {
    if verify then 2 + |SIG_PREFIX| else 1
  }

  /** Part of a size reads as a number too, and is not zero unless the size is. */
  lemma SizePrefixReads(n: nat, m: nat)
    requires n <= MAX_CHUNK && 0 < m <= |Format(n, Hex)|
    ensures var part := Format(n, Hex)[..m];
            && part != [] && (forall i :: 0 <= i < |part| ==> Digit(part[i]).Some?)
            && var size := ParseInt(TrimSpace(part), Hex);
               size.Some? && 0 <= size.value <= n && (n > 0 ==> size.value > 0)
  {
    var part := Format(n, Hex)[..m];
    ParsePrefix(n, Hex, m);
    assert forall i :: 0 <= i < |part| ==> part[i] == Format(n, Hex)[i];
    DigitsArePlain(part);
    assert Digit(part[0]).Some?;
    hide Format, ParseDigits, TrimSpace;
  }

  /** Part of a signature's text is recognised once the words before the signature are complete. */
  lemma MetaPrefixReads(sig: Bytes, m: nat)
    requires m <= |SIG_PREFIX + sig| && forall i :: 0 <= i < |sig| ==> Digit(sig[i]).Some?
    ensures SignatureIn((SIG_PREFIX + sig)[..m]).Some? <==> m >= |SIG_PREFIX|
    ensures PlainLine((SIG_PREFIX + sig)[..m])
  {
    var meta := (SIG_PREFIX + sig)[..m];
    if m >= |SIG_PREFIX| {
      var part := sig[..m - |SIG_PREFIX|];
      assert meta == SIG_PREFIX + part;
      MetaReads(part);
      DigitsArePlain(part);
      assert '\n' !in SIG_PREFIX;
      assert meta[|meta| - 1] == if part == [] then '=' else part[|part| - 1];
    } else {
      assert meta == SIG_PREFIX[..m];
      assert forall i :: 0 <= i < |SIG_PREFIX| ==> !IsSpace(SIG_PREFIX[i]);
    }
  }

  /** A line from which a chunk's size is read, and perhaps the mark of a signature. */
  ghost predicate SaysSize(line: Bytes, n: nat, signed: bool) {
    && PlainLine(line) && line != []
    && (SignatureIn(CutAt(line).1).Some? <==> signed)
    && var size := ParseInt(TrimSpace(CutAt(line).0), Hex);
       size.Some? && 0 <= size.value <= n && (n > 0 ==> size.value > 0)
  }

  lemma SizeOnlyReads(n: nat, m: nat)
    requires n <= MAX_CHUNK && 0 < m <= |Format(n, Hex)|
    ensures SaysSize(Format(n, Hex)[..m], n, false)
  {
    hide Format, ParseInt, TrimSpace, CutAt, SignatureIn, PlainLine, Digit;
    var line := Format(n, Hex)[..m];
    SizePrefixReads(n, m);
    DigitsArePlain(line);
    CutPlain(line, []);
    NothingSigned();
  }

  lemma SizeAndMetaRead(n: nat, sig: Bytes, m: nat)
    requires n <= MAX_CHUNK && m <= |SIG_PREFIX + sig| && forall i :: 0 <= i < |sig| ==> Digit(sig[i]).Some?
    ensures SaysSize(Format(n, Hex) + [';'] + (SIG_PREFIX + sig)[..m], n, m >= |SIG_PREFIX|)
  {
    hide Format, ParseInt, TrimSpace, CutAt, SignatureIn, PlainLine, Digit;
    var size, meta := Format(n, Hex), (SIG_PREFIX + sig)[..m];
    assert size[..|size|] == size;
    SizePrefixReads(n, |size|);
    DigitsArePlain(size);
    CutPlain(size, meta);
    MetaPrefixReads(sig, m);
    JoinPlain(size, meta);
  }

  /** What a header cut short still says. */
  lemma HeaderPrefixReads(sign: Signer, verify: bool, prev: Bytes, data: Bytes, m: nat)
    requires IsHexSigner(sign) && |data| <= MAX_CHUNK && 0 < m <= |HeaderFor(sign, verify, prev, data)|
    ensures SaysSize(HeaderFor(sign, verify, prev, data)[..m], |data|,
                     verify && m >= |Format(|data|, Hex)| + 1 + |SIG_PREFIX|)
  {
    hide Format, SaysSize, Digit;
    var size, line := Format(|data|, Hex), HeaderFor(sign, verify, prev, data)[..m];
    if m <= |size| {
      assert line == size[..m];
      SizeOnlyReads(|data|, m);
    } else {
      var sig := sign(prev, data);
      assert line == size + [';'] + (SIG_PREFIX + sig)[..m - |size| - 1];
      assert forall i :: 0 <= i < |sig| ==> Digit(sig[i]).Some?;
      SizeAndMetaRead(|data|, sig, m - |size| - 1);
    }
  }

  lemma NothingSigned()
    ensures SignatureIn([]).None?
  {
  }

  lemma JoinPlain(a: Bytes, b: Bytes)
    requires PlainLine(a) && PlainLine(b)
    ensures PlainLine(a + [';'] + b)
  {
    var s := a + [';'] + b;
    assert s[|s| - 1] == if b == [] then ';' else b[|b| - 1];
  }

  /** The input ends with the header's line, whole or not: the data is missing, and the line after it. */
  lemma HeaderAlone(sign: Signer, verify: bool, prev: Bytes, data: Bytes, m: nat, tail: Bytes)
    requires IsHexSigner(sign) && |data| <= MAX_CHUNK && 0 < m <= |HeaderFor(sign, verify, prev, data)|
    requires ReadLine(tail) == Some((HeaderFor(sign, verify, prev, data)[..m], []))
    ensures EndOf(sign, verify, prev, tail)
            == Some(if verify && m < |Format(|data|, Hex)| + 1 + |SIG_PREFIX| then Failed(NoSignature)
                    else if data != [] then Failed(ShortChunk) else AtEof)
  {
    HeaderPrefixReads(sign, verify, prev, data, m);
    hide HeaderFor, ReadLine, CutAt, TrimSpace, ParseInt, SignatureIn, Format;
    var none: Bytes := [];
    assert none[..0] == [] && none[0..] == [];
  }

  /** A frame cut short of its last two bytes: how the reader ends on it. */
  lemma CutFrame(sign: Signer, verify: bool, prev: Bytes, data: Bytes, m: nat)
    requires IsHexSigner(sign) && 0 < |data| <= MAX_CHUNK && m + 2 <= |Frame(sign, verify, prev, data)|
    ensures EndOf(sign, verify, prev, Frame(sign, verify, prev, data)[..m])
            == Some(if m == 0 || m + 2 == |Frame(sign, verify, prev, data)| then AtEof
                    else if verify && m < |Format(|data|, Hex)| + 1 + |SIG_PREFIX| then Failed(NoSignature)
                    else Failed(ShortChunk))
  {
    hide EndOf, HeaderFor, ReadLine, Format;
    var h, tail := HeaderFor(sign, verify, prev, data), Frame(sign, verify, prev, data)[..m];
    HeaderHasLength(sign, verify, prev, data);
    if m == 0 {
      NothingEnds(sign, verify, prev);
    } else if m <= |h| {
      assert tail == h[..m];
      HeaderPrefixReads(sign, verify, prev, data, m);
      ReadBareLine(h[..m]);
      HeaderAlone(sign, verify, prev, data, m, tail);
    } else if m == |h| + 1 {
      assert tail == h + ['\r'] && h[..|h|] == h;
      HeaderPrefixReads(sign, verify, prev, data, |h|);
      ReadBareLine(h);
      HeaderAlone(sign, verify, prev, data, |h|, tail);
    } else {
      var part := data[..m - |h| - 2];
      assert tail == h + CRLF + part;
      if |part| == |data| {
        LostChunkEnds(sign, verify, prev, data);
      } else {
        DataCutShort(sign, verify, prev, data, part);
      }
    }
  }

  lemma HeaderHasLength(sign: Signer, verify: bool, prev: Bytes, data: Bytes)
    ensures |HeaderFor(sign, verify, prev, data)| >= |Format(|data|, Hex)| + (if verify then 1 + |SIG_PREFIX| else 0)
    ensures |Format(|data|, Hex)| >= 1
  {
  }

  lemma DataCutShort(sign: Signer, verify: bool, prev: Bytes, data: Bytes, part: Bytes)
    requires IsHexSigner(sign) && |part| < |data| <= MAX_CHUNK
    ensures EndOf(sign, verify, prev, HeaderFor(sign, verify, prev, data) + CRLF + part) == Some(Failed(ShortChunk))
  {
    HeaderReads(sign, verify, prev, data);
    ReadPlainLine(HeaderFor(sign, verify, prev, data), part);
    hide HeaderFor, ReadLine, CutAt, TrimSpace, ParseInt, SignatureIn;
  }

  /** A line cut off before its newline is the last of the input. */
  lemma LineCutOff(line: Bytes, more: Bytes, x: Bytes)
    requires PlainLine(line) && 0 < |x| <= |line| + 1 && x <= line + CRLF + more
    ensures ReadLine(x) == Some((TrimEnd(x), []))
  {
    forall i | 0 <= i < |x| ensures x[i] != '\n' {
      assert x[i] == (line + CRLF + more)[i] == if i < |line| then line[i] else '\r';
    }
    assert NewlineAt(x) == |x|;
  }

  lemma LineIsThere(line: Bytes, more: Bytes, x: Bytes)
    requires PlainLine(line) && |x| >= |line| + 2 && x <= line + CRLF + more
    ensures ReadLine(x) == Some((line, x[|line| + 2..])) && x[|line| + 2..] <= more
  {
    hide PlainLine, ReadLine;
    var n, whole := |line| + 2, line + CRLF + more;
    assert whole[..n] == line + CRLF && whole[n..] == more;
    assert x == whole[..|x|];
    assert x[..n] == whole[..n] && x[n..] == whole[n..][..|x| - n];
    assert x == line + CRLF + x[n..];
    ReadPlainLine(line, x[n..]);
  }

  /** The first line of trailers cut short, and what follows it: whole, or the end of the input. */
  lemma CutLine(ts: seq<Bytes>, x: Bytes)
    requires forall k :: 0 <= k < |ts| ==> ts[k] != [] && PlainLine(ts[k])
    requires x != [] && x <= Lines(ts) + CRLF
    ensures ReadLine(x).Some?
    ensures var (line, rest) := ReadLine(x).value;
            if ts == [] then line == [] && rest == [] else rest == [] || rest <= Lines(ts[1..]) + CRLF
  {
    hide *;
    if ts == [] {
      NoTrailersCut(x);
    } else {
      LinesFirst(ts);
      FirstLineCut(ts[0], Lines(ts[1..]) + CRLF, x);
    }
  }

  lemma LinesFirst(ts: seq<Bytes>)
    requires ts != []
    ensures Lines(ts) + CRLF == ts[0] + CRLF + (Lines(ts[1..]) + CRLF)
  {
  }

  lemma FirstLineCut(line: Bytes, more: Bytes, x: Bytes)
    requires PlainLine(line) && x != [] && x <= line + CRLF + more
    ensures ReadLine(x).Some? && (ReadLine(x).value.1 == [] || ReadLine(x).value.1 <= more)
  {
    hide *;
    if |x| >= |line| + 2 {
      LineIsThere(line, more, x);
    } else {
      LineCutOff(line, more, x);
    }
  }

  lemma NoTrailersCut(x: Bytes)
    requires x != [] && x <= Lines([]) + CRLF
    ensures ReadLine(x) == Some(([], []))
  {
    var none: Bytes := [];
    assert x == none + ['\r'] || x == none + CRLF + none;
    ReadBareLine(none);
    ReadPlainLine(none, none);
  }

  /** Trailers cut short never exceed the limit the whole ones meet. */
  lemma {:induction false} SkipsCutTrailers(ts: seq<Bytes>, i: nat, x: Bytes)
    requires i + |ts| < MAX_TRAILERS && (forall k :: 0 <= k < |ts| ==> ts[k] != [] && PlainLine(ts[k]))
    requires x <= Lines(ts) + CRLF
    ensures SkipTrailers(x, i).Some?
    decreases |ts|
  {
    hide ReadLine, Lines;
    if x != [] {
      CutLine(ts, x);
      if ts != [] {
        var rest := ReadLine(x).value.1;
        if rest == [] {
          SkipsNothing(i + 1);
        } else {
          SkipsCutTrailers(ts[1..], i + 1, rest);
        }
      }
    }
  }

  lemma SkipsNothing(i: nat)
    requires i < MAX_TRAILERS
    ensures SkipTrailers([], i) == Some([])
  {
  }

  /** The closing cut anywhere: an ordinary end, from the point where its header parses. */
  lemma CutClosing(sign: Signer, verify: bool, prev: Bytes, ts: seq<Bytes>, m: nat)
    requires IsHexSigner(sign) && GoodTrailers(ts) && m <= |Closing(sign, verify, prev, ts)|
    ensures EndOf(sign, verify, prev, Closing(sign, verify, prev, ts)[..m])
            == Some(if m == 0 || m >= ParsesAt(verify) then AtEof else Failed(NoSignature))
  {
    hide EndOf, HeaderFor, ReadLine, Format, Lines;
    var none: Bytes := [];
    var h, tail := HeaderFor(sign, verify, prev, none), Closing(sign, verify, prev, ts)[..m];
    HeaderHasLength(sign, verify, prev, none);
    ZeroHasOneDigit();
    if m == 0 {
      NothingEnds(sign, verify, prev);
    } else if m <= |h| {
      assert tail == h[..m];
      HeaderPrefixReads(sign, verify, prev, none, m);
      ReadBareLine(h[..m]);
      HeaderAlone(sign, verify, prev, none, m, tail);
    } else if m == |h| + 1 {
      assert tail == h + ['\r'] && h[..|h|] == h;
      HeaderPrefixReads(sign, verify, prev, none, |h|);
      ReadBareLine(h);
      HeaderAlone(sign, verify, prev, none, |h|, tail);
    } else {
      var x := (Lines(ts) + CRLF)[..m - |h| - 2];
      assert Closing(sign, verify, prev, ts) == h + CRLF + (Lines(ts) + CRLF);
      assert tail == h + CRLF + x;
      CutTrailersEnd(sign, verify, prev, ts, x);
    }
  }

  lemma ZeroHasOneDigit()
    ensures |Format(0, Hex)| == 1
  {
  }

  lemma CutTrailersEnd(sign: Signer, verify: bool, prev: Bytes, ts: seq<Bytes>, x: Bytes)
    requires IsHexSigner(sign) && GoodTrailers(ts) && x <= Lines(ts) + CRLF
    ensures EndOf(sign, verify, prev, HeaderFor(sign, verify, prev, []) + CRLF + x) == Some(AtEof)
  {
    hide HeaderFor, ReadLine, CutAt, TrimSpace, ParseInt, SignatureIn, SkipTrailers, Lines, PlainLine;
    HeaderReads(sign, verify, prev, []);
    ReadPlainLine(HeaderFor(sign, verify, prev, []), x);
    if x != [] { CutTrailersSkipped(ts, x); }
    assert x[..0] == [] && x[0..] == x;
  }

  lemma CutTrailersSkipped(ts: seq<Bytes>, x: Bytes)
    requires GoodTrailers(ts) && x != [] && x <= Lines(ts) + CRLF
    ensures ReadLine(x).Some? && SkipTrailers(ReadLine(x).value.1, 0).Some?
  {
    hide ReadLine, SkipTrailers, Lines, PlainLine;
    CutLine(ts, x);
    var rest := ReadLine(x).value.1;
    if rest == [] {
      SkipsNothing(0);
    } else {
      SkipsCutTrailers(ts[1..], 0, rest);
    }
  }

  /** Where the i-th frame begins; the closing begins where a frame after the last would. */
  function FrameStart(sign: Signer, verify: bool, seed: Bytes, chunks: seq<Bytes>, i: nat): nat
    requires i <= |chunks|
  {
    |Frames(sign, verify, seed, chunks[..i])|
  }

  /**
   The cuts that nobody notices: where a chunk begins, right after a chunk's data, one byte
   after that, and anywhere in the closing once its header parses.
   */
  ghost predicate SilentAt(sign: Signer, verify: bool, seed: Bytes, chunks: seq<Bytes>, n: nat, i: nat)
    requires i <= |chunks|
  {
    var at := FrameStart(sign, verify, seed, chunks, i);
    || n == at
    || (i > 0 && (n + 2 == at || n + 1 == at))
    || (i == |chunks| && n >= at + ParsesAt(verify))
  }

  ghost predicate Silent(sign: Signer, verify: bool, seed: Bytes, chunks: seq<Bytes>, n: nat) {
    exists i :: 0 <= i <= |chunks| && SilentAt(sign, verify, seed, chunks, n, i)
  }

  /** How many chunks a stream cut after n bytes serves: those whose frame is there but for its last byte. */
  function Arrived(sign: Signer, verify: bool, seed: Bytes, chunks: seq<Bytes>, n: nat): (k: nat)
    ensures k <= |chunks|
    ensures k > 0 ==> FrameStart(sign, verify, seed, chunks, k) <= n + 1
    ensures k < |chunks| ==> n + 1 < FrameStart(sign, verify, seed, chunks, k + 1)
    decreases |chunks|
  {
    ArrivedUpTo(sign, verify, seed, chunks, n, |chunks|)
  }

  function ArrivedUpTo(sign: Signer, verify: bool, seed: Bytes, chunks: seq<Bytes>, n: nat, i: nat): (k: nat)
    requires i <= |chunks|
    ensures k <= i
    ensures k > 0 ==> FrameStart(sign, verify, seed, chunks, k) <= n + 1
    ensures k < i ==> n + 1 < FrameStart(sign, verify, seed, chunks, k + 1)
  {
    if i == 0 || FrameStart(sign, verify, seed, chunks, i) <= n + 1 then i
    else ArrivedUpTo(sign, verify, seed, chunks, n, i - 1)
  }

  lemma {:induction false} FramesAppend(sign: Signer, verify: bool, prev: Bytes, a: seq<Bytes>, b: seq<Bytes>)
    ensures Frames(sign, verify, prev, a + b)
            == Frames(sign, verify, prev, a) + Frames(sign, verify, ChainAfter(sign, verify, prev, a), b)
    ensures ChainAfter(sign, verify, prev, a + b) == ChainAfter(sign, verify, ChainAfter(sign, verify, prev, a), b)
    decreases |a|
  {
    hide Frame, Link;
    if a == [] {
      assert a + b == b;
    } else {
      var link := Link(sign, verify, prev, a[0]);
      FramesAppend(sign, verify, link, a[1..], b);
      assert (a + b)[0] == a[0] && (a + b)[1..] == a[1..] + b;
    }
  }

  /** The frame after the first i. */
  lemma FrameIsNext(sign: Signer, verify: bool, seed: Bytes, chunks: seq<Bytes>, i: nat)
    requires i < |chunks|
    ensures var chain := ChainAfter(sign, verify, seed, chunks[..i]);
            && Frames(sign, verify, seed, chunks[..i + 1])
               == Frames(sign, verify, seed, chunks[..i]) + Frame(sign, verify, chain, chunks[i])
            && |Frame(sign, verify, chain, chunks[i])| > 4
  {
    hide Frame, Link;
    var one: seq<Bytes> := [chunks[i]];
    var chain := ChainAfter(sign, verify, seed, chunks[..i]);
    assert chunks[..i + 1] == chunks[..i] + one;
    FramesAppend(sign, verify, seed, chunks[..i], one);
    assert one[1..] == [];
    FramesOfNothing(sign, verify, Link(sign, verify, chain, chunks[i]), []);
    FrameIsLong(sign, verify, chain, chunks[i]);
    assert Frame(sign, verify, chain, chunks[i]) + [] == Frame(sign, verify, chain, chunks[i]);
  }

  lemma FrameIsLong(sign: Signer, verify: bool, prev: Bytes, data: Bytes)
    ensures |Frame(sign, verify, prev, data)| > 4 + |data|
  {
    HeaderHasLength(sign, verify, prev, data);
    hide HeaderFor;
  }

  lemma {:induction false} StartsGrow(sign: Signer, verify: bool, seed: Bytes, chunks: seq<Bytes>, i: nat, j: nat)
    requires i < j <= |chunks|
    ensures FrameStart(sign, verify, seed, chunks, i) + 4 < FrameStart(sign, verify, seed, chunks, j)
    decreases j
  {
    hide Frame, Frames;
    FrameIsNext(sign, verify, seed, chunks, j - 1);
    if i < j - 1 { StartsGrow(sign, verify, seed, chunks, i, j - 1); }
  }

  /** What the set of silent cuts comes to, for a cut after which k chunks are served. */
  lemma SilentMeans(sign: Signer, verify: bool, seed: Bytes, chunks: seq<Bytes>, n: nat)
    ensures var k := Arrived(sign, verify, seed, chunks, n);
            var at := FrameStart(sign, verify, seed, chunks, k);
            Silent(sign, verify, seed, chunks, n) <==>
              || n == at || n + 1 == at
              || (k < |chunks| && n + 2 == FrameStart(sign, verify, seed, chunks, k + 1))
              || (k == |chunks| && n >= at + ParsesAt(verify))
  {
    hide FrameStart, Arrived, ParsesAt;
    var k := Arrived(sign, verify, seed, chunks, n);
    var at := FrameStart(sign, verify, seed, chunks, k);
    FirstStart(sign, verify, seed, chunks);
    if n == at || n + 1 == at || (k == |chunks| && n >= at + ParsesAt(verify)) {
      assert SilentAt(sign, verify, seed, chunks, n, k);
    }
    if k < |chunks| && n + 2 == FrameStart(sign, verify, seed, chunks, k + 1) {
      assert SilentAt(sign, verify, seed, chunks, n, k + 1);
    }
    forall i | 0 <= i <= |chunks| && SilentAt(sign, verify, seed, chunks, n, i)
      ensures n == at || n + 1 == at
              || (k < |chunks| && n + 2 == FrameStart(sign, verify, seed, chunks, k + 1))
              || (k == |chunks| && n >= at + ParsesAt(verify))
    {
      if i < k { StartsGrow(sign, verify, seed, chunks, i, k); }
      if k < i { StartsGrow(sign, verify, seed, chunks, k, i); }
      if k + 1 < i { StartsGrow(sign, verify, seed, chunks, k + 1, i); }
    }
  }

  lemma FirstStart(sign: Signer, verify: bool, seed: Bytes, chunks: seq<Bytes>)
    ensures FrameStart(sign, verify, seed, chunks, 0) == 0
  {
  }

  /** A cut among the frames leaves some whole, and a part of the next one. */
  lemma CutInFrame(sign: Signer, verify: bool, seed: Bytes, chunks: seq<Bytes>, rest: Bytes, n: nat, k: nat)
    requires k < |chunks|
    requires FrameStart(sign, verify, seed, chunks, k) <= n <= FrameStart(sign, verify, seed, chunks, k + 1)
    ensures var head, frame := Frames(sign, verify, seed, chunks[..k]),
                               Frame(sign, verify, ChainAfter(sign, verify, seed, chunks[..k]), chunks[k]);
            && |head| + |frame| == FrameStart(sign, verify, seed, chunks, k + 1)
            && n <= |Frames(sign, verify, seed, chunks) + rest|
            && (Frames(sign, verify, seed, chunks) + rest)[..n] == head + frame[..n - |head|]
  {
    hide Frame, Frames, ChainAfter;
    FrameIsNext(sign, verify, seed, chunks, k);
    var head := Frames(sign, verify, seed, chunks[..k]);
    var frame := Frame(sign, verify, ChainAfter(sign, verify, seed, chunks[..k]), chunks[k]);
    assert chunks == chunks[..k + 1] + chunks[k + 1..];
    FramesAppend(sign, verify, seed, chunks[..k + 1], chunks[k + 1..]);
    var after := Frames(sign, verify, ChainAfter(sign, verify, seed, chunks[..k + 1]), chunks[k + 1..]);
    assert head + frame + after + rest == head + frame + (after + rest);
  }

  /**
   Which truncations are silent. Cut a whole stream, signed or not, after any n of its bytes and
   read on. What is served is exactly the chunks whose frame had arrived but for its last byte.
   Then the end comes, in the ordinary way if the cut is one of the silent ones, and as a
   failure if it is any other.
   */
  lemma TruncationIsSilent(sign: Signer, verify: bool, seed: Bytes, chunks: seq<Bytes>, trailers: seq<Bytes>,
                           n: nat, sizes: seq<nat>)
    requires IsHexSigner(sign) && Fit(chunks) && GoodTrailers(trailers)
    requires n <= |Stream(sign, verify, seed, chunks, trailers)|
    requires |sizes| > |Payload(chunks)| && forall i :: 0 <= i < |sizes| ==> sizes[i] >= 1
    ensures var cut := Stream(sign, verify, seed, chunks, trailers)[..n];
            var (got, ended) := Drain(sign, verify, Start(cut, seed), sizes);
            && got == Payload(chunks[..Arrived(sign, verify, seed, chunks, n)])
            && (ended == Some(AtEof) <==> Silent(sign, verify, seed, chunks, n))
            && (ended == Some(AtEof) || ended == Some(Failed(ShortChunk)) || ended == Some(Failed(NoSignature)))
  {
    hide Drain, Stream, Silent, Arrived, Owes, Frames;
    var k := Arrived(sign, verify, seed, chunks, n);
    var cut := Stream(sign, verify, seed, chunks, trailers)[..n];
    var tail, end := CutOwes(sign, verify, seed, chunks, trailers, n);
    PayloadGrows(chunks, k);
    DrainServesAll(sign, verify, Start(cut, seed), chunks[..k], tail, Payload(chunks[..k]), end, sizes);
  }

  lemma {:induction false} PayloadGrows(chunks: seq<Bytes>, k: nat)
    requires k <= |chunks|
    ensures |Payload(chunks[..k])| <= |Payload(chunks)|
  {
    if k > 0 {
      PayloadGrows(chunks[1..], k - 1);
      assert chunks[..k][1..] == chunks[1..][..k - 1];
    }
  }

  /** What a reader of a cut stream owes, and how it will end. */
  lemma CutOwes(sign: Signer, verify: bool, seed: Bytes, chunks: seq<Bytes>, trailers: seq<Bytes>, n: nat)
    returns (tail: Bytes, end: Outcome)
    requires IsHexSigner(sign) && Fit(chunks) && GoodTrailers(trailers)
    requires n <= |Stream(sign, verify, seed, chunks, trailers)|
    ensures var k := Arrived(sign, verify, seed, chunks, n);
            Owes(sign, verify, Start(Stream(sign, verify, seed, chunks, trailers)[..n], seed),
                 chunks[..k], tail, Payload(chunks[..k]), end)
    ensures end == AtEof <==> Silent(sign, verify, seed, chunks, n)
    ensures end == AtEof || end == Failed(ShortChunk) || end == Failed(NoSignature)
  {
    hide Silent, Arrived, Owes, Frames, Frame, EndOf, Closing, Format;
    var k := Arrived(sign, verify, seed, chunks, n);
    var chain := ChainAfter(sign, verify, seed, chunks[..k]);
    var head := Frames(sign, verify, seed, chunks[..k]);
    var closing := Closing(sign, verify, ChainAfter(sign, verify, seed, chunks), trailers);
    SilentMeans(sign, verify, seed, chunks, n);
    FirstStart(sign, verify, seed, chunks);
    if n + 1 == |head| {
      tail, end := [], AtEof;
      NewlineMissing(sign, verify, seed, chunks, closing, n, k);
    } else if k == |chunks| {
      assert chunks[..k] == chunks;
      tail := closing[..n - |head|];
      assert (head + closing)[..n] == head + tail;
      CutClosing(sign, verify, chain, trailers, n - |head|);
      end := EndOf(sign, verify, chain, tail).value;
      StartOwes(sign, verify, seed, chunks, tail, end);
    } else {
      CutInFrame(sign, verify, seed, chunks, closing, n, k);
      tail := Frame(sign, verify, chain, chunks[k])[..n - |head|];
      CutFrame(sign, verify, chain, chunks[k], n - |head|);
      end := EndOf(sign, verify, chain, tail).value;
      StartOwes(sign, verify, seed, chunks[..k], tail, end);
    }
  }

  lemma NewlineMissing(sign: Signer, verify: bool, seed: Bytes, chunks: seq<Bytes>, rest: Bytes, n: nat, k: nat)
    requires Fit(chunks) && k <= |chunks| && n + 1 == FrameStart(sign, verify, seed, chunks, k)
    ensures n <= |Frames(sign, verify, seed, chunks) + rest|
    ensures Owes(sign, verify, Start((Frames(sign, verify, seed, chunks) + rest)[..n], seed),
                 chunks[..k], [], Payload(chunks[..k]), AtEof)
  {
    hide Frames, EndOf;
    FirstStart(sign, verify, seed, chunks);
    var head := Frames(sign, verify, seed, chunks[..k]);
    assert chunks == chunks[..k] + chunks[k..];
    FramesAppend(sign, verify, seed, chunks[..k], chunks[k..]);
    var whole := Frames(sign, verify, seed, chunks) + rest;
    assert whole[..n] == head[..n];
    FramesEndInNewline(sign, verify, seed, chunks[..k]);
    assert head[..n] + ['\n'] == head;
    assert [] + Payload(chunks[..k]) == Payload(chunks[..k]);
  }

  // -------------------------------------------------------------- the code

  /** What still matters of a reader: once it has failed, its buffer and its error. */
  function Settled(r: Reader): Reader {
    if r.err.Some? then Reader([], [], r.buf, r.off, false, r.err) else r
  }

  class ChunkedReader {
    const sign: Signer
    const verify: bool
    var input: Bytes
    var prev: Bytes
    var buf: Bytes
    var off: nat
    var done: bool
    var err: Option<Fault>

    function State(): Reader
      reads this
    {
      Reader(input, prev, buf, off, done, err)
    }

    constructor (sign: Signer, verify: bool, body: Bytes, seed: Bytes)
      ensures this.sign == sign && this.verify == verify && State() == Reader(body, seed, [], 0, false, None)
    {
      this.sign, this.verify := sign, verify;
      input, prev, buf, off, done, err := body, seed, [], 0, false, None;
    }

    /** None at the end of input. */
    method NextLine() returns (line: Option<Bytes>)
      modifies this`input
      ensures var r := ReadLine(old(input));
              if r.None? then line == None && input == old(input) else line == Some(r.value.0) && input == r.value.1
    {
      var r := ReadLine(input);
      if r.None? {
        return None;
      }
      line := Some(r.value.0);
      input := r.value.1;
    }

    method Skip() returns (fault: Option<Fault>)
      modifies this`input
      ensures fault.None? <==> SkipTrailers(old(input), 0).Some?
      ensures fault.Some? ==> fault.value == TooManyTrailers
      ensures fault.None? ==> input == SkipTrailers(old(input), 0).value
    {
      ghost var start := input;
      for i := 0 to MAX_TRAILERS
        invariant SkipTrailers(start, 0) == SkipTrailers(input, i)
      {
        var line := NextLine();
        if line.None? || line.value == [] {
          return None;
        }
      }
      fault := Some(TooManyTrailers);
    }

    /** The method nextChunk: one chunk off the input into the buffer, its signature checked. */
    method NextChunk() returns (fault: Option<Fault>)
      requires err.None? && !done
      modifies this
      ensures fault == AfterChunk(sign, verify, old(State())).err
      ensures fault.None? ==> State() == AfterChunk(sign, verify, old(State()))
      ensures fault.Some? ==> (buf, off, err) == old((buf, off, err))
    {
      hide ReadLine, CutAt, TrimSpace, ParseInt, SignatureIn, SkipTrailers;
      var header := NextLine();
      if header.None? {
        return Some(Eof);
      }
      if header.value == [] {
        header := NextLine();
        if header.None? {
          return Some(Eof);
        }
      }
      var (sizeHex, meta) := CutAt(header.value);
      var size := ParseInt(TrimSpace(sizeHex), Hex);
      if size.None? || size.value < 0 {
        return Some(BadSize);
      }
      if size.value > MAX_CHUNK {
        return Some(TooLarge);
      }
      var chunkSig := SignatureIn(meta);
      if verify && chunkSig.None? {
        return Some(NoSignature);
      }
      if |input| < size.value {
        return Some(ShortChunk);
      }
      var data := input[..size.value];
      input := input[size.value..];
      var ending := NextLine();
      if ending.None? {
        return Some(Eof);
      }
      if verify {
        var expected := sign(prev, data);
        if expected != chunkSig.value {
          return Some(BadSignature);
        }
        prev := expected;
      }
      if size.value == 0 {
        done := true;
        fault := Skip();
        return;
      }
      buf, off := data, 0;
      fault := None;
    }

    /** Read: serves decoded payload bytes, at most n of them. */
    method ReadInto(n: nat) returns (out: Outcome)
      modifies this
      ensures out == Read(sign, verify, old(State()), n).1
      ensures Settled(State()) == Settled(Read(sign, verify, old(State()), n).0)
    {
      hide AfterChunk, TakeChunk, Read;
      ghost var start := State();
      while off >= |buf|
        invariant Read(sign, verify, start, n) == Read(sign, verify, State(), n)
        decreases |input|, err.None?, !done
      {
        ReadOnce(sign, verify, State(), n);
        if err.Some? {
          return Ending(err.value);
        }
        if done {
          return AtEof;
        }
        var fault := NextChunk();
        if fault.None? && done { ReadOnce(sign, verify, State(), n); }
        if fault.Some? {
          err := fault;
          return Ending(fault.value);
        }
      }
      ReadBuffered(sign, verify, State(), n);
      var k := if n < |buf| - off then n else |buf| - off;
      out := Served(buf[off..off + k]);
      off := off + k;
    }
  }
}
