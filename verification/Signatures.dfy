/**
 The signature chain of an aws-chunked stream (internal/s3/chunked.go:16-23, 114-124): what a
 reader that verifies it lets through, first of streams framed with signatures of any kind, then
 of any input whatever.
 */
module Signatures {
  import opened Wrappers
  import opened ByteStrings
  import opened Numbers
  import opened Chunked

  ghost predicate IsHex(sig: Bytes) {
    forall i :: 0 <= i < |sig| ==> Digit(sig[i]).Some?
  }

  /** A chunk's header with a signature that somebody wrote there. */
  function SigHeader(data: Bytes, sig: Bytes): Bytes {
    Format(|data|, Hex) + ([';'] + SIG_PREFIX + sig)
  }

  /** Chunks on the wire, each with the signature given for it. */
  function SignedFrames(chunks: seq<Bytes>, sigs: seq<Bytes>): Bytes
    requires |sigs| == |chunks|
  {
    if chunks == [] then []
    else SigHeader(chunks[0], sigs[0]) + CRLF + chunks[0] + CRLF + SignedFrames(chunks[1..], sigs[1..])
  }

  function SignedClosing(sig: Bytes, trailers: seq<Bytes>): Bytes {
    SigHeader([], sig) + CRLF + Lines(trailers) + CRLF
  }

  /** The values of the chain: the seed, and from each value and the next chunk the next one. */
  ghost predicate IsChain(sign: Signer, seed: Bytes, chunks: seq<Bytes>, chain: seq<Bytes>) {
    && |chain| == |chunks| + 1 && chain[0] == seed
    && forall i :: 0 <= i < |chunks| ==> chain[i + 1] == sign(chain[i], chunks[i])
  }

  /** A chunk under a signature that is not the chain's is refused. */
  lemma WrongSignatureStops(sign: Signer, prev: Bytes, data: Bytes, sig: Bytes, line: Bytes, rest: Bytes)
    requires |data| <= MAX_CHUNK && IsHex(sig) && sig != sign(prev, data) && PlainLine(line)
    ensures TakeChunk(sign, true, SigHeader(data, sig) + CRLF + (data + (line + CRLF + rest)), prev) == Err(BadSignature)
  {
    hide ReadLine, CutAt, TrimSpace, ParseInt, SignatureIn, Format, PlainLine;
    var h, after := SigHeader(data, sig), data + (line + CRLF + rest);
    SizeReads(|data|);
    assert Format(|data|, Hex) != [] by { DigitsOf(|data|); }
    SignedReads(Format(|data|, Hex), sig);
    ReadPlainLine(h, after);
    assert after[..|data|] == data && after[|data|..] == line + CRLF + rest;
    ReadPlainLine(line, rest);
  }

  lemma DigitsOf(n: nat)
    requires n <= MAX_CHUNK
    ensures Format(n, Hex) != []
  {
  }

  lemma WrongSignatureEnds(sign: Signer, prev: Bytes, tail: Bytes)
    requires TakeChunk(sign, true, tail, prev) == Err(BadSignature)
    ensures EndOf(sign, true, prev, tail) == Some(Failed(BadSignature))
  {
    hide TakeChunk;
  }

  /** Chunks under the chain's own signatures are the encoder's. */
  lemma {:induction false} RightlySigned(sign: Signer, seed: Bytes, chunks: seq<Bytes>, sigs: seq<Bytes>,
                                         chain: seq<Bytes>, k: nat)
    requires |sigs| == |chunks| && IsChain(sign, seed, chunks, chain) && k <= |chunks|
    requires forall i :: 0 <= i < k ==> sigs[i] == chain[i + 1]
    ensures SignedFrames(chunks, sigs) == Frames(sign, true, seed, chunks[..k]) + SignedFrames(chunks[k..], sigs[k..])
    ensures ChainAfter(sign, true, seed, chunks[..k]) == chain[k]
    decreases k
  {
    if k == 0 {
      assert chunks[0..] == chunks && sigs[0..] == sigs && chunks[..0] == [];
      assert [] + SignedFrames(chunks, sigs) == SignedFrames(chunks, sigs);
    } else {
      RightlySigned(sign, chain[1], chunks[1..], sigs[1..], chain[1..], k - 1);
      assert chunks[..k][0] == chunks[0] && chunks[..k][1..] == chunks[1..][..k - 1];
      assert chunks[1..][k - 1..] == chunks[k..] && sigs[1..][k - 1..] == sigs[k..];
      assert sigs[0] == chain[1] == sign(seed, chunks[0]);
      hide Frames, SignedFrames, SigHeader;
      FramesStep(sign, seed, chunks[..k]);
      SignedStep(chunks, sigs);
      Regroup(SigHeader(chunks[0], sigs[0]), chunks[0], Frames(sign, true, chain[1], chunks[1..][..k - 1]),
              SignedFrames(chunks[k..], sigs[k..]));
    }
  }

  lemma FramesStep(sign: Signer, seed: Bytes, chunks: seq<Bytes>)
    requires chunks != []
    ensures Frames(sign, true, seed, chunks)
            == SigHeader(chunks[0], sign(seed, chunks[0])) + CRLF + chunks[0] + CRLF
               + Frames(sign, true, sign(seed, chunks[0]), chunks[1..])
  {
    hide Format;
  }

  lemma SignedStep(chunks: seq<Bytes>, sigs: seq<Bytes>)
    requires |sigs| == |chunks| > 0
    ensures SignedFrames(chunks, sigs)
            == SigHeader(chunks[0], sigs[0]) + CRLF + chunks[0] + CRLF + SignedFrames(chunks[1..], sigs[1..])
  {
  }

  /** What is left to read from the first chunk on whose signature is wrong, or from the closing, and its end. */
  lemma TailEnds(sign: Signer, chunks: seq<Bytes>, sigs: seq<Bytes>, last: Bytes, trailers: seq<Bytes>, prev: Bytes)
    requires IsHexSigner(sign) && Fit(chunks) && |sigs| == |chunks| && GoodTrailers(trailers)
    requires IsHex(last) && forall i :: 0 <= i < |sigs| ==> IsHex(sigs[i])
    requires chunks != [] ==> sigs[0] != sign(prev, chunks[0])
    ensures EndOf(sign, true, prev, SignedFrames(chunks, sigs) + SignedClosing(last, trailers))
            == Some(if chunks != [] || last != sign(prev, []) then Failed(BadSignature) else AtEof)
  {
    hide EndOf, SignedClosing;
    if chunks != [] {
      BadChunkEnds(sign, chunks, sigs, SignedClosing(last, trailers), prev);
    } else {
      assert SignedFrames([], []) + SignedClosing(last, trailers) == SignedClosing(last, trailers);
      if last != sign(prev, []) {
        BadClosingEnds(sign, last, trailers, prev);
      } else {
        SameClosing(sign, prev, trailers);
        ClosingEnds(sign, true, prev, trailers);
      }
    }
  }

  lemma BadChunkEnds(sign: Signer, chunks: seq<Bytes>, sigs: seq<Bytes>, rest: Bytes, prev: Bytes)
    requires Fit(chunks) && |sigs| == |chunks| > 0 && IsHex(sigs[0]) && sigs[0] != sign(prev, chunks[0])
    ensures EndOf(sign, true, prev, SignedFrames(chunks, sigs) + rest) == Some(Failed(BadSignature))
  {
    hide TakeChunk, EndOf, SigHeader, SignedFrames, IsHex;
    var h, more := SigHeader(chunks[0], sigs[0]), SignedFrames(chunks[1..], sigs[1..]);
    SignedStep(chunks, sigs);
    Regroup(h, chunks[0], more, rest);
    WrongSignatureStops(sign, prev, chunks[0], sigs[0], [], more + rest);
    WrongSignatureEnds(sign, prev, SignedFrames(chunks, sigs) + rest);
  }

  lemma Regroup(h: Bytes, data: Bytes, more: Bytes, rest: Bytes)
    ensures (h + CRLF + data + CRLF + more) + rest == h + CRLF + (data + ([] + CRLF + (more + rest)))
    ensures (h + CRLF + data + CRLF + more) + rest == h + CRLF + data + CRLF + (more + rest)
  {
  }

  lemma BadClosingEnds(sign: Signer, last: Bytes, trailers: seq<Bytes>, prev: Bytes)
    requires GoodTrailers(trailers) && IsHex(last) && last != sign(prev, [])
    ensures EndOf(sign, true, prev, SignedClosing(last, trailers)) == Some(Failed(BadSignature))
  {
    hide TakeChunk, EndOf, SigHeader, SignedClosing, IsHex, Lines;
    ClosingLine(last, trailers);
    var line, rest := if trailers == [] then [] else trailers[0], if trailers == [] then [] else Lines(trailers[1..]) + CRLF;
    assert [] + (line + CRLF + rest) == line + CRLF + rest;
    WrongSignatureStops(sign, prev, [], last, line, rest);
    WrongSignatureEnds(sign, prev, SignedClosing(last, trailers));
  }

  lemma ClosingLine(sig: Bytes, trailers: seq<Bytes>)
    ensures var line, rest := if trailers == [] then [] else trailers[0], if trailers == [] then [] else Lines(trailers[1..]) + CRLF;
            SignedClosing(sig, trailers) == SigHeader([], sig) + CRLF + (line + CRLF + rest)
  {
    hide SigHeader;
  }

  lemma SameClosing(sign: Signer, prev: Bytes, trailers: seq<Bytes>)
    ensures SignedClosing(sign(prev, []), trailers) == Closing(sign, true, prev, trailers)
  {
    hide Format, Lines;
  }

  lemma Associates(a: Bytes, b: Bytes, c: Bytes)
    ensures a + b + c == a + (b + c)
  {
  }

  /**
   The chain is checked. Frame any chunks under any hexadecimal signatures, the closing chunk
   too, and read on with verification: exactly the chunks before the first one whose signature
   is not the chain's are served; then comes the failure, if there is such a chunk or the closing
   is one, and otherwise the ordinary end.
   */
  lemma SignaturesAreChecked(sign: Signer, seed: Bytes, chunks: seq<Bytes>, sigs: seq<Bytes>, last: Bytes,
                             trailers: seq<Bytes>, chain: seq<Bytes>, k: nat, sizes: seq<nat>)
    requires IsHexSigner(sign) && Fit(chunks) && |sigs| == |chunks| && GoodTrailers(trailers)
    requires IsHex(last) && forall i :: 0 <= i < |sigs| ==> IsHex(sigs[i])
    requires IsChain(sign, seed, chunks, chain)
    requires k <= |chunks| && (forall i :: 0 <= i < k ==> sigs[i] == chain[i + 1])
    requires k < |chunks| ==> sigs[k] != chain[k + 1]
    requires |sizes| > |Payload(chunks)| && forall i :: 0 <= i < |sizes| ==> sizes[i] >= 1
    ensures var stream := SignedFrames(chunks, sigs) + SignedClosing(last, trailers);
            var (got, ended) := Drain(sign, true, Start(stream, seed), sizes);
            && got == Payload(chunks[..k])
            && (ended == Some(Failed(BadSignature)) <==> k < |chunks| || last != sign(chain[|chunks|], []))
            && (ended == Some(Failed(BadSignature)) || ended == Some(AtEof))
  {
    hide Drain, Owes, Frames, SignedFrames, SignedClosing, EndOf, ChainAfter, GoodTrailers, Payload, IsHexSigner;
    var tail := SignedFrames(chunks[k..], sigs[k..]) + SignedClosing(last, trailers);
    var end := if k < |chunks| || last != sign(chain[|chunks|], []) then Failed(BadSignature) else AtEof;
    RightlySigned(sign, seed, chunks, sigs, chain, k);
    TailEnds(sign, chunks[k..], sigs[k..], last, trailers, chain[k]);
    StartOwes(sign, true, seed, chunks[..k], tail, end);
    Associates(Frames(sign, true, seed, chunks[..k]), SignedFrames(chunks[k..], sigs[k..]), SignedClosing(last, trailers));
    PayloadGrows(chunks, k);
    DrainServesAll(sign, true, Start(Frames(sign, true, seed, chunks[..k]) + tail, seed),
                   chunks[..k], tail, Payload(chunks[..k]), end, sizes);
  }

  // ------------------------------------------------------------- any input

  /** The input starts with a chunk of this data, under the chain's signature of it, and goes on with rest. */
  ghost predicate StartsWith(sign: Signer, prev: Bytes, input: Bytes, data: Bytes, rest: Bytes) {
    exists line, after, ending ::
      && Header(input) == Some((line, after))
      && ParseInt(TrimSpace(CutAt(line).0), Hex) == Some(|data|) && |data| <= 32 * 1024 * 1024
      && |data| <= |after| && after[..|data|] == data
      && SignatureIn(CutAt(line).1) == Some(sign(prev, data))
      && ReadLine(after[|data|..]) == Some((ending, rest))
  }

  /** The input starts with these chunks, each under the chain's signature of it. */
  ghost predicate Carries(sign: Signer, prev: Bytes, input: Bytes, chunks: seq<Bytes>)
    decreases |chunks|
  {
    chunks == [] ||
    exists rest :: StartsWith(sign, prev, input, chunks[0], rest)
                   && Carries(sign, sign(prev, chunks[0]), rest, chunks[1..])
  }

  lemma TakenIsSigned(sign: Signer, input: Bytes, prev: Bytes)
    requires TakeChunk(sign, true, input, prev).Ok?
    ensures var c := TakeChunk(sign, true, input, prev).value;
            StartsWith(sign, prev, input, c.data, c.rest) && c.prev == sign(prev, c.data)
  {
    hide Header, ReadLine, CutAt, SignatureIn, ParseInt, TrimSpace;
    var header := Header(input).value;
    var data := TakeChunk(sign, true, input, prev).value.data;
    var ending := ReadLine(header.1[|data|..]).value;
    assert Header(input) == Some((header.0, header.1)) && ReadLine(header.1[|data|..]) == Some((ending.0, ending.1));
  }

  /** A read serves what is buffered, or the beginning of the next chunk the input carries. */
  lemma ReadIsSigned(sign: Signer, r: Reader, n: nat)
    requires r.off <= |r.buf| && Read(sign, true, r, n).1.Served?
    ensures var (r', out) := Read(sign, true, r, n);
            && r'.off <= |r'.buf|
            && if r.off < |r.buf| then
                 r'.input == r.input && r'.prev == r.prev && out.data + r'.buf[r'.off..] == r.buf[r.off..]
               else
                 var data := out.data + r'.buf[r'.off..];
                 StartsWith(sign, r.prev, r.input, data, r'.input) && r'.prev == sign(r.prev, data)
  {
    hide Read, TakeChunk, StartsWith;
    if r.off < |r.buf| {
      ReadBuffered(sign, true, r, n);
    } else {
      ReadOnce(sign, true, r, n);
      var r1 := AfterChunk(sign, true, r);
      TakenIsSigned(sign, r.input, r.prev);
      ReadBuffered(sign, true, r1, n);
      var k := if n < |r1.buf| then n else |r1.buf|;
      assert r1.buf[0..k] + r1.buf[k..] == r1.buf;
    }
  }

  /**
   Nothing unsigned is served. Over any input and any reads, what a verifying reader hands out
   is the beginning of what it has buffered and of chunks that the input carries one after
   another, each with a header that names the chain's signature of its data.
   */
  lemma {:induction false} OnlySignedIsServed(sign: Signer, r: Reader, sizes: seq<nat>) returns (chunks: seq<Bytes>)
    requires r.off <= |r.buf|
    ensures Carries(sign, r.prev, r.input, chunks)
    ensures Drain(sign, true, r, sizes).0 <= r.buf[r.off..] + Payload(chunks)
    decreases |sizes|
  {
    hide Read, StartsWith;
    chunks := [];
    if sizes != [] {
      var (r', out) := Read(sign, true, r, sizes[0]);
      if out.Served? {
        ReadIsSigned(sign, r, sizes[0]);
        chunks := OnlySignedIsServed(sign, r', sizes[1..]);
        var more := Drain(sign, true, r', sizes[1..]).0;
        if r.off < |r.buf| {
          assert out.data + (r'.buf[r'.off..] + Payload(chunks)) == r.buf[r.off..] + Payload(chunks);
        } else {
          var data := out.data + r'.buf[r'.off..];
          assert ([data] + chunks)[1..] == chunks;
          assert out.data + (r'.buf[r'.off..] + Payload(chunks)) == [] + Payload([data] + chunks);
          chunks := [data] + chunks;
        }
      }
    }
  }
}
