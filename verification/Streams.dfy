/**
 * Chunked byte streams of the document processor: services/document-processor/src/
 * streams.ts, lines 6-80, the retained output of native-tools.ts, lines 65-113, and the
 * INSTREAM framing of clamav.ts, lines 82-98. What comes out never depends on how the
 * bytes were cut.
 */
module Streams {
  import opened Wrappers

  type Byte = n: nat | n < 256

  datatype ProcessorError = RequestTooLarge | InvalidContentLength | OutputSizeLimitExceeded | ScannerUnavailable

  function Concat(chunks: seq<seq<Byte>>): seq<Byte> {
    if chunks == [] then [] else Concat(chunks[..|chunks| - 1]) + chunks[|chunks| - 1]
  }

  function Prefix(bytes: seq<Byte>, n: nat): seq<Byte> {
    if |bytes| <= n then bytes else bytes[..n]
  }

  lemma ConcatSnoc(chunks: seq<seq<Byte>>, i: nat)
    requires i < |chunks|
    ensures Concat(chunks[..i + 1]) == Concat(chunks[..i]) + chunks[i]
  {
    assert chunks[..i + 1][..i] == chunks[..i];
  }

  lemma {:induction false} ConcatGrows(chunks: seq<seq<Byte>>, i: nat)
    requires i <= |chunks|
    ensures Concat(chunks[..i]) <= Concat(chunks)
    decreases |chunks| - i
  {
    if i < |chunks| {
      ConcatSnoc(chunks, i);
      ConcatGrows(chunks, i + 1);
    } else {
      assert chunks[..i] == chunks;
    }
  }

  // ---------- Input inspection ----------

  const CAPTURED_BYTES := 8

  class InputInspectionTransform {
    const expectedBytes: nat
    const maximumBytes: nat
    const captured: array<Byte>
    var capturedBytes: nat
    var receivedBytes: nat
    /** Everything accepted so far. */
    ghost var received: seq<Byte>

    ghost predicate Valid()
      reads this, captured
    {
      && captured.Length == CAPTURED_BYTES
      && receivedBytes == |received|
      && capturedBytes <= CAPTURED_BYTES
      && captured[..capturedBytes] == Prefix(received, CAPTURED_BYTES)
    }

    constructor (expectedBytes: nat, maximumBytes: nat)
      ensures Valid() && fresh(captured) && received == []
      ensures this.expectedBytes == expectedBytes && this.maximumBytes == maximumBytes
    {
      this.expectedBytes, this.maximumBytes := expectedBytes, maximumBytes;
      captured := new Byte[CAPTURED_BYTES](_ => 0);
      capturedBytes, receivedBytes, received := 0, 0, [];
    }

    method Transform(chunk: seq<Byte>) returns (r: Result<seq<Byte>, ProcessorError>)
      requires Valid()
      modifies this, captured
      ensures Valid()
      ensures |old(received) + chunk| <= maximumBytes && |old(received) + chunk| <= expectedBytes ==>
                r == Success(chunk) && received == old(received) + chunk
      ensures !(|old(received) + chunk| <= maximumBytes && |old(received) + chunk| <= expectedBytes) ==>
                r == Failure(RequestTooLarge) && received == old(received)
    {
      var nextBytes := receivedBytes + |chunk|;
      if nextBytes > maximumBytes || nextBytes > expectedBytes {
        return Failure(RequestTooLarge);
      }
      receivedBytes := nextBytes;
      var remaining := captured.Length - capturedBytes;
      if remaining > 0 {
        var bytesToCopy := Min(remaining, |chunk|);
        forall k | 0 <= k < bytesToCopy {
          captured[capturedBytes + k] := chunk[k];
        }
        capturedBytes := capturedBytes + bytesToCopy;
      }
      received := received + chunk;
      return Success(chunk);
    }

    method Flush() returns (r: Result<(), ProcessorError>)
      requires Valid()
      ensures r == if |received| == expectedBytes then Success(()) else Failure(InvalidContentLength)
    {
      if receivedBytes != expectedBytes {
        return Failure(InvalidContentLength);
      }
      return Success(());
    }

    method FirstBytes() returns (bytes: seq<Byte>)
      requires Valid()
      ensures bytes == Prefix(received, CAPTURED_BYTES)
    {
      return captured[..capturedBytes];
    }
  }

  datatype Inspection = Inspection(sizeBytes: nat, firstBytes: seq<Byte>, forwarded: seq<seq<Byte>>)

  /** What inspection decides, of the bytes alone. */
  function Verdict(bytes: seq<Byte>, expectedBytes: nat, maximumBytes: nat): Option<ProcessorError> {
    if |bytes| > expectedBytes || |bytes| > maximumBytes then Some(RequestTooLarge)
    else if |bytes| < expectedBytes then Some(InvalidContentLength)
    else None
  }

  /** A whole upload through the transform, chunk by chunk. */
  method Inspect(chunks: seq<seq<Byte>>, expectedBytes: nat, maximumBytes: nat) returns (r: Result<Inspection, ProcessorError>)
    ensures r.Success? <==> |Concat(chunks)| == expectedBytes <= maximumBytes
    ensures r.Success? ==>
              && r.value.forwarded == chunks && r.value.sizeBytes == |Concat(chunks)|
              && r.value.firstBytes == Prefix(Concat(chunks), 8)
    ensures r.Failure? ==> Verdict(Concat(chunks), expectedBytes, maximumBytes) == Some(r.error)
  {
    var transform := new InputInspectionTransform(expectedBytes, maximumBytes);
    var forwarded := [];
    for i := 0 to |chunks|
      invariant transform.Valid() && fresh(transform) && fresh(transform.captured)
      invariant transform.expectedBytes == expectedBytes && transform.maximumBytes == maximumBytes
      invariant transform.received == Concat(chunks[..i]) && forwarded == chunks[..i]
      invariant |Concat(chunks[..i])| <= expectedBytes && |Concat(chunks[..i])| <= maximumBytes
    {
      ConcatSnoc(chunks, i);
      ConcatGrows(chunks, i + 1);
      var chunk :- transform.Transform(chunks[i]);
      forwarded := forwarded + [chunk];
    }
    assert chunks[..|chunks|] == chunks;
    var _ :- transform.Flush();
    var firstBytes := transform.FirstBytes();
    return Success(Inspection(transform.receivedBytes, firstBytes, forwarded));
  }

  // ---------- Output limit ----------

  class OutputLimitTransform {
    const maximumBytes: nat
    var emittedBytes: nat

    constructor (maximumBytes: nat)
      ensures this.maximumBytes == maximumBytes && emittedBytes == 0
    {
      this.maximumBytes, emittedBytes := maximumBytes, 0;
    }

    /** The count moves even for a refused chunk, so nothing passes after a refusal. */
    method Transform(chunk: seq<Byte>) returns (r: Result<seq<Byte>, ProcessorError>)
      modifies this`emittedBytes
      ensures emittedBytes == old(emittedBytes) + |chunk|
      ensures r == if emittedBytes > maximumBytes then Failure(OutputSizeLimitExceeded) else Success(chunk)
    {
      emittedBytes := emittedBytes + |chunk|;
      if emittedBytes > maximumBytes {
        return Failure(OutputSizeLimitExceeded);
      }
      return Success(chunk);
    }
  }

  method Limit(chunks: seq<seq<Byte>>, maximumBytes: nat) returns (r: Result<seq<seq<Byte>>, ProcessorError>)
    ensures r == if |Concat(chunks)| <= maximumBytes then Success(chunks) else Failure(OutputSizeLimitExceeded)
  {
    var transform := new OutputLimitTransform(maximumBytes);
    var passed := [];
    for i := 0 to |chunks|
      invariant fresh(transform) && transform.maximumBytes == maximumBytes
      invariant transform.emittedBytes == |Concat(chunks[..i])| <= maximumBytes && passed == chunks[..i]
    {
      ConcatSnoc(chunks, i);
      ConcatGrows(chunks, i + 1);
      var chunk :- transform.Transform(chunks[i]);
      passed := passed + [chunk];
    }
    assert chunks[..|chunks|] == chunks;
    return Success(passed);
  }

  // ---------- Retained output of a native tool ----------

  const MAX_RETAINED_STDOUT_BYTES := 65536

  class StdoutRetention {
    var stdoutChunks: seq<seq<Byte>>
    var stdoutBytes: nat
    var stdoutTruncated: bool

    ghost predicate Valid()
      reads this
    {
      stdoutBytes == |Concat(stdoutChunks)| <= MAX_RETAINED_STDOUT_BYTES
    }

    constructor ()
      ensures Valid() && stdoutChunks == [] && !stdoutTruncated
    {
      stdoutChunks, stdoutBytes, stdoutTruncated := [], 0, false;
    }

    method OnData(chunk: seq<Byte>)
      requires Valid()
      modifies this
      ensures Valid()
      ensures Concat(stdoutChunks) == Prefix(old(Concat(stdoutChunks)) + chunk, MAX_RETAINED_STDOUT_BYTES)
      ensures stdoutTruncated <==>
                || old(stdoutTruncated)
                || |old(Concat(stdoutChunks)) + chunk| > MAX_RETAINED_STDOUT_BYTES
                || |old(Concat(stdoutChunks))| == MAX_RETAINED_STDOUT_BYTES
    {
      var remaining := MAX_RETAINED_STDOUT_BYTES - stdoutBytes;
      if remaining <= 0 {
        stdoutTruncated := true;
        return;
      }
      if |chunk| > remaining {
        stdoutTruncated := true;
        Push(chunk[..remaining]);
        stdoutBytes := MAX_RETAINED_STDOUT_BYTES;
        return;
      }
      stdoutBytes := stdoutBytes + |chunk|;
      Push(chunk);
    }

    method Push(chunk: seq<Byte>)
      modifies this`stdoutChunks
      ensures Concat(stdoutChunks) == old(Concat(stdoutChunks)) + chunk
    {
      var before := stdoutChunks;
      stdoutChunks := stdoutChunks + [chunk];
      assert stdoutChunks[..|stdoutChunks| - 1] == before;
    }
  }

  predicate EmptyAt(chunks: seq<seq<Byte>>, i: nat)
    requires i < |chunks|
  {
    chunks[i] == [] && |Concat(chunks[..i])| == MAX_RETAINED_STDOUT_BYTES
  }

  /** An empty chunk that arrives when the buffer is exactly full. */
  ghost predicate EmptyAfterFull(chunks: seq<seq<Byte>>) {
    exists i :: 0 <= i < |chunks| && EmptyAt(chunks, i)
  }

  lemma PrefixOfPrefix(a: seq<Byte>, b: seq<Byte>, n: nat)
    ensures Prefix(Prefix(a, n) + b, n) == Prefix(a + b, n)
  {
  }

  /**
   * The retained output is exactly the first 64 KiB. It is flagged truncated if and only
   * if more existed, or an empty chunk came after exactly 64 KiB.
   */
  method Retain(chunks: seq<seq<Byte>>) returns (stdout: seq<Byte>, truncated: bool)
    ensures stdout == Prefix(Concat(chunks), 65_536)
    ensures truncated <==> |Concat(chunks)| > 65_536 || EmptyAfterFull(chunks)
    ensures (forall i :: 0 <= i < |chunks| ==> chunks[i] != []) ==> (truncated <==> |Concat(chunks)| > 65_536)
  {
    var retention := new StdoutRetention();
    for i := 0 to |chunks|
      invariant fresh(retention) && retention.Valid()
      invariant Concat(retention.stdoutChunks) == Prefix(Concat(chunks[..i]), MAX_RETAINED_STDOUT_BYTES)
      invariant retention.stdoutTruncated <==>
                  |Concat(chunks[..i])| > MAX_RETAINED_STDOUT_BYTES || exists j :: 0 <= j < i && EmptyAt(chunks, j)
    {
      ConcatSnoc(chunks, i);
      retention.OnData(chunks[i]);
      PrefixOfPrefix(Concat(chunks[..i]), chunks[i], MAX_RETAINED_STDOUT_BYTES);
      assert EmptyAt(chunks, i) <==> chunks[i] == [] && |Concat(chunks[..i])| == MAX_RETAINED_STDOUT_BYTES;
    }
    assert chunks[..|chunks|] == chunks;
    return Concat(retention.stdoutChunks), retention.stdoutTruncated;
  }

  // ---------- INSTREAM ----------

  const MAX_UINT32 := 0xFFFF_FFFF

  /** `writeUInt32BE` */
  function Header(n: nat): seq<Byte>
    requires n <= MAX_UINT32
  {
    [n / 0x100_0000, n / 0x1_0000 % 0x100, n / 0x100 % 0x100, n % 0x100]
  }

  function HeaderValue(h: seq<Byte>): nat
    requires |h| == 4
  {
    var a: nat, b: nat, c: nat, d: nat := h[0], h[1], h[2], h[3];
    a * 0x100_0000 + b * 0x1_0000 + c * 0x100 + d
  }

  lemma HeaderRoundTrip(n: nat)
    requires n <= MAX_UINT32
    ensures HeaderValue(Header(n)) == n
  {
    assert n == n / 0x100 * 0x100 + n % 0x100;
    var high := n / 0x100;
    assert high == high / 0x100 * 0x100 + high % 0x100;
    assert high / 0x100 == n / 0x1_0000;
    var higher := n / 0x1_0000;
    assert higher == higher / 0x100 * 0x100 + higher % 0x100;
    assert higher / 0x100 == n / 0x100_0000;
  }

  function Frames(chunks: seq<seq<Byte>>): seq<Byte>
    requires forall i :: 0 <= i < |chunks| ==> |chunks[i]| <= MAX_UINT32
  {
    if chunks == [] then Header(0) else Header(|chunks[0]|) + chunks[0] + Frames(chunks[1..])
  }

  /** The scanner's side: chunks of the announced length up to one of length zero. */
  function Decode(bytes: seq<Byte>): Option<(seq<Byte>, seq<Byte>)> {
    if |bytes| < 4 then None
    else
      var length, rest := HeaderValue(bytes[..4]), bytes[4..];
      if length == 0 then Some(([], rest))
      else if |rest| < length then None
      else
        match Decode(rest[length..])
        case None => None
        case Some((file, residue)) => Some((rest[..length] + file, residue))
  }

  function Joined(chunks: seq<seq<Byte>>): seq<Byte> {
    if chunks == [] then [] else chunks[0] + Joined(chunks[1..])
  }

  lemma {:induction false} JoinedSnoc(chunks: seq<seq<Byte>>, last: seq<Byte>)
    ensures Joined(chunks + [last]) == Joined(chunks) + last
  {
    if chunks == [] {
      assert [last][1..] == [];
    } else {
      assert (chunks + [last])[1..] == chunks[1..] + [last];
      JoinedSnoc(chunks[1..], last);
      assert chunks[0] + (Joined(chunks[1..]) + last) == chunks[0] + Joined(chunks[1..]) + last;
    }
  }

  lemma {:induction false} JoinedIsConcat(chunks: seq<seq<Byte>>)
    ensures Joined(chunks) == Concat(chunks)
  {
    if chunks != [] {
      var first, last := chunks[..|chunks| - 1], chunks[|chunks| - 1];
      assert first + [last] == chunks;
      JoinedIsConcat(first);
      JoinedSnoc(first, last);
    }
  }

  /**
   * The frames decode to exactly the file, with nothing left over, if and only if no
   * chunk is empty: an empty one would be taken for the end.
   */
  lemma {:induction false} FramesDecode(chunks: seq<seq<Byte>>)
    requires forall i :: 0 <= i < |chunks| ==> |chunks[i]| <= MAX_UINT32
    ensures Decode(Frames(chunks)) == Some((Joined(chunks), [])) <==> forall i :: 0 <= i < |chunks| ==> chunks[i] != []
    ensures Decode(Frames(chunks)).Some?
    ensures Joined(chunks) == Concat(chunks)
  {
    JoinedIsConcat(chunks);
    hide Concat;
    if chunks == [] {
      HeaderRoundTrip(0);
      assert Header(0)[..4] == Header(0) && Header(0)[4..] == [];
    } else {
      var chunk, rest := chunks[0], chunks[1..];
      var bytes := Frames(chunks);
      HeaderRoundTrip(|chunk|);
      assert bytes[..4] == Header(|chunk|);
      assert bytes[4..] == chunk + Frames(rest);
      assert |Frames(rest)| >= 4;
      if chunk != [] {
        FramesDecode(rest);
        assert bytes[4..][..|chunk|] == chunk && bytes[4..][|chunk|..] == Frames(rest);
        var (file, residue) := Decode(Frames(rest)).value;
        assert chunk + file == chunk + Joined(rest) ==> file == Joined(rest) by {
          assert (chunk + file)[|chunk|..] == file && (chunk + Joined(rest))[|chunk|..] == Joined(rest);
        }
        assert (forall i :: 0 <= i < |rest| ==> rest[i] != []) <==> (forall i :: 0 <= i < |chunks| ==> chunks[i] != []) by {
          assert forall i :: 0 <= i < |rest| ==> rest[i] == chunks[i + 1];
          assert forall i :: 0 < i < |chunks| ==> chunks[i] == rest[i - 1];
        }
      }
    }
  }

  /** The loop of `scan`: refuse a file that is too long, else write frames and the terminator. */
  method WriteStream(chunks: seq<seq<Byte>>, maxStreamBytes: nat) returns (r: Result<seq<Byte>, ProcessorError>)
    requires forall i :: 0 <= i < |chunks| ==> |chunks[i]| <= MAX_UINT32
    ensures r == if |Concat(chunks)| <= maxStreamBytes then Success(Frames(chunks)) else Failure(RequestTooLarge)
  {
    var streamedBytes := 0;
    var written := [];
    for i := 0 to |chunks|
      invariant streamedBytes == |Concat(chunks[..i])| <= maxStreamBytes
      invariant written + Frames(chunks[i..]) == Frames(chunks)
    {
      ConcatSnoc(chunks, i);
      ConcatGrows(chunks, i + 1);
      var chunk := chunks[i];
      streamedBytes := streamedBytes + |chunk|;
      if streamedBytes > maxStreamBytes {
        return Failure(RequestTooLarge);
      }
      assert chunks[i..][1..] == chunks[i + 1..];
      assert written + (Header(|chunk|) + chunk + Frames(chunks[i + 1..])) == written + Header(|chunk|) + chunk + Frames(chunks[i + 1..]);
      written := written + Header(|chunk|);
      written := written + chunk;
    }
    assert chunks[..|chunks|] == chunks && chunks[|chunks|..] == [];
    written := written + Header(0);
    return Success(written);
  }
}
