/**
 Container logs: Docker sends the output of a container without a terminal in frames, each with a
 header of eight bytes, which the agent takes out again.
 */
module LogDemux {
  type Byte = x: int | 0 <= x < 256

  const LIMIT := 900 * 1024
  const HEADER := 8

  /** What a program wrote at once, to output 1 or 2. */
  datatype Frame = Frame(kind: Byte, payload: seq<Byte>)

  function BigEndian(a: int, b: int, c: int, d: int): int {
    ((a * 256 + b) * 256 + c) * 256 + d
  }

  /** The size in a header: bytes 4 to 7, the highest first. */
  function SizeIn(header: seq<Byte>): nat
    requires |header| == HEADER
  {
    BigEndian(header[4], header[5], header[6], header[7])
  }

  function HeaderOf(kind: Byte, size: nat): (header: seq<Byte>)
    requires size < 0x1_0000_0000
    ensures |header| == HEADER
  {
    [kind, 0, 0, 0, size / 0x100_0000, size / 0x1_0000 % 256, size / 256 % 256, size % 256]
  }

  lemma SizeUndoesHeader(kind: Byte, size: nat)
    requires size < 0x1_0000_0000
    ensures SizeIn(HeaderOf(kind, size)) == size
  {
    assert size / 0x1_0000 == size / 256 / 256;
    assert size / 0x100_0000 == size / 256 / 256 / 256;
  }

  /** A size at which the agent goes on. */
  predicate Readable(size: nat) {
    0 < size <= LIMIT
  }

  // Framing and unframing

  ghost predicate Framable(frames: seq<Frame>) {
    forall i :: 0 <= i < |frames| ==> Readable(|frames[i].payload|)
  }

  function Framed(f: Frame): seq<Byte>
    requires |f.payload| < 0x1_0000_0000
  {
    HeaderOf(f.kind, |f.payload|) + f.payload
  }

  function Mux(frames: seq<Frame>): seq<Byte>
    requires forall i :: 0 <= i < |frames| ==> |frames[i].payload| < 0x1_0000_0000
  {
    if frames == [] then []
    else Framed(frames[0]) + Mux(frames[1..])
  }

  function Payloads(frames: seq<Frame>): seq<Byte> {
    if frames == [] then [] else frames[0].payload + Payloads(frames[1..])
  }

  /** What the agent makes of a stream, or of what it read of it. */
  function Demux(s: seq<Byte>): seq<Byte> {
    if |s| < HEADER || !Readable(SizeIn(s[..HEADER])) then []
    else
      var size := SizeIn(s[..HEADER]);
      if |s| < HEADER + size then s[HEADER..]
      else s[HEADER..HEADER + size] + Demux(s[HEADER + size..])
  }

  lemma ConcatIsAssociative<T>(a: seq<T>, b: seq<T>, c: seq<T>)
    ensures a + (b + c) == (a + b) + c
  {}

  lemma DemuxFrame(f: Frame, rest: seq<Byte>)
    requires Readable(|f.payload|)
    ensures Demux(Framed(f) + rest) == f.payload + Demux(rest)
  {
    var header, size := HeaderOf(f.kind, |f.payload|), |f.payload|;
    SizeUndoesHeader(f.kind, size);
    SlicesOfFrame(header, f.payload, rest);
  }

  lemma SlicesOfFrame(header: seq<Byte>, payload: seq<Byte>, rest: seq<Byte>)
    requires |header| == HEADER
    ensures
      var s := header + payload + rest;
      s[..HEADER] == header && s[HEADER..HEADER + |payload|] == payload && s[HEADER + |payload|..] == rest
  {}

  /** A stream of frames that is cut short in its first frame gives what is there of the payload. */
  lemma DemuxPart(f: Frame, n: nat)
    requires Readable(|f.payload|) && n < HEADER + |f.payload|
    ensures Demux(Framed(f)[..n]) == if n <= HEADER then [] else f.payload[..n - HEADER]
  {
    var size := |f.payload|;
    var s := Framed(f)[..n];
    SizeUndoesHeader(f.kind, size);
    if n >= HEADER {
      assert s[..HEADER] == HeaderOf(f.kind, size);
      assert s[HEADER..] == f.payload[..n - HEADER];
    }
  }

  /** Readable frames are unframed one after the other, whatever follows them. */
  lemma {:induction false} DemuxGoesOn(frames: seq<Frame>, tail: seq<Byte>)
    requires Framable(frames)
    ensures Demux(Mux(frames) + tail) == Payloads(frames) + Demux(tail)
  {
    if frames == [] {
      assert [] + tail == tail && [] + Demux(tail) == Demux(tail);
    } else {
      var f, rest := frames[0], frames[1..];
      DemuxGoesOn(rest, tail);
      DemuxFrame(f, Mux(rest) + tail);
      ConcatIsAssociative(Framed(f), Mux(rest), tail);
      ConcatIsAssociative(f.payload, Payloads(rest), Demux(tail));
    }
  }

  /** Unframing gives back what was framed. */
  lemma DemuxUndoesMux(frames: seq<Frame>)
    requires Framable(frames)
    ensures Demux(Mux(frames)) == Payloads(frames)
  {
    DemuxGoesOn(frames, []);
    assert Mux(frames) + [] == Mux(frames) && Payloads(frames) + [] == Payloads(frames);
  }

  // Streams cut short

  function FrameMask(size: nat): seq<bool> {
    seq(HEADER, _ => false) + seq(size, _ => true)
  }

  /** Which bytes of the framed stream are payload. */
  function Mask(frames: seq<Frame>): (mask: seq<bool>) {
    if frames == [] then []
    else FrameMask(|frames[0].payload|) + Mask(frames[1..])
  }

  function Selected(s: seq<Byte>, mask: seq<bool>): seq<Byte>
    requires |s| == |mask|
  {
    if s == [] then []
    else if mask[0] then [s[0]] + Selected(s[1..], mask[1..])
    else Selected(s[1..], mask[1..])
  }

  lemma {:induction false} MaskFits(frames: seq<Frame>)
    requires Framable(frames)
    ensures |Mask(frames)| == |Mux(frames)|
  {
    if frames != [] {
      MaskFits(frames[1..]);
    }
  }

  lemma RestOfConcat<T>(a: seq<T>, b: seq<T>)
    requires a != []
    ensures (a + b)[0] == a[0] && (a + b)[1..] == a[1..] + b
  {}

  lemma {:induction false} SelectedConcat(a: seq<Byte>, b: seq<Byte>, maskA: seq<bool>, maskB: seq<bool>)
    requires |a| == |maskA| && |b| == |maskB|
    ensures Selected(a + b, maskA + maskB) == Selected(a, maskA) + Selected(b, maskB)
  {
    if a == [] {
      assert a + b == b && maskA + maskB == maskB;
    } else {
      RestOfConcat(a, b);
      RestOfConcat(maskA, maskB);
      SelectedConcat(a[1..], b, maskA[1..], maskB);
      if maskA[0] {
        ConcatIsAssociative([a[0]], Selected(a[1..], maskA[1..]), Selected(b, maskB));
      }
    }
  }

  lemma {:induction false} AllSelected(s: seq<Byte>, mask: seq<bool>)
    requires |s| == |mask| && forall i :: 0 <= i < |mask| ==> mask[i]
    ensures Selected(s, mask) == s
  {
    if s != [] {
      AllSelected(s[1..], mask[1..]);
    }
  }

  lemma {:induction false} NoneSelected(s: seq<Byte>, mask: seq<bool>)
    requires |s| == |mask| && forall i :: 0 <= i < |mask| ==> !mask[i]
    ensures Selected(s, mask) == []
  {
    if s != [] {
      NoneSelected(s[1..], mask[1..]);
    }
  }

  /** The payload bytes in the first `n` bytes of one frame. */
  lemma SelectedInFrame(f: Frame, n: nat)
    requires Readable(|f.payload|) && n <= HEADER + |f.payload|
    ensures Selected(Framed(f)[..n], FrameMask(|f.payload|)[..n]) ==
            if n <= HEADER then [] else f.payload[..n - HEADER]
  {
    var header, size := HeaderOf(f.kind, |f.payload|), |f.payload|;
    var s, mask := (header + f.payload)[..n], FrameMask(size)[..n];
    if n <= HEADER {
      NoneSelected(s, mask);
    } else {
      var part, partMask := f.payload[..n - HEADER], seq(n - HEADER, _ => true);
      assert s == header + part && mask == seq(HEADER, _ => false) + partMask;
      SelectedConcat(header, part, seq(HEADER, _ => false), partMask);
      NoneSelected(header, seq(HEADER, _ => false));
      AllSelected(part, partMask);
    }
  }

  lemma PrefixOfConcat<T>(a: seq<T>, b: seq<T>, n: nat)
    requires n <= |a + b|
    ensures (a + b)[..n] == if n < |a| then a[..n] else a + b[..n - |a|]
  {}

  /** However the stream is cut short, what comes out are the payload bytes of what is left, no more and no fewer. */
  lemma {:induction false} DemuxOfPrefix(frames: seq<Frame>, n: nat)
    requires Framable(frames) && n <= |Mux(frames)|
    ensures |Mask(frames)| == |Mux(frames)|
    ensures Demux(Mux(frames)[..n]) == Selected(Mux(frames)[..n], Mask(frames)[..n])
  {
    MaskFits(frames);
    if frames != [] {
      var f, rest := frames[0], frames[1..];
      var size := |f.payload|;
      MaskFits(rest);
      PrefixOfConcat(Framed(f), Mux(rest), n);
      PrefixOfConcat(FrameMask(size), Mask(rest), n);
      if n < HEADER + size {
        DemuxPart(f, n);
        SelectedInFrame(f, n);
      } else {
        DemuxOfPrefix(rest, n - (HEADER + size));
        FrameAndRest(f, Mux(rest)[..n - (HEADER + size)], Mask(rest)[..n - (HEADER + size)]);
      }
    }
  }

  lemma FrameAndRest(f: Frame, s: seq<Byte>, mask: seq<bool>)
    requires Readable(|f.payload|) && |s| == |mask| && Demux(s) == Selected(s, mask)
    ensures Demux(Framed(f) + s) == Selected(Framed(f) + s, FrameMask(|f.payload|) + mask)
  {
    var size := |f.payload|;
    DemuxFrame(f, s);
    SelectedConcat(Framed(f), s, FrameMask(size), mask);
    SelectedInWhole(f);
  }

  lemma SelectedInWhole(f: Frame)
    requires Readable(|f.payload|)
    ensures Selected(Framed(f), FrameMask(|f.payload|)) == f.payload
  {
    var size := |f.payload|;
    SelectedInFrame(f, HEADER + size);
    assert Framed(f)[..HEADER + size] == Framed(f) && FrameMask(size)[..HEADER + size] == FrameMask(size);
    assert f.payload[..size] == f.payload;
  }

  /** An empty frame, or one over the limit, ends the output: what comes after it is lost. */
  lemma BadFrameEnds(frames: seq<Frame>, bad: seq<Byte>, rest: seq<Byte>)
    requires Framable(frames) && |bad| == HEADER && !Readable(SizeIn(bad))
    ensures Demux(Mux(frames) + bad + rest) == Payloads(frames)
  {
    DemuxGoesOn(frames, bad + rest);
    ConcatIsAssociative(Mux(frames), bad, rest);
    assert (bad + rest)[..HEADER] == bad;
    assert Payloads(frames) + [] == Payloads(frames);
  }

  // The reading loop

  /** What is left to read of a stream, up to the limit. */
  class LimitedReader {
    var rest: seq<Byte>

    constructor (stream: seq<Byte>)
      ensures rest == Limited(stream)
    {
      rest := Limited(stream);
    }

    /** Fills `n` bytes; fails, whatever it consumed, if there are fewer. */
    method ReadFull(n: nat) returns (ok: bool, data: seq<Byte>)
      modifies this
      ensures ok == (n <= |old(rest)|)
      ensures ok ==> data == old(rest)[..n] && rest == old(rest)[n..]
      ensures !ok ==> data == [] && rest == []
    {
      if |rest| < n {
        rest := [];
        return false, [];
      }
      ok, data, rest := true, rest[..n], rest[n..];
    }

    /** Copies `n` bytes, or as many as there are. */
    method CopyN(n: nat) returns (ok: bool, data: seq<Byte>)
      modifies this
      ensures ok == (n <= |old(rest)|)
      ensures ok ==> data == old(rest)[..n] && rest == old(rest)[n..]
      ensures !ok ==> data == old(rest) && rest == []
    {
      if |rest| < n {
        ok, data, rest := false, rest, [];
      } else {
        ok, data, rest := true, rest[..n], rest[n..];
      }
    }
  }

  function Limited(stream: seq<Byte>): seq<Byte> {
    if |stream| <= LIMIT then stream else stream[..LIMIT]
  }

  method GetContainerLogs(stream: seq<Byte>, tty: bool) returns (logs: seq<Byte>)
    ensures
      var kept := if |stream| <= 921_600 then stream else stream[..921_600];
      logs == if tty then kept else Demux(kept)
  {
    var limited := new LimitedReader(stream);
    if tty {
      return limited.rest;
    }
    logs := [];
    while true
      invariant Demux(Limited(stream)) == logs + Demux(limited.rest)
      decreases |limited.rest|
    {
      ghost var s, before := limited.rest, logs;
      var ok, header := limited.ReadFull(HEADER);
      if !ok {
        break;
      }
      DemuxStep(s);
      var size := BigEndian(header[4], header[5], header[6], header[7]);
      if size <= 0 || size > LIMIT {
        return;
      }
      var whole, payload := limited.CopyN(size);
      logs := logs + payload;
      if !whole {
        break;
      }
      ConcatIsAssociative(before, payload, Demux(limited.rest));
    }
  }

  /** What one turn of the loop takes from the stream. */
  lemma DemuxStep(s: seq<Byte>)
    requires |s| >= HEADER
    ensures
      var size, body := SizeIn(s[..HEADER]), s[HEADER..];
      Demux(s) == if !Readable(size) then [] else if |body| < size then body else body[..size] + Demux(body[size..])
  {
    var size, body := SizeIn(s[..HEADER]), s[HEADER..];
    if size <= |body| {
      assert s[HEADER..HEADER + size] == body[..size] && s[HEADER + size..] == body[size..];
    }
  }

  function Least(a: int, b: int): int {
    if a <= b then a else b
  }

  /** So of any stream of readable frames, the logs are the payload bytes among its first 900 KiB. */
  lemma LogsArePayload(frames: seq<Frame>)
    requires Framable(frames)
    ensures |Mask(frames)| == |Mux(frames)|
    ensures
      var n := Least(|Mux(frames)|, 921_600);
      Demux(Limited(Mux(frames))) == Selected(Mux(frames)[..n], Mask(frames)[..n])
  {
    var n := Least(|Mux(frames)|, LIMIT);
    DemuxOfPrefix(frames, n);
    assert Limited(Mux(frames)) == Mux(frames)[..n];
  }
}
