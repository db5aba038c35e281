/**
 * The frame accumulator in front of the Opus codec (OpusEncoderWrapper).
 *
 * PCM batches of any length are collected in a fixed-length frame buffer;
 * once the buffer is full the codec is called once on the whole frame and
 * the rest of the batch is carried to the start of the buffer.  The codec
 * itself (`opus_encode`) is a parameter: a function from one full frame to
 * either the encoded bytes or an error.
 */
module OpusEncoder {
  import opened Samples

  /** The largest Opus packet, in bytes. */
  const MaxPacketSize: nat := 1275
  /** Bitrate and complexity the constructor configures. */
  const InitialBitrate: int := 16000
  const InitialComplexity: int := 4
  const MinComplexity: int := 0
  const MaxComplexity: int := 10

  /** What `opus_encode` returns: a byte count together with the bytes, or a negative error code. */
  datatype CodecResult = Encoded(bytes: seq<uint8>) | CodecError(code: int)

  /** `opus_encode` applied to one full frame. */
  type Codec = seq<int16> -> CodecResult

  /** The codec never writes more than the output buffer it is given (1275 bytes). */
  ghost predicate WellBehaved(codec: Codec) {
    forall frame :: codec(frame).Encoded? ==> |codec(frame).bytes| <= MaxPacketSize
  }

  /** The codec never reports an error. */
  ghost predicate NeverFails(codec: Codec) {
    forall frame :: codec(frame).Encoded?
  }

  /** Samples in one frame: `sample_rate * frame_duration_ms / 1000`. */
  function SamplesPerFrame(sampleRate: nat, frameDurationMs: nat): nat {
    sampleRate * frameDurationMs / 1000
  }

  /** The complexity actually requested from the codec: the argument clamped into [0, 10]. */
  function ClampComplexity(complexity: int): (r: int)
    ensures MinComplexity <= r <= MaxComplexity
    ensures MinComplexity <= complexity <= MaxComplexity ==> r == complexity
    ensures complexity < MinComplexity ==> r == MinComplexity
    ensures complexity > MaxComplexity ==> r == MaxComplexity
  {
    if complexity < MinComplexity then MinComplexity
    else if complexity > MaxComplexity then MaxComplexity
    else complexity
  }

  /**
   * The effect of one `Encode` call on the accumulator: the new frame buffer,
   * the new fill position, the returned flag, the frame handed to the codec
   * (if it was called) and the packet produced (if the codec succeeded).
   */
  datatype Outcome = Outcome(
    buffer: seq<int16>,
    pos: nat,
    ok: bool,
    codecInput: Option<seq<int16>>,
    packet: Option<seq<uint8>>)

  /**
   * The remainder of a batch fits in the buffer: `|pcm| - needed <= |buffer|`.
   * The source copies the remainder without checking this.
   */
  predicate RemainderFits(size: nat, pos: nat, n: nat) {
    pos <= size && n <= (size - pos) + size
  }

  /** One `Encode` call on a buffer `buffer` filled up to `pos`, for a codec that exists iff `ready`. */
  function Accumulate(ready: bool, buffer: seq<int16>, pos: nat, pcm: seq<int16>, codec: Codec): (o: Outcome)
    requires RemainderFits(|buffer|, pos, |pcm|)
    ensures |o.buffer| == |buffer| && o.pos <= |buffer|
  {
    if !ready || pcm == [] then Outcome(buffer, pos, false, None, None)
    else
      var needed := |buffer| - pos;
      if |pcm| < needed then
        Outcome(buffer[..pos] + pcm + buffer[pos + |pcm|..], pos + |pcm|, true, None, None)
      else
        var frame := buffer[..pos] + pcm[..needed];
        match codec(frame)
        case CodecError(_) => Outcome(frame, 0, false, Some(frame), None)
        case Encoded(bytes) =>
          if |pcm| > needed then
            var rest := pcm[needed..];
            Outcome(rest + frame[|rest|..], |rest|, true, Some(frame), Some(bytes))
          else
            Outcome(frame, 0, true, Some(frame), Some(bytes))
  }

  /** The samples waiting in the buffer for the next frame. */
  function Pending(o: Outcome): seq<int16>
    requires o.pos <= |o.buffer|
  {
    o.buffer[..o.pos]
  }

  /** A missing codec or an empty batch: false, and nothing changes. */
  lemma RejectedCallChangesNothing(ready: bool, buffer: seq<int16>, pos: nat, pcm: seq<int16>, codec: Codec)
    requires RemainderFits(|buffer|, pos, |pcm|)
    requires !ready || pcm == []
    ensures var o := Accumulate(ready, buffer, pos, pcm, codec);
      !o.ok && o.buffer == buffer && o.pos == pos && o.codecInput == None && o.packet == None
  {
  }

  /** A batch shorter than the free space is appended at the fill position, without a codec call. */
  lemma ShortBatchIsAbsorbed(buffer: seq<int16>, pos: nat, pcm: seq<int16>, codec: Codec)
    requires pos <= |buffer| && 0 < |pcm| < |buffer| - pos
    ensures var o := Accumulate(true, buffer, pos, pcm, codec);
      && o.ok && o.codecInput == None && o.packet == None
      && o.pos == pos + |pcm|
      && o.buffer[..o.pos] == buffer[..pos] + pcm
      && o.buffer[o.pos..] == buffer[pos + |pcm|..]
  {
    var o := Accumulate(true, buffer, pos, pcm, codec);
    assert o.buffer == buffer[..pos] + pcm + buffer[pos + |pcm|..];
    assert o.buffer[..o.pos] == buffer[..pos] + pcm;
  }

  /**
   * A batch that fills the frame causes exactly one codec call, on the whole
   * frame: the buffered samples followed by the first `needed` samples of the
   * batch.  On success the packet is the codec's output, at most 1275 bytes.
   */
  lemma FullFrameIsEncodedOnce(buffer: seq<int16>, pos: nat, pcm: seq<int16>, codec: Codec)
    requires RemainderFits(|buffer|, pos, |pcm|)
    requires pcm != [] && |pcm| >= |buffer| - pos
    requires WellBehaved(codec)
    ensures var o := Accumulate(true, buffer, pos, pcm, codec);
      && o.codecInput == Some(buffer[..pos] + pcm[..|buffer| - pos])
      && |o.codecInput.value| == |buffer|
      && (o.ok <==> codec(o.codecInput.value).Encoded?)
      && (o.ok ==> o.packet == Some(codec(o.codecInput.value).bytes) && |o.packet.value| <= MaxPacketSize)
      && (!o.ok ==> o.packet == None)
  {
  }

  /** A codec error resets the fill position and reports failure. */
  lemma CodecErrorResetsPosition(buffer: seq<int16>, pos: nat, pcm: seq<int16>, codec: Codec)
    requires RemainderFits(|buffer|, pos, |pcm|)
    requires pcm != [] && |pcm| >= |buffer| - pos
    requires codec(buffer[..pos] + pcm[..|buffer| - pos]).CodecError?
    ensures var o := Accumulate(true, buffer, pos, pcm, codec);
      !o.ok && o.pos == 0 && o.packet == None
  {
  }

  /**
   * After a successful encode the rest of the batch is carried, in order, to
   * the start of the buffer; an exact fill leaves the buffer empty.
   */
  lemma RemainderIsCarried(buffer: seq<int16>, pos: nat, pcm: seq<int16>, codec: Codec)
    requires RemainderFits(|buffer|, pos, |pcm|)
    requires pcm != [] && |pcm| >= |buffer| - pos
    requires codec(buffer[..pos] + pcm[..|buffer| - pos]).Encoded?
    ensures var o := Accumulate(true, buffer, pos, pcm, codec);
      && o.ok
      && o.pos == |pcm| - (|buffer| - pos)
      && o.buffer[..o.pos] == pcm[|buffer| - pos..]
  {
    var o := Accumulate(true, buffer, pos, pcm, codec);
    var needed := |buffer| - pos;
    if |pcm| > needed {
      var frame := buffer[..pos] + pcm[..needed];
      var rest := pcm[needed..];
      assert o.buffer == rest + frame[|rest|..];
      assert o.buffer[..o.pos] == rest;
    }
  }

  /**
   * No sample is lost or reordered by a successful call: the frame handed to
   * the codec (if any) followed by the samples left pending is exactly the
   * samples pending before followed by the batch.
   */
  lemma {:induction false} SuccessfulCallPreservesStream(buffer: seq<int16>, pos: nat, pcm: seq<int16>, codec: Codec)
    requires RemainderFits(|buffer|, pos, |pcm|)
    requires pcm != []
    ensures var o := Accumulate(true, buffer, pos, pcm, codec);
      o.ok ==> (if o.codecInput.Some? then o.codecInput.value else []) + Pending(o) == buffer[..pos] + pcm
  {
    var o := Accumulate(true, buffer, pos, pcm, codec);
    var needed := |buffer| - pos;
    if o.ok {
      if |pcm| < needed {
        ShortBatchIsAbsorbed(buffer, pos, pcm, codec);
      } else {
        RemainderIsCarried(buffer, pos, pcm, codec);
        assert pcm == pcm[..needed] + pcm[needed..];
      }
    }
  }

  /**
   * Pushing a sequence of batches in order: the final accumulator, every
   * frame handed to the codec, and whether some call's remainder would not
   * have fitted the buffer (`overrun`).  The source copies that remainder
   * unchecked, past the end of the buffer; the run stops there.
   */
  datatype Run = Run(buffer: seq<int16>, pos: nat, frames: seq<seq<int16>>, overrun: bool)

  /** Each batch is at most one frame long: a simple condition under which no remainder overruns. */
  predicate BatchesFit(size: nat, batches: seq<seq<int16>>) {
    forall i :: 0 <= i < |batches| ==> |batches[i]| <= size
  }

  /** `Encode` called on each batch in turn, starting from a buffer filled up to `pos`. */
  function PushAll(buffer: seq<int16>, pos: nat, batches: seq<seq<int16>>, codec: Codec): (r: Run)
    requires pos <= |buffer|
    ensures |r.buffer| == |buffer| && r.pos <= |buffer|
    ensures BatchesFit(|buffer|, batches) ==> !r.overrun
    decreases |batches|
  {
    if batches == [] then Run(buffer, pos, [], false)
    else
      var init := batches[..|batches| - 1];
      var last := batches[|batches| - 1];
      assert BatchesFit(|buffer|, batches) ==> BatchesFit(|buffer|, init);
      var prev := PushAll(buffer, pos, init, codec);
      if prev.overrun then prev
      else if !RemainderFits(|prev.buffer|, prev.pos, |last|) then prev.(overrun := true)
      else
        var o := Accumulate(true, prev.buffer, prev.pos, last, codec);
        Run(o.buffer, o.pos, prev.frames + FramesOf(o), false)
  }

  /** Into an empty buffer, a batch of up to two frames is accepted without an overrun. */
  lemma TwoFrameBatchFits(buffer: seq<int16>, pcm: seq<int16>, codec: Codec)
    requires |pcm| <= 2 * |buffer|
    ensures !PushAll(buffer, 0, [pcm], codec).overrun
  {
    assert [pcm][..0] == [];
  }

  /** The frames one call hands to the codec, as a list of zero or one frames. */
  function FramesOf(o: Outcome): seq<seq<int16>> {
    if o.codecInput.Some? then [o.codecInput.value] else []
  }

  /** One call of a run: the stream is preserved and every frame is full, with a codec that never fails. */
  lemma StepPreservesStream(buffer: seq<int16>, pos: nat, pcm: seq<int16>, codec: Codec)
    requires RemainderFits(|buffer|, pos, |pcm|)
    requires NeverFails(codec)
    ensures var o := Accumulate(true, buffer, pos, pcm, codec);
      && (forall i :: 0 <= i < |FramesOf(o)| ==> |FramesOf(o)[i]| == |buffer|)
      && Concat(FramesOf(o)) + Pending(o) == buffer[..pos] + pcm
  {
    var o := Accumulate(true, buffer, pos, pcm, codec);
    if pcm == [] {
      assert Concat(FramesOf(o)) == [];
    } else {
      SuccessfulCallPreservesStream(buffer, pos, pcm, codec);
      if o.codecInput.Some? {
        assert FramesOf(o)[..0] == [];
        assert Concat(FramesOf(o)) == o.codecInput.value;
      } else {
        assert Concat(FramesOf(o)) == [];
      }
    }
  }

  /**
   * However the samples are chunked into batches, as long as no remainder
   * overruns the buffer and the codec never fails, the frames encoded are
   * consecutive full frames of the input stream and whatever is left stays
   * buffered: frames ++ pending == pending0 ++ batches.
   */
  lemma {:induction false} PushAllPreservesStream(buffer: seq<int16>, pos: nat, batches: seq<seq<int16>>, codec: Codec)
    requires pos <= |buffer| && !PushAll(buffer, pos, batches, codec).overrun
    requires NeverFails(codec)
    ensures var r := PushAll(buffer, pos, batches, codec);
      && (forall i :: 0 <= i < |r.frames| ==> |r.frames[i]| == |buffer|)
      && Concat(r.frames) + r.buffer[..r.pos] == buffer[..pos] + Concat(batches)
    decreases |batches|
  {
    if batches == [] {
      return;
    }
    var init := batches[..|batches| - 1];
    var last := batches[|batches| - 1];
    var prev := PushAll(buffer, pos, init, codec);
    PushAllPreservesStream(buffer, pos, init, codec);
    var o := Accumulate(true, prev.buffer, prev.pos, last, codec);
    StepPreservesStream(prev.buffer, prev.pos, last, codec);
    var r := PushAll(buffer, pos, batches, codec);
    assert r.frames == prev.frames + FramesOf(o) && r.buffer[..r.pos] == Pending(o);
    forall i | 0 <= i < |r.frames|
      ensures |r.frames[i]| == |buffer|
    {
      if i < |prev.frames| {
        assert r.frames[i] == prev.frames[i];
      } else {
        assert r.frames[i] == FramesOf(o)[i - |prev.frames|];
      }
    }
    ConcatAppend(prev.frames, FramesOf(o));
    assert batches == init + [last];
    ConcatAppend(init, [last]);
    assert Concat([last]) == last by { assert [last][..0] == []; }
    var done, step, pend := Concat(prev.frames), Concat(FramesOf(o)), Pending(o);
    assert Concat(r.frames) == done + step;
    assert step + pend == prev.buffer[..prev.pos] + last;
    assert done + prev.buffer[..prev.pos] == buffer[..pos] + Concat(init);
    assert Concat(batches) == Concat(init) + last;
    StreamAlgebra(done, step, pend, prev.buffer[..prev.pos], last, buffer[..pos], Concat(init));
  }

  lemma StreamAlgebra<T>(done: seq<T>, step: seq<T>, pend: seq<T>, prevPend: seq<T>, last: seq<T>, start: seq<T>, init: seq<T>)
    requires step + pend == prevPend + last
    requires done + prevPend == start + init
    ensures (done + step) + pend == start + (init + last)
  {
    calc {
      (done + step) + pend;
      done + (step + pend);
      done + (prevPend + last);
      (done + prevPend) + last;
      (start + init) + last;
    }
  }

  /**
   * Counting form of the stream property: the number of codec calls times the
   * frame length plus the samples left buffered equals the samples buffered
   * before plus all samples pushed; when the buffer is not exactly full at the
   * end, the number of codec calls is the quotient and the buffered count the
   * remainder of that total by the frame length.
   */
  lemma PushAllCountsFrames(buffer: seq<int16>, pos: nat, batches: seq<seq<int16>>, codec: Codec)
    requires pos <= |buffer| && !PushAll(buffer, pos, batches, codec).overrun
    requires NeverFails(codec)
    ensures var r := PushAll(buffer, pos, batches, codec);
      && |r.frames| * |buffer| + r.pos == pos + |Concat(batches)|
      && (r.pos < |buffer| ==>
            |r.frames| == (pos + |Concat(batches)|) / |buffer| &&
            r.pos == (pos + |Concat(batches)|) % |buffer|)
  {
    var r := PushAll(buffer, pos, batches, codec);
    PushAllPreservesStream(buffer, pos, batches, codec);
    FramesLength(r.frames, |buffer|);
    if r.pos < |buffer| {
      DivModUnique(|r.frames|, |buffer|, r.pos, pos + |Concat(batches)|);
    }
  }

  lemma {:induction false} FramesLength(frames: seq<seq<int16>>, n: nat)
    requires forall i :: 0 <= i < |frames| ==> |frames[i]| == n
    ensures |Concat(frames)| == |frames| * n
    decreases |frames|
  {
    if frames != [] {
      FramesLength(frames[..|frames| - 1], n);
    }
  }

  lemma DivModUnique(q: nat, n: nat, r: nat, total: nat)
    requires r < n && q * n + r == total
    ensures q == total / n && r == total % n
  {
    var q', r' := total / n, total % n;
    assert q' * n + r' == total;
    if q < q' {
      MulMonotone(q + 1, q', n);
    } else if q > q' {
      MulMonotone(q' + 1, q, n);
    }
  }

  lemma MulMonotone(a: nat, b: nat, n: nat)
    requires a <= b
    ensures a * n <= b * n
  {
    assert b * n == a * n + (b - a) * n;
  }

  /**
   * The accumulator around one Opus encoder instance: the codec handle (its
   * presence recorded by `encoderReady`), the frame buffer and its fill position.
   */
  class OpusEncoderWrapper {
    const encoderReady: bool
    const samplesPerFrame: nat
    const maxPacketSize: nat
    const bitrate: int
    const frameBuffer: array<int16>
    var framePos: nat
    /** The complexity the codec was last configured with. */
    var complexity: int
    /** Number of `OPUS_RESET_STATE` requests sent to the codec. */
    var codecResets: nat

    ghost predicate Valid()
      reads this
    {
      frameBuffer.Length == samplesPerFrame && framePos <= samplesPerFrame
    }

    /**
     * Creates the codec (`createOk` is whether `opus_encoder_create` succeeded).
     * On failure the constructor returns before sizing the buffer, so the
     * buffer stays empty; the numeric fields it would have set are 0 here.
     */
    constructor (sampleRate: nat, channels: int, frameDurationMs: nat, createOk: bool)
      ensures Valid() && fresh(frameBuffer)
      ensures encoderReady == createOk && framePos == 0 && codecResets == 0
      ensures createOk ==> samplesPerFrame == SamplesPerFrame(sampleRate, frameDurationMs)
      ensures createOk ==> maxPacketSize == MaxPacketSize
      ensures createOk ==> bitrate == InitialBitrate && complexity == InitialComplexity
      ensures !createOk ==> samplesPerFrame == 0
      ensures forall i :: 0 <= i < frameBuffer.Length ==> frameBuffer[i] == 0
    {
      encoderReady := createOk;
      framePos := 0;
      codecResets := 0;
      if !createOk {
        samplesPerFrame, maxPacketSize, bitrate, complexity := 0, 0, 0, 0;
        frameBuffer := new int16[0];
      } else {
        bitrate, complexity := InitialBitrate, InitialComplexity;
        samplesPerFrame := SamplesPerFrame(sampleRate, frameDurationMs);
        maxPacketSize := MaxPacketSize;
        frameBuffer := new int16[SamplesPerFrame(sampleRate, frameDurationMs)](_ => 0);
      }
    }

    /**
     * Adds a batch of samples.  Returns false for a missing codec, an empty
     * batch or a codec error; the packet is present only when a full frame was
     * encoded.  The batch's remainder after filling the frame must fit in the
     * buffer (the source copies it unchecked).
     */
    method Encode(pcm: seq<int16>, codec: Codec) returns (ok: bool, packet: Option<seq<uint8>>)
      requires Valid()
      requires encoderReady ==> RemainderFits(samplesPerFrame, framePos, |pcm|)
      modifies this`framePos, frameBuffer
      ensures Valid()
      ensures !encoderReady ==> !ok && packet == None && framePos == old(framePos) && frameBuffer[..] == old(frameBuffer[..])
      ensures encoderReady ==>
        var o := Accumulate(true, old(frameBuffer[..]), old(framePos), pcm, codec);
        frameBuffer[..] == o.buffer && framePos == o.pos && ok == o.ok && packet == o.packet
    {
      if !encoderReady {
        return false, None;
      }
      if |pcm| == 0 {
        return false, None;
      }
      ghost var before := frameBuffer[..];
      var needed := samplesPerFrame - framePos;
      if |pcm| < needed {
        CopyInto(frameBuffer, framePos, pcm);
        framePos := framePos + |pcm|;
        return true, None;
      }
      CopyInto(frameBuffer, framePos, pcm[..needed]);
      assert frameBuffer[..] == before[..framePos] + pcm[..needed];
      var result := codec(frameBuffer[..]);
      match result
      case CodecError(_) =>
        framePos := 0;
        return false, None;
      case Encoded(bytes) =>
        if |pcm| > needed {
          var remaining := |pcm| - needed;
          ghost var frame := frameBuffer[..];
          CopyInto(frameBuffer, 0, pcm[needed..]);
          assert frameBuffer[..] == pcm[needed..] + frame[remaining..];
          framePos := remaining;
        } else {
          framePos := 0;
        }
        return true, Some(bytes);
    }

    /** Requests a new complexity; `ctlOk` is whether the codec accepted it. */
    method SetComplexity(requested: int, ctlOk: bool)
      requires Valid()
      modifies this`complexity
      ensures Valid()
      ensures complexity == if encoderReady && ctlOk then ClampComplexity(requested) else old(complexity)
    {
      if !encoderReady {
        return;
      }
      var c := ClampComplexity(requested);
      if ctlOk {
        complexity := c;
      }
    }

    /** Resets the codec state (when there is a codec), empties and zeroes the frame buffer. */
    method Reset()
      requires Valid()
      modifies this`framePos, this`codecResets, frameBuffer
      ensures Valid()
      ensures codecResets == old(codecResets) + (if encoderReady then 1 else 0)
      ensures framePos == 0
      ensures forall i :: 0 <= i < frameBuffer.Length ==> frameBuffer[i] == 0
    {
      if encoderReady {
        codecResets := codecResets + 1;
      }
      framePos := 0;
      for i := 0 to frameBuffer.Length
        modifies frameBuffer
        invariant forall k :: 0 <= k < i ==> frameBuffer[k] == 0
      {
        frameBuffer[i] := 0;
      }
    }
  }

  /** `std::copy` of `src` into `dst` starting at index `at`. */
  method CopyInto(dst: array<int16>, at: nat, src: seq<int16>)
    requires at + |src| <= dst.Length
    modifies dst
    ensures dst[..] == old(dst[..at]) + src + old(dst[at + |src|..])
  {
    ghost var before := dst[..];
    for i := 0 to |src|
      invariant forall k :: 0 <= k < i ==> dst[at + k] == src[k]
      invariant forall k :: 0 <= k < dst.Length && !(at <= k < at + i) ==> dst[k] == before[k]
    {
      dst[at + i] := src[i];
    }
    assert dst[..] == before[..at] + src + before[at + |src|..];
  }
}
