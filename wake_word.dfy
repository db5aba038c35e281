/**
 * The wake-word engine's bookkeeping (`AfeWakeWord`): the rolling history of
 * PCM chunks, the detection task's loop, starting and stopping, the drain
 * that encodes the history into a queue of opus packets ending in an empty
 * sentinel, the consumer that pops that queue, and initialisation.  The AFE
 * is abstract: each loop iteration's fetch result and tick count are inputs,
 * and `reset_buffer` calls are counted.
 */
module WakeWord {
  import opened Samples
  import opened OpusEncoder
  import Text
  import WakeWordConfig
  import opened States
  import A = Application
  import As = Assistant

  /** `MAX_BUFFER_SIZE`: about 1.5 s of 30 ms chunks. */
  const MaxBufferSize: nat := 1500 / 30
  const MaxConsecutiveErrors: nat := 5
  const ResetIntervalMs: nat := 500
  /** `ESP_WN_PREFIX`, the name prefix of wake-net models. */
  const WakeNetPrefix: string := "wn"
  /** The word the callback overload of `OnWakeWordDetected` always reports. */
  const DefaultWakeWord: string := "你好小智"
  /** The drain's encoder: 16 kHz mono. */
  const DrainSampleRate: nat := 16000
  const TickModulus: int := 0x1_0000_0000

  /** `TickType_t`, a 32-bit unsigned tick count. */
  type Tick = x: int | 0 <= x < 0x1_0000_0000

  /** `pdMS_TO_TICKS`: the product is formed in the 32-bit tick type, so it wraps before the division. */
  function MsToTicks(ms: nat, tickRateHz: nat): Tick {
    ((ms * tickRateHz) % TickModulus) / 1000
  }

  /** `current_time - last_reset_time` in unsigned 32-bit arithmetic. */
  function Elapsed(now: Tick, last: Tick): Tick {
    (now - last) % TickModulus
  }

  /** The elapsed count is the forward distance on the tick counter, across a wrap-around too. */
  lemma ElapsedIsForwardDistance(now: Tick, last: Tick)
    ensures last <= now ==> Elapsed(now, last) == now - last
    ensures now < last ==> Elapsed(now, last) == now + TickModulus - last
    ensures (last + Elapsed(now, last)) % TickModulus == now
  {
  }

  // ---------------------------------------------------------------- history

  /** `StoreWakeWordData`: drop the oldest chunk when 50 are held, then append. */
  function Store(history: seq<seq<int16>>, chunk: seq<int16>): (h: seq<seq<int16>>)
    ensures |history| <= MaxBufferSize ==> |h| <= MaxBufferSize
    ensures |h| > 0 && h[|h| - 1] == chunk
  {
    if |history| >= MaxBufferSize then history[1..] + [chunk] else history + [chunk]
  }

  /** The last `n` elements of `s` (all of them when there are fewer). */
  function Newest<T>(s: seq<T>, n: nat): (r: seq<T>)
    ensures |r| == if |s| <= n then |s| else n
  {
    if |s| <= n then s else s[|s| - n..]
  }

  /** Storing into a bounded history keeps exactly the newest 50 chunks. */
  lemma StoreKeepsNewest(history: seq<seq<int16>>, chunk: seq<int16>)
    requires |history| <= MaxBufferSize
    ensures Store(history, chunk) == Newest(history + [chunk], MaxBufferSize)
  {
    if |history| >= MaxBufferSize {
      assert (history + [chunk])[1..] == history[1..] + [chunk];
    }
  }

  /** Storing several chunks, oldest first. */
  function StoreAll(history: seq<seq<int16>>, chunks: seq<seq<int16>>): seq<seq<int16>>
    decreases |chunks|
  {
    if chunks == [] then history
    else Store(StoreAll(history, chunks[..|chunks| - 1]), chunks[|chunks| - 1])
  }

  lemma NewestSnoc<T>(s: seq<T>, x: T, n: nat)
    requires n > 0
    ensures Newest(Newest(s, n) + [x], n) == Newest(s + [x], n)
  {
    if |s| > n {
      var t := s[|s| - n..];
      assert (t + [x])[1..] == (s + [x])[|s| + 1 - n..];
    }
  }

  /** However many chunks arrive, the history is the newest 50 of everything stored, in order. */
  lemma {:induction false} StoreAllKeepsNewest(history: seq<seq<int16>>, chunks: seq<seq<int16>>)
    requires |history| <= MaxBufferSize
    ensures StoreAll(history, chunks) == Newest(history + chunks, MaxBufferSize)
    decreases |chunks|
  {
    if chunks == [] {
      assert history + chunks == history;
    } else {
      var init := chunks[..|chunks| - 1];
      var last := chunks[|chunks| - 1];
      StoreAllKeepsNewest(history, init);
      var prev := StoreAll(history, init);
      StoreKeepsNewest(prev, last);
      NewestSnoc(history + init, last, MaxBufferSize);
      assert (history + init) + [last] == history + chunks;
    }
  }

  // ------------------------------------------------------- detection loop

  /** One `fetch`: null or `ESP_FAIL`, or a result with its samples and wake-net outcome. */
  datatype Fetch =
    | FetchFailed
    | Fetched(data: seq<int16>, wakeDetected: bool, modelIndex: int)

  /** One pass of the detection loop: the fetch it would make and the tick count it reads. */
  datatype Iteration = Iteration(fetch: Fetch, now: Tick)

  /**
   * The state the detection loop works on: the running bit, the loop's two
   * locals (`consecutive_errors`, `last_reset_time`) and the object's
   * history, `reset_buffer` count, last detected word and the words passed
   * to the detection callback.
   */
  datatype Detector = Detector(
    running: bool,
    errors: nat,
    lastReset: Tick,
    history: seq<seq<int16>>,
    bufferResets: nat,
    lastDetected: string,
    heard: seq<string>)

  /** A detection names a model by its 1-based index into the wake words. */
  predicate IndexInRange(it: Iteration, wordCount: nat) {
    it.fetch.Fetched? && it.fetch.wakeDetected ==> 1 <= it.fetch.modelIndex <= wordCount
  }

  predicate AllIndicesInRange(its: seq<Iteration>, wordCount: nat) {
    forall i :: 0 <= i < |its| ==> IndexInRange(its[i], wordCount)
  }

  /** One iteration of `AudioDetectionTask`'s loop, with the AFE present. */
  function Step(d: Detector, wakeWords: seq<string>, hasCallback: bool, interval: Tick, it: Iteration): Detector
    requires IndexInRange(it, |wakeWords|)
  {
    if !d.running then d
    else match it.fetch
      case FetchFailed =>
        if d.errors + 1 > MaxConsecutiveErrors then d.(errors := 0, bufferResets := d.bufferResets + 1)
        else d.(errors := d.errors + 1)
      case Fetched(data, detected, index) =>
        var periodic := Elapsed(it.now, d.lastReset) > interval;
        var d1 := d.(
          errors := 0,
          bufferResets := d.bufferResets + (if periodic then 1 else 0),
          lastReset := if periodic then it.now else d.lastReset,
          history := Store(d.history, data));
        if !detected then d1
        else
          var word := wakeWords[index - 1];
          d1.(
            bufferResets := d1.bufferResets + 2,
            running := false,
            lastDetected := word,
            heard := if hasCallback then d1.heard + [word] else d1.heard)
  }

  /** Several iterations in order. */
  function RunSteps(d: Detector, wakeWords: seq<string>, hasCallback: bool, interval: Tick, its: seq<Iteration>): Detector
    requires AllIndicesInRange(its, |wakeWords|)
    decreases |its|
  {
    if its == [] then d
    else
      var init := its[..|its| - 1];
      assert AllIndicesInRange(init, |wakeWords|);
      Step(RunSteps(d, wakeWords, hasCallback, interval, init), wakeWords, hasCallback, interval, its[|its| - 1])
  }

  /** A failed fetch counts an error; the 6th in a row resets the buffer and the counter instead. */
  lemma FailedFetchCounts(d: Detector, wakeWords: seq<string>, hasCallback: bool, interval: Tick, now: Tick)
    requires d.running && d.errors <= MaxConsecutiveErrors
    ensures var e := Step(d, wakeWords, hasCallback, interval, Iteration(FetchFailed, now));
      && e.errors == (d.errors + 1) % (MaxConsecutiveErrors + 1)
      && e.bufferResets == d.bufferResets + (if d.errors == MaxConsecutiveErrors then 1 else 0)
      && e.(errors := d.errors, bufferResets := d.bufferResets) == d
  {
  }

  function Failures(k: nat): seq<Iteration> {
    seq(k, _ => Iteration(FetchFailed, 0))
  }

  /**
   * After `k` consecutive failed fetches from a clear counter, the counter is
   * `k mod 6` and the buffer was reset `k div 6` times; nothing else changes.
   */
  lemma {:induction false} ConsecutiveFailures(d: Detector, wakeWords: seq<string>, hasCallback: bool, interval: Tick, k: nat)
    requires d.running && d.errors == 0
    ensures AllIndicesInRange(Failures(k), |wakeWords|)
    ensures RunSteps(d, wakeWords, hasCallback, interval, Failures(k)) ==
      d.(errors := k % (MaxConsecutiveErrors + 1), bufferResets := d.bufferResets + k / (MaxConsecutiveErrors + 1))
    decreases k
  {
    var n := MaxConsecutiveErrors + 1;
    if k > 0 {
      ConsecutiveFailures(d, wakeWords, hasCallback, interval, k - 1);
      assert Failures(k)[..k - 1] == Failures(k - 1);
      var prev := RunSteps(d, wakeWords, hasCallback, interval, Failures(k - 1));
      FailedFetchCounts(prev, wakeWords, hasCallback, interval, 0);
      var q, r := (k - 1) / n, (k - 1) % n;
      if r == MaxConsecutiveErrors {
        DivModUnique(q + 1, n, 0, k);
      } else {
        DivModUnique(q, n, r + 1, k);
      }
    }
  }

  /**
   * A successful fetch clears the counter, stores its samples, resets the
   * buffer periodically iff more than the interval has elapsed (then
   * restarting the interval), and on a detection stops the loop and reports
   * the detected model's word, to the callback when one is set.
   */
  lemma SuccessfulFetch(d: Detector, wakeWords: seq<string>, hasCallback: bool, interval: Tick, it: Iteration)
    requires d.running && it.fetch.Fetched? && IndexInRange(it, |wakeWords|)
    ensures var e := Step(d, wakeWords, hasCallback, interval, it);
      var periodic := Elapsed(it.now, d.lastReset) > interval;
      var detected := it.fetch.wakeDetected;
      && e.errors == 0
      && e.history == Store(d.history, it.fetch.data)
      && e.lastReset == (if periodic then it.now else d.lastReset)
      && e.bufferResets == d.bufferResets + (if periodic then 1 else 0) + (if detected then 2 else 0)
      && e.running == !detected
      && (detected ==> e.lastDetected == wakeWords[it.fetch.modelIndex - 1])
      && (!detected ==> e.lastDetected == d.lastDetected)
      && e.heard == d.heard + (if detected && hasCallback then [wakeWords[it.fetch.modelIndex - 1]] else [])
  {
  }

  /** While the running bit is clear, iterations do nothing at all. */
  lemma {:induction false} StoppedLoopIsIdle(d: Detector, wakeWords: seq<string>, hasCallback: bool, interval: Tick, its: seq<Iteration>)
    requires !d.running && AllIndicesInRange(its, |wakeWords|)
    ensures RunSteps(d, wakeWords, hasCallback, interval, its) == d
    decreases |its|
  {
    if its != [] {
      var init := its[..|its| - 1];
      assert AllIndicesInRange(init, |wakeWords|);
      StoppedLoopIsIdle(d, wakeWords, hasCallback, interval, init);
    }
  }

  /** The history stays within 50 chunks through any run. */
  lemma {:induction false} RunKeepsHistoryBounded(d: Detector, wakeWords: seq<string>, hasCallback: bool, interval: Tick, its: seq<Iteration>)
    requires |d.history| <= MaxBufferSize && AllIndicesInRange(its, |wakeWords|)
    ensures |RunSteps(d, wakeWords, hasCallback, interval, its).history| <= MaxBufferSize
    decreases |its|
  {
    if its != [] {
      var init := its[..|its| - 1];
      assert AllIndicesInRange(init, |wakeWords|);
      RunKeepsHistoryBounded(d, wakeWords, hasCallback, interval, init);
    }
  }

  // ------------------------------------------------------------ the drain

  /**
   * The encoder state and packets after encoding a list of chunks, empty
   * chunks skipped, and whether a chunk's remainder would have overrun the
   * encoder's buffer (the drain stops there).
   */
  datatype Drained = Drained(buffer: seq<int16>, pos: nat, packets: seq<seq<uint8>>, overrun: bool)

  /** A successful `Encode` yields a packet worth queueing only when it is present and non-empty. */
  function PacketOf(o: Outcome): seq<seq<uint8>> {
    if o.ok && o.packet.Some? && o.packet.value != [] then [o.packet.value] else []
  }

  /** The drain's loop on an encoder that exists, as a function of the chunks. */
  function EncodeAll(buffer: seq<int16>, pos: nat, chunks: seq<seq<int16>>, codec: Codec): (d: Drained)
    requires pos <= |buffer|
    ensures |d.buffer| == |buffer| && d.pos <= |buffer|
    ensures forall i :: 0 <= i < |d.packets| ==> d.packets[i] != []
    ensures BatchesFit(|buffer|, chunks) ==> !d.overrun
    decreases |chunks|
  {
    if chunks == [] then Drained(buffer, pos, [], false)
    else
      var init := chunks[..|chunks| - 1];
      assert BatchesFit(|buffer|, chunks) ==> BatchesFit(|buffer|, init);
      var prev := EncodeAll(buffer, pos, init, codec);
      var pcm := chunks[|chunks| - 1];
      if prev.overrun || pcm == [] then prev
      else if !RemainderFits(|prev.buffer|, prev.pos, |pcm|) then prev.(overrun := true)
      else
        var o := Accumulate(true, prev.buffer, prev.pos, pcm, codec);
        Drained(o.buffer, o.pos, prev.packets + PacketOf(o), false)
  }

  /** A drain that stays within bounds also did so on every prefix of the chunks. */
  lemma {:induction false} DrainPrefixFits(buffer: seq<int16>, pos: nat, chunks: seq<seq<int16>>, codec: Codec, j: nat)
    requires pos <= |buffer| && j <= |chunks|
    requires !EncodeAll(buffer, pos, chunks, codec).overrun
    ensures !EncodeAll(buffer, pos, chunks[..j], codec).overrun
    decreases |chunks|
  {
    if j < |chunks| {
      var init := chunks[..|chunks| - 1];
      assert chunks[..j] == init[..j];
      DrainPrefixFits(buffer, pos, init, codec, j);
    } else {
      assert chunks[..j] == chunks;
    }
  }

  function Zeros(n: nat): seq<int16> {
    seq(n, _ => 0)
  }

  /** The drain's encoder never has to copy a remainder past the end of its frame buffer. */
  predicate DrainFits(history: seq<seq<int16>>, frameDurationMs: nat, codec: Codec) {
    !EncodeAll(Zeros(SamplesPerFrame(DrainSampleRate, frameDurationMs)), 0, history, codec).overrun
  }

  /** What the packet queue holds once the drain has run: the packets, then the empty sentinel. */
  function DrainedQueue(history: seq<seq<int16>>, frameDurationMs: nat, createOk: bool, codec: Codec): seq<seq<uint8>> {
    var spf := SamplesPerFrame(DrainSampleRate, frameDurationMs);
    (if createOk then EncodeAll(Zeros(spf), 0, history, codec).packets else []) + [[]]
  }

  /** The codec never fails and never produces an empty packet. */
  ghost predicate AlwaysProduces(codec: Codec) {
    forall frame :: codec(frame).Encoded? && codec(frame).bytes != []
  }

  /** The bytes of a codec result; an error has none. */
  function BytesOf(r: CodecResult): seq<uint8> {
    if r.Encoded? then r.bytes else []
  }

  /** The packets a list of frames encodes to. */
  function PacketsOf(frames: seq<seq<int16>>, codec: Codec): (r: seq<seq<uint8>>)
    ensures |r| == |frames|
    decreases |frames|
  {
    if frames == [] then []
    else PacketsOf(frames[..|frames| - 1], codec) + [BytesOf(codec(frames[|frames| - 1]))]
  }

  /**
   * With a codec that always produces, the drain queues one packet per frame
   * of the accumulator run, in order, ends in the same accumulator state, and
   * overruns exactly when the accumulator run does.
   */
  lemma {:induction false} EncodeAllFollowsFrames(buffer: seq<int16>, pos: nat, chunks: seq<seq<int16>>, codec: Codec)
    requires pos <= |buffer|
    requires AlwaysProduces(codec)
    ensures var d := EncodeAll(buffer, pos, chunks, codec);
      var r := PushAll(buffer, pos, chunks, codec);
      && d.buffer == r.buffer && d.pos == r.pos && d.overrun == r.overrun
      && d.packets == PacketsOf(r.frames, codec)
    decreases |chunks|
  {
    if chunks != [] {
      var init := chunks[..|chunks| - 1];
      EncodeAllFollowsFrames(buffer, pos, init, codec);
      var r := PushAll(buffer, pos, init, codec);
      var pcm := chunks[|chunks| - 1];
      if !r.overrun && RemainderFits(|r.buffer|, r.pos, |pcm|) {
        var o := Accumulate(true, r.buffer, r.pos, pcm, codec);
        if o.codecInput.Some? {
          var f := o.codecInput.value;
          var frames := r.frames + [f];
          assert frames[..|frames| - 1] == r.frames;
        } else {
          assert r.frames + [] == r.frames;
        }
      }
    }
  }

  predicate PacketsFit(packets: seq<seq<uint8>>) {
    forall i :: 0 <= i < |packets| ==> |packets[i]| <= MaxPacketSize
  }

  /** A well-behaved codec's packets all fit the 1275-byte output buffer. */
  lemma {:induction false} DrainedPacketsFit(buffer: seq<int16>, pos: nat, chunks: seq<seq<int16>>, codec: Codec)
    requires pos <= |buffer|
    requires WellBehaved(codec)
    ensures PacketsFit(EncodeAll(buffer, pos, chunks, codec).packets)
    decreases |chunks|
  {
    if chunks != [] {
      var init := chunks[..|chunks| - 1];
      DrainedPacketsFit(buffer, pos, init, codec);
      var prev := EncodeAll(buffer, pos, init, codec);
      var pcm := chunks[|chunks| - 1];
      if !prev.overrun && pcm != [] && RemainderFits(|prev.buffer|, prev.pos, |pcm|) {
        var o := Accumulate(true, prev.buffer, prev.pos, pcm, codec);
        if |pcm| >= |prev.buffer| - prev.pos {
          FullFrameIsEncodedOnce(prev.buffer, prev.pos, pcm, codec);
        }
        assert forall i :: 0 <= i < |PacketOf(o)| ==> |PacketOf(o)[i]| <= MaxPacketSize;
        assert EncodeAll(buffer, pos, chunks, codec).packets == prev.packets + PacketOf(o);
      }
    }
  }

  // --------------------------------------------------------- the consumer

  /** The queue holds an empty packet somewhere, so a consumer popping it eventually stops. */
  predicate HasSentinel(q: seq<seq<uint8>>) {
    exists i :: 0 <= i < |q| && q[i] == []
  }

  /** The packets a consumer receives: those before the first empty one. */
  function UntilSentinel(q: seq<seq<uint8>>): seq<seq<uint8>>
    decreases |q|
  {
    if q == [] || q[0] == [] then [] else [q[0]] + UntilSentinel(q[1..])
  }

  /** What is left in the queue after the consumer popped the first empty packet. */
  function AfterSentinel(q: seq<seq<uint8>>): seq<seq<uint8>>
    decreases |q|
  {
    if q == [] then [] else if q[0] == [] then q[1..] else AfterSentinel(q[1..])
  }

  /** After a drain, the consumer receives every packet and then stops, with the queue emptied. */
  lemma {:induction false} ConsumerReadsWholeDrain(packets: seq<seq<uint8>>)
    requires forall i :: 0 <= i < |packets| ==> packets[i] != []
    ensures HasSentinel(packets + [[]])
    ensures UntilSentinel(packets + [[]]) == packets
    ensures AfterSentinel(packets + [[]]) == []
    decreases |packets|
  {
    assert (packets + [[]])[|packets|] == [];
    if packets != [] {
      ConsumerReadsWholeDrain(packets[1..]);
      assert (packets + [[]])[1..] == packets[1..] + [[]];
      assert [packets[0]] + packets[1..] == packets;
    }
  }

  /**
   * Draining and then consuming: the consumer receives exactly the packets
   * the drain encoded, in history order, and leaves the queue empty.
   */
  lemma DrainThenConsume(history: seq<seq<int16>>, frameDurationMs: nat, createOk: bool, codec: Codec)
    ensures var q := DrainedQueue(history, frameDurationMs, createOk, codec);
      && HasSentinel(q)
      && UntilSentinel(q) == q[..|q| - 1]
      && AfterSentinel(q) == []
      && (!createOk ==> UntilSentinel(q) == [])
  {
    var q := DrainedQueue(history, frameDurationMs, createOk, codec);
    var ps := q[..|q| - 1];
    assert q == ps + [[]];
    ConsumerReadsWholeDrain(ps);
  }

  /**
   * With a codec that always produces, the drain queues one packet per full
   * frame of the history's samples: packets times frame length plus the
   * samples left in the encoder is the history's sample count.
   */
  lemma DrainCountsPackets(history: seq<seq<int16>>, frameDurationMs: nat, codec: Codec)
    requires DrainFits(history, frameDurationMs, codec)
    requires AlwaysProduces(codec)
    ensures var spf := SamplesPerFrame(DrainSampleRate, frameDurationMs);
      var d := EncodeAll(Zeros(spf), 0, history, codec);
      && |DrainedQueue(history, frameDurationMs, true, codec)| == |d.packets| + 1
      && |d.packets| * spf + d.pos == |Concat(history)|
  {
    var spf := SamplesPerFrame(DrainSampleRate, frameDurationMs);
    assert forall frame :: codec(frame).Encoded?;
    EncodeAllFollowsFrames(Zeros(spf), 0, history, codec);
    PushAllCountsFrames(Zeros(spf), 0, history, codec);
  }

  // ------------------------------------------------------- initialisation

  /** The model list `esp_srmodel_init` returns: its count and names. */
  datatype ModelList = ModelList(num: int, names: seq<string>)

  /** The models the `for (i < num)` loop visits. */
  function ModelCount(models: ModelList): nat {
    if models.num > 0 then models.num else 0
  }

  /** `strstr(name, ESP_WN_PREFIX) != NULL`. */
  predicate IsWakeNet(name: string) {
    Text.Find(name, WakeNetPrefix, 0).Some?
  }

  /** The wake words collected from a list of model names, `wordsOf` being `esp_srmodel_get_wake_words`. */
  function WakeNetWords(names: seq<string>, wordsOf: string -> string): seq<string>
    decreases |names|
  {
    if names == [] then []
    else
      var last := names[|names| - 1];
      WakeNetWords(names[..|names| - 1], wordsOf)
        + (if IsWakeNet(last) then WakeWordConfig.GetlineSplit(wordsOf(last)) else [])
  }

  /** The wake-net model name left set after visiting the names: the last one that matches. */
  function LastWakeNet(names: seq<string>, current: Option<string>): (r: Option<string>)
    ensures r.Some? && r != current ==> exists i :: 0 <= i < |names| && r.value == names[i] && IsWakeNet(names[i])
    decreases |names|
  {
    if names == [] then current
    else if IsWakeNet(names[|names| - 1]) then Some(names[|names| - 1])
    else LastWakeNet(names[..|names| - 1], current)
  }

  /**
   * The model left set is the last name that contains the prefix; when no
   * name contains it, the previous setting stays.
   */
  lemma {:induction false} LastWakeNetIsLastMatch(names: seq<string>, current: Option<string>, i: nat)
    requires i < |names| && Text.Contains(names[i], WakeNetPrefix)
    requires forall j :: i < j < |names| ==> !Text.Contains(names[j], WakeNetPrefix)
    ensures LastWakeNet(names, current) == Some(names[i])
    decreases |names|
  {
    var n := |names| - 1;
    Text.FindDecidesContains(names[n], WakeNetPrefix);
    if i < n {
      var init := names[..n];
      assert init[i] == names[i];
      forall j | i < j < |init|
        ensures !Text.Contains(init[j], WakeNetPrefix)
      {
        assert init[j] == names[j];
      }
      LastWakeNetIsLastMatch(init, current, i);
    }
  }

  /** When no name contains the prefix, no words are collected and the model setting is kept. */
  lemma {:induction false} NoMatchCollectsNothing(names: seq<string>, wordsOf: string -> string, current: Option<string>)
    requires forall i :: 0 <= i < |names| ==> !Text.Contains(names[i], WakeNetPrefix)
    ensures WakeNetWords(names, wordsOf) == [] && LastWakeNet(names, current) == current
    decreases |names|
  {
    if names != [] {
      var n := |names| - 1;
      Text.FindDecidesContains(names[n], WakeNetPrefix);
      var init := names[..n];
      forall j | 0 <= j < |init|
        ensures !Text.Contains(init[j], WakeNetPrefix)
      {
        assert init[j] == names[j];
      }
      NoMatchCollectsNothing(init, wordsOf, current);
    }
  }

  /** The channel-format string: `mics` 'M's then `refNum` 'R's. */
  predicate IsInputFormat(format: string, inputChannels: int, refNum: nat) {
    var mics := if inputChannels - refNum > 0 then inputChannels - refNum else 0;
    && |format| == mics + refNum
    && (forall i :: 0 <= i < mics ==> format[i] == 'M')
    && (forall i :: mics <= i < |format| ==> format[i] == 'R')
  }

  // -------------------------------------------------------------- the object

  class AfeWakeWord {
    /** `afe_data_ != nullptr`. */
    var afeReady: bool
    /** The `DETECTION_RUNNING_EVENT` bit. */
    var running: bool
    /** `wake_word_pcm_`, oldest first. */
    var history: seq<seq<int16>>
    /** `wake_word_opus_`, front first. */
    var packets: seq<seq<uint8>>
    var wakeWords: seq<string>
    var wakenetModel: Option<string>
    var inputFormat: string
    var lastDetected: string
    /** Whether `wake_word_detected_callback_` is set. */
    var hasCallback: bool
    /** The words passed to the detection callback, oldest first. */
    var heard: seq<string>
    /** Number of `reset_buffer` calls on the AFE. */
    var bufferResets: nat

    constructor ()
      ensures !afeReady && !running && history == [] && packets == []
      ensures wakeWords == [] && wakenetModel == None && inputFormat == [] && lastDetected == []
      ensures !hasCallback && heard == [] && bufferResets == 0
    {
      afeReady, running := false, false;
      history, packets := [], [];
      wakeWords, wakenetModel, inputFormat, lastDetected := [], None, [], [];
      hasCallback, heard, bufferResets := false, [], 0;
    }

    /** The detection loop's view of the object, with the loop's locals. */
    function Snapshot(errors: nat, lastReset: Tick): Detector
      reads this
    {
      Detector(running, errors, lastReset, history, bufferResets, lastDetected, heard)
    }

    method Start()
      modifies this`running
      ensures running
    {
      running := true;
    }

    /** Clears the running bit and resets the AFE buffer when there is an AFE. */
    method Stop()
      modifies this`running, this`bufferResets
      ensures !running
      ensures bufferResets == old(bufferResets) + (if afeReady then 1 else 0)
    {
      running := false;
      if afeReady {
        bufferResets := bufferResets + 1;
      }
    }

    /** `GetFeedSize`: no AFE, no feed; else the AFE's chunk size times the input channels. */
    function GetFeedSize(feedChunkSize: nat, inputChannels: nat): (n: nat)
      reads this
      ensures !afeReady ==> n == 0
      ensures afeReady ==> n == feedChunkSize * inputChannels
    {
      if !afeReady then 0 else feedChunkSize * inputChannels
    }

    method StoreWakeWordData(data: seq<int16>)
      modifies this`history
      ensures history == Store(old(history), data)
    {
      if |history| >= MaxBufferSize {
        history := history[1..];
      }
      history := history + [data];
    }

    /** One iteration of the detection loop; `errors` and `lastReset` are the loop's locals. */
    method DetectionIteration(it: Iteration, errors: nat, lastReset: Tick, interval: Tick)
      returns (errors': nat, lastReset': Tick)
      requires afeReady && IndexInRange(it, |wakeWords|)
      modifies this`running, this`history, this`bufferResets, this`lastDetected, this`heard
      ensures Snapshot(errors', lastReset') == Step(old(Snapshot(errors, lastReset)), wakeWords, hasCallback, interval, it)
    {
      errors', lastReset' := errors, lastReset;
      if !running {
        return;
      }
      match it.fetch
      case FetchFailed =>
        errors' := errors' + 1;
        if errors' > MaxConsecutiveErrors {
          bufferResets := bufferResets + 1;
          errors' := 0;
        }
      case Fetched(data, detected, index) =>
        errors' := 0;
        if Elapsed(it.now, lastReset') > interval {
          bufferResets := bufferResets + 1;
          lastReset' := it.now;
        }
        StoreWakeWordData(data);
        if detected {
          bufferResets := bufferResets + 1;
          Stop();
          lastDetected := wakeWords[index - 1];
          if hasCallback {
            heard := heard + [lastDetected];
          }
        }
    }

    /**
     * `AudioDetectionTask` over a finite list of iterations, starting with a
     * clear counter and the reset clock at `startTick`.
     */
    method AudioDetectionTask(its: seq<Iteration>, startTick: Tick, tickRateHz: nat)
      returns (errors: nat, lastReset: Tick)
      requires afeReady && AllIndicesInRange(its, |wakeWords|)
      modifies this`running, this`history, this`bufferResets, this`lastDetected, this`heard
      ensures Snapshot(errors, lastReset) ==
        RunSteps(old(Snapshot(0, startTick)), wakeWords, hasCallback, MsToTicks(ResetIntervalMs, tickRateHz), its)
    {
      var interval := MsToTicks(ResetIntervalMs, tickRateHz);
      errors, lastReset := 0, startTick;
      var i := 0;
      while i < |its|
        invariant 0 <= i <= |its|
        invariant AllIndicesInRange(its[..i], |wakeWords|)
        invariant Snapshot(errors, lastReset) ==
          RunSteps(old(Snapshot(0, startTick)), wakeWords, hasCallback, interval, its[..i])
      {
        assert its[..i + 1][..i] == its[..i];
        errors, lastReset := DetectionIteration(its[i], errors, lastReset, interval);
        i := i + 1;
      }
      assert its[..i] == its;
    }

    /**
     * `EncodeWakeWordData`'s task, run to completion: clear the queue, encode
     * every non-empty chunk of the history with a fresh 16 kHz mono encoder at
     * complexity 0, queue the non-empty packets, clear the history and queue
     * the empty sentinel.  `createOk`/`ctlOk` are whether creating and
     * configuring the codec succeeded.  With a codec, no chunk's remainder may
     * overrun the encoder's buffer (`DrainFits`), since the copy is unchecked.
     */
    method EncodeWakeWordData(frameDurationMs: nat, createOk: bool, ctlOk: bool, codec: Codec)
      requires createOk ==> DrainFits(history, frameDurationMs, codec)
      modifies this`packets, this`history
      ensures history == []
      ensures packets == DrainedQueue(old(history), frameDurationMs, createOk, codec)
    {
      var spf := SamplesPerFrame(DrainSampleRate, frameDurationMs);
      packets := [];
      var encoder: OpusEncoderWrapper := new OpusEncoderWrapper(DrainSampleRate, 1, frameDurationMs, createOk);
      encoder.SetComplexity(0, ctlOk);
      assert encoder.frameBuffer[..] == Zeros(encoder.frameBuffer.Length);
      var i := 0;
      while i < |history|
        invariant 0 <= i <= |history|
        invariant encoder.Valid() && encoder.encoderReady == createOk
        invariant createOk ==> encoder.samplesPerFrame == spf
        invariant createOk ==>
          var d := EncodeAll(Zeros(spf), 0, history[..i], codec);
          encoder.frameBuffer[..] == d.buffer && encoder.framePos == d.pos && packets == d.packets
        invariant !createOk ==> packets == []
        modifies this`packets, encoder`framePos, encoder.frameBuffer
      {
        var pcm := history[i];
        assert history[..i + 1][..i] == history[..i];
        assert history[..i + 1][i] == pcm;
        if createOk {
          DrainPrefixFits(Zeros(spf), 0, history, codec, i + 1);
        }
        if pcm != [] {
          var ok, packet := encoder.Encode(pcm, codec);
          if ok && packet.Some? && packet.value != [] {
            packets := packets + [packet.value];
          }
        }
        i := i + 1;
      }
      assert history[..i] == history;
      history := [];
      packets := packets + [[]];
    }

    /** `GetWakeWordOpus` once a packet is queued: pop the front, report whether it is non-empty. */
    method GetWakeWordOpus() returns (opus: seq<uint8>, nonEmpty: bool)
      requires packets != []
      modifies this`packets
      ensures opus == old(packets)[0] && packets == old(packets)[1..]
      ensures nonEmpty <==> opus != []
    {
      opus := packets[0];
      packets := packets[1..];
      nonEmpty := opus != [];
    }

    /** The consumer's loop: call `GetWakeWordOpus` until it returns false. */
    method ReadWakeWordPackets() returns (received: seq<seq<uint8>>)
      requires HasSentinel(packets)
      modifies this`packets
      ensures received == UntilSentinel(old(packets))
      ensures packets == AfterSentinel(old(packets))
    {
      received := [];
      var more := true;
      while more
        invariant more ==> HasSentinel(packets)
        invariant more ==> UntilSentinel(old(packets)) == received + UntilSentinel(packets)
        invariant more ==> AfterSentinel(old(packets)) == AfterSentinel(packets)
        invariant !more ==> received == UntilSentinel(old(packets)) && packets == AfterSentinel(old(packets))
        decreases |packets|, more
      {
        ghost var q := packets;
        var opus;
        opus, more := GetWakeWordOpus();
        if more {
          ghost var k :| 0 <= k < |q| && q[k] == [];
          assert q[1..][k - 1] == [];
          received := received + [opus];
        }
      }
    }

    /**
     * `Initialize`: fails when there is no model list or its count is -1;
     * otherwise collects the wake words of every wake-net model, builds the
     * channel-format string and creates the AFE (`afeCreateOk`).
     */
    method Initialize(models: Option<ModelList>, wordsOf: string -> string, inputReference: bool,
                      inputChannels: int, afeCreateOk: bool) returns (ok: bool)
      requires models.Some? ==> ModelCount(models.value) <= |models.value.names|
      modifies this`wakeWords, this`wakenetModel, this`inputFormat, this`afeReady
      ensures ok <==> models.Some? && models.value.num != -1
      ensures !ok ==>
        && wakeWords == old(wakeWords) && wakenetModel == old(wakenetModel)
        && inputFormat == old(inputFormat) && afeReady == old(afeReady)
      ensures ok ==>
        var names := models.value.names[..ModelCount(models.value)];
        && wakeWords == old(wakeWords) + WakeNetWords(names, wordsOf)
        && wakenetModel == LastWakeNet(names, old(wakenetModel))
        && IsInputFormat(inputFormat, inputChannels, if inputReference then 1 else 0)
        && afeReady == afeCreateOk
    {
      var refNum: nat := if inputReference then 1 else 0;
      if models.None? || models.value.num == -1 {
        return false;
      }
      var list := models.value;
      var count := ModelCount(list);
      var i := 0;
      while i < count
        invariant 0 <= i <= count
        invariant wakeWords == old(wakeWords) + WakeNetWords(list.names[..i], wordsOf)
        invariant wakenetModel == LastWakeNet(list.names[..i], old(wakenetModel))
      {
        var name := list.names[i];
        assert list.names[..i + 1][..i] == list.names[..i];
        if Text.Find(name, WakeNetPrefix, 0).Some? {
          wakenetModel := Some(name);
          var words := SplitWords(wordsOf(name));
          wakeWords := wakeWords + words;
        }
        i := i + 1;
      }
      inputFormat := WakeWordConfig.BuildInputFormat(inputChannels, refNum);
      afeReady := afeCreateOk;
      ok := true;
    }

    /** The `std::getline` split of a model's word string. */
    static method SplitWords(words: string) returns (result: seq<string>)
      ensures result == WakeWordConfig.GetlineSplit(words)
    {
      result := WakeWordConfig.SplitWakeWords(words);
    }

    /**
     * The parameterless `OnWakeWordDetected`: ignored unless the assistant is
     * Idle or Speaking; otherwise the assistant handles the wake word and the
     * history is drained into the packet queue.
     */
    method OnWakeWordDetected(assistant: As.VoicePhotoAssistant, frameDurationMs: nat, createOk: bool, ctlOk: bool, codec: Codec)
      requires createOk ==> DrainFits(history, frameDurationMs, codec)
      modifies this`packets, this`history, assistant`state, assistant`notified, assistant.app
      ensures var proceed := old(assistant.state) == Idle || old(assistant.state) == Speaking;
        && (proceed ==> history == [] && packets == DrainedQueue(old(history), frameDurationMs, createOk, codec))
        && (!proceed ==> history == old(history) && packets == old(packets))
      ensures old(assistant.state) == Idle ==>
        && assistant.state == Listening && assistant.notified == old(assistant.notified) + [Listening]
        && assistant.app.alerts == old(assistant.app.alerts) + [A.ListeningAlert]
        && assistant.app.state == StateListening
        && assistant.app.voiceProcessing && !assistant.app.wakeWordDetection
      ensures old(assistant.state) != Idle ==>
        && assistant.state == old(assistant.state) && assistant.notified == old(assistant.notified)
        && assistant.app.alerts == old(assistant.app.alerts) && assistant.app.state == old(assistant.app.state)
        && assistant.app.voiceProcessing == old(assistant.app.voiceProcessing)
        && assistant.app.wakeWordDetection == old(assistant.app.wakeWordDetection)
      ensures old(assistant.Synced()) ==> assistant.Synced()
    {
      if assistant.state != Idle && assistant.state != Speaking {
        return;
      }
      assistant.OnWakeWord();
      EncodeWakeWordData(frameDurationMs, createOk, ctlOk, codec);
    }

    /**
     * The overload with a callback: the same guard; the callback, when
     * present, receives the fixed word "你好小智" before the assistant is told.
     */
    method OnWakeWordDetectedWithCallback(assistant: As.VoicePhotoAssistant, callbackSet: bool,
                                          frameDurationMs: nat, createOk: bool, ctlOk: bool, codec: Codec)
      returns (calledWith: Option<string>)
      requires createOk ==> DrainFits(history, frameDurationMs, codec)
      modifies this`packets, this`history, assistant`state, assistant`notified, assistant.app
      ensures var proceed := old(assistant.state) == Idle || old(assistant.state) == Speaking;
        && calledWith == (if proceed && callbackSet then Some(DefaultWakeWord) else None)
        && (proceed ==> history == [] && packets == DrainedQueue(old(history), frameDurationMs, createOk, codec))
        && (!proceed ==> history == old(history) && packets == old(packets))
      ensures old(assistant.state) == Idle ==>
        && assistant.state == Listening && assistant.notified == old(assistant.notified) + [Listening]
        && assistant.app.alerts == old(assistant.app.alerts) + [A.ListeningAlert]
        && assistant.app.state == StateListening
        && assistant.app.voiceProcessing && !assistant.app.wakeWordDetection
      ensures old(assistant.state) != Idle ==>
        && assistant.state == old(assistant.state) && assistant.notified == old(assistant.notified)
        && assistant.app.alerts == old(assistant.app.alerts) && assistant.app.state == old(assistant.app.state)
        && assistant.app.voiceProcessing == old(assistant.app.voiceProcessing)
        && assistant.app.wakeWordDetection == old(assistant.app.wakeWordDetection)
      ensures old(assistant.Synced()) ==> assistant.Synced()
    {
      calledWith := None;
      if assistant.state != Idle && assistant.state != Speaking {
        return;
      }
      var wakeWord := DefaultWakeWord;
      if callbackSet {
        calledWith := Some(wakeWord);
      }
      assistant.OnWakeWord();
      EncodeWakeWordData(frameDurationMs, createOk, ctlOk, codec);
    }
  }
}
