/**
 * The ESP32 camera (`Esp32Camera`): initialisation with up to three
 * configurations, the preview-size table, `Capture` with its 3 x 2 retry
 * policy over an abstract frame source and its byte-swapped preview copy,
 * and `Explain`'s chain of early errors and multipart/form-data upload.
 * The camera driver, the display and the HTTP client are parameters.
 */
module Camera {
  import opened Samples

  // ------------------------------------------------------------ configuration

  datatype PixelFormat = PixFormatRgb565 | PixFormatJpeg | OtherPixelFormat(code: int)

  datatype FrameSize =
    | FrameSizeSvga
    | FrameSizeVga
    | FrameSizeQvga
    | FrameSize128x128
    | FrameSize240x240
    | OtherFrameSize(code: int)

  /** The fields of `camera_config_t` the model needs. */
  datatype CameraConfig = CameraConfig(xclkFreqHz: int, pixelFormat: PixelFormat, frameSize: FrameSize)

  const ReducedClockHz: int := 10000000
  const InitAttempts: nat := 3

  /** The configuration tried on attempt `attempt`: 10 MHz clock on the second, RGB565 on the third. */
  function AdjustedConfig(config: CameraConfig, attempt: nat): (c: CameraConfig)
    ensures c.frameSize == config.frameSize
    ensures attempt == 1 ==> c == config.(xclkFreqHz := ReducedClockHz)
    ensures attempt == 2 ==> c == config.(pixelFormat := PixFormatRgb565)
    ensures attempt != 1 && attempt != 2 ==> c == config
  {
    if attempt == 1 then config.(xclkFreqHz := ReducedClockHz)
    else if attempt == 2 then config.(pixelFormat := PixFormatRgb565)
    else config
  }

  /** Initialisation attempt `k` works: `esp_camera_init` succeeded and a sensor was then found. */
  predicate Works(initOk: nat -> bool, sensorOk: nat -> bool, k: nat) {
    initOk(k) && sensorOk(k)
  }

  /** The number of initialisation attempts made: up to and including the first that works, at most three. */
  function AttemptsMade(initOk: nat -> bool, sensorOk: nat -> bool): (n: nat)
    ensures 1 <= n <= InitAttempts
  {
    if Works(initOk, sensorOk, 0) then 1 else if Works(initOk, sensorOk, 1) then 2 else 3
  }

  /** Initialisation succeeds iff some attempt works; it stops at the first, earlier ones all failed. */
  lemma InitStopsAtFirstSuccess(initOk: nat -> bool, sensorOk: nat -> bool)
    ensures var n := AttemptsMade(initOk, sensorOk);
      && (forall k: nat :: k < n - 1 ==> !Works(initOk, sensorOk, k))
      && (Works(initOk, sensorOk, n - 1) <==> exists k: nat :: k < InitAttempts && Works(initOk, sensorOk, k))
  {
    if exists k: nat :: k < InitAttempts && Works(initOk, sensorOk, k) {
      var k: nat :| k < InitAttempts && Works(initOk, sensorOk, k);
      assert k == 0 || k == 1 || k == 2;
    }
  }

  /** The attempts among the first `n` where `esp_camera_init` succeeded but no sensor was found. */
  ghost function SensorFailures(initOk: nat -> bool, sensorOk: nat -> bool, n: nat): set<nat> {
    set k: nat | k < n && initOk(k) && !sensorOk(k)
  }

  /**
   * The constructor's initialisation loop: returns whether some attempt
   * worked, the configurations tried and the number of `esp_camera_deinit`
   * calls made after a missing sensor.
   */
  method InitCamera(config: CameraConfig, initOk: nat -> bool, sensorOk: nat -> bool)
    returns (success: bool, tried: seq<CameraConfig>, deinits: nat)
    ensures var n := AttemptsMade(initOk, sensorOk);
      && tried == seq(n, k requires 0 <= k < n => AdjustedConfig(config, k))
      && success == Works(initOk, sensorOk, n - 1)
      && deinits == |SensorFailures(initOk, sensorOk, n)|
  {
    success, tried, deinits := false, [], 0;
    var attempt := 0;
    while attempt < 3 && !success
      invariant 0 <= attempt <= 3
      invariant tried == seq(attempt, k requires 0 <= k < attempt => AdjustedConfig(config, k))
      invariant success ==> attempt >= 1 && Works(initOk, sensorOk, attempt - 1)
      invariant success ==> AttemptsMade(initOk, sensorOk) == attempt
      invariant !success ==> forall k: nat :: k < attempt ==> !Works(initOk, sensorOk, k)
      invariant deinits == |SensorFailures(initOk, sensorOk, attempt)|
    {
      var adjusted := config;
      if attempt == 1 {
        adjusted := adjusted.(xclkFreqHz := ReducedClockHz);
      } else if attempt == 2 {
        adjusted := adjusted.(pixelFormat := PixFormatRgb565);
      }
      tried := tried + [adjusted];
      if initOk(attempt) && !sensorOk(attempt) {
        assert SensorFailures(initOk, sensorOk, attempt + 1) == SensorFailures(initOk, sensorOk, attempt) + {attempt};
        deinits := deinits + 1;
      } else {
        assert SensorFailures(initOk, sensorOk, attempt + 1) == SensorFailures(initOk, sensorOk, attempt);
      }
      if initOk(attempt) && sensorOk(attempt) {
        assert AttemptsMade(initOk, sensorOk) == attempt + 1;
        success := true;
      }
      attempt := attempt + 1;
    }
  }

  /** The preview's width and height for a frame size; unsupported sizes have none. */
  datatype Dims = Dims(width: nat, height: nat)

  function PreviewDims(size: FrameSize): (d: Option<Dims>)
    ensures d.None? <==> size.OtherFrameSize?
  {
    match size
    case FrameSizeSvga => Some(Dims(800, 600))
    case FrameSizeVga => Some(Dims(640, 480))
    case FrameSizeQvga => Some(Dims(320, 240))
    case FrameSize128x128 => Some(Dims(128, 128))
    case FrameSize240x240 => Some(Dims(240, 240))
    case OtherFrameSize(_) => None
  }

  /** Bytes per preview row: two per RGB565 pixel. */
  function PreviewStride(d: Dims): nat {
    d.width * 2
  }

  /** Bytes of the preview buffer: 0 for an unsupported size. */
  function PreviewDataSize(size: FrameSize): (n: nat)
    ensures size.OtherFrameSize? <==> n == 0
  {
    match PreviewDims(size)
    case None => 0
    case Some(d) => d.width * d.height * 2
  }

  /** The preview buffer holds exactly one RGB565 image: `height` rows of `stride` bytes. */
  lemma PreviewBufferHoldsImage(size: FrameSize)
    requires PreviewDims(size).Some?
    ensures var d := PreviewDims(size).value;
      PreviewDataSize(size) == PreviewStride(d) * d.height && PreviewDataSize(size) % 2 == 0
  {
  }

  // ----------------------------------------------------------------- capture

  /** A frame buffer from the driver: its dimensions and bytes (`len` is `|buf|`). */
  datatype Frame = Frame(width: nat, height: nat, buf: seq<uint8>)

  /** One sensor register write made by `Capture`. */
  datatype SensorWrite = SetHMirror(value: int) | SetVFlip(value: int) | SetBrightness(value: int)

  /** The settings reset before the last attempt: mirror off, flip off, brightness 0 then 1. */
  const ResetSequence: seq<SensorWrite> := [SetHMirror(0), SetVFlip(0), SetBrightness(0), SetBrightness(1)]

  /**
   * `source(k)` is what the `k`-th `esp_camera_fb_get` of one `Capture`
   * returns.  Attempt `r` fetches twice (indices `2r`, `2r + 1`), returning
   * the first frame before the second fetch, so only the second decides.
   */
  function FirstCapture(source: nat -> Option<Frame>): (r: Option<nat>)
    ensures r.Some? ==> r.value < 3 && source(2 * r.value + 1).Some?
    ensures r.Some? ==> forall a :: 0 <= a < r.value ==> source(2 * a + 1).None?
    ensures r.None? ==> forall a :: 0 <= a < 3 ==> source(2 * a + 1).None?
  {
    if source(1).Some? then Some(0)
    else if source(3).Some? then Some(1)
    else if source(5).Some? then Some(2)
    else None
  }

  /** The attempts `Capture` makes: up to the first success, else all three. */
  function CaptureAttempts(source: nat -> Option<Frame>): nat {
    match FirstCapture(source)
    case Some(r) => r + 1
    case None => 3
  }

  /** The settings are reset exactly when the first two attempts both fail. */
  predicate ResetsSettings(source: nat -> Option<Frame>) {
    source(1).None? && source(3).None?
  }

  /** Only the second fetch of each attempt counts: sources that agree on those capture alike. */
  lemma FirstFetchesDoNotMatter(source: nat -> Option<Frame>, other: nat -> Option<Frame>)
    requires forall a :: 0 <= a < 3 ==> source(2 * a + 1) == other(2 * a + 1)
    ensures FirstCapture(source) == FirstCapture(other)
    ensures ResetsSettings(source) == ResetsSettings(other)
  {
    assert source(2 * 0 + 1) == other(2 * 0 + 1);
    assert source(2 * 1 + 1) == other(2 * 1 + 1);
    assert source(2 * 2 + 1) == other(2 * 2 + 1);
  }

  /** The settings reset happens iff capture needs the third attempt or fails. */
  lemma ResetOnlyBeforeLastAttempt(source: nat -> Option<Frame>)
    ensures ResetsSettings(source) <==> CaptureAttempts(source) == 3
  {
  }

  /** The whole 16-bit words of the frame `Capture` keeps, if any, fit in `capacity` bytes. */
  predicate FramesFit(source: nat -> Option<Frame>, capacity: nat) {
    var r := FirstCapture(source);
    r.Some? ==> source(2 * r.value + 1).Some? && |source(2 * r.value + 1).value.buf| / 2 * 2 <= capacity
  }

  /** The preview image: each 16-bit word of the frame with its two bytes swapped (`__builtin_bswap16`). */
  function ByteSwapped(buf: seq<uint8>): (r: seq<uint8>)
    ensures |r| == |buf| / 2 * 2
  {
    seq(|buf| / 2 * 2, j requires 0 <= j < |buf| / 2 * 2 => if j % 2 == 0 then buf[j + 1] else buf[j - 1])
  }

  /** Swapping twice gives back every complete word of the frame. */
  lemma ByteSwapIsInvolution(buf: seq<uint8>)
    ensures ByteSwapped(ByteSwapped(buf)) == buf[..|buf| / 2 * 2]
  {
  }

  // ----------------------------------------------------------------- explain

  const Boundary: string := "----ESP32_CAMERA_BOUNDARY"

  const FailurePrefix: string := "{\"success\": false, \"message\": \""

  /** The JSON reply `Explain` gives on failure, carrying a message. */
  function FailureReply(message: string): (r: string)
    ensures |r| == |FailurePrefix| + |message| + 2
  {
    FailurePrefix + message + "\"}"
  }

  /** A failure reply starts with the prefix, and different messages give different replies. */
  lemma FailureReplyIsInjective(m1: string, m2: string)
    ensures FailureReply(m1)[..|FailurePrefix|] == FailurePrefix
    ensures FailureReply(m1) == FailureReply(m2) ==> m1 == m2
  {
    if FailureReply(m1) == FailureReply(m2) {
      assert m1 == FailureReply(m1)[|FailurePrefix|..|FailurePrefix| + |m1|];
      assert m2 == FailureReply(m2)[|FailurePrefix|..|FailurePrefix| + |m2|];
    }
  }

  const CaptureFailedMessage: string := "Failed to capture image from camera"
  const UrlNotSetMessage: string := "Image explain URL or token is not set"
  const QueueFailedMessage: string := "Failed to create JPEG queue"
  const ConnectFailedMessage: string := "Failed to connect to explain URL"
  const UploadFailedMessage: string := "Failed to upload photo"

  /** The five failure messages are pairwise distinct, so the replies tell the failures apart. */
  lemma FailureRepliesAreDistinct()
    ensures var all := [FailureReply(CaptureFailedMessage), FailureReply(UrlNotSetMessage),
                        FailureReply(QueueFailedMessage), FailureReply(ConnectFailedMessage),
                        FailureReply(UploadFailedMessage)];
      forall i, j :: 0 <= i < j < |all| ==> all[i] != all[j]
  {
    assert CaptureFailedMessage[0] != UrlNotSetMessage[0];
    assert CaptureFailedMessage[11] != QueueFailedMessage[11];
    assert CaptureFailedMessage[11] != ConnectFailedMessage[11];
    assert CaptureFailedMessage[10] != UploadFailedMessage[10];
    assert UrlNotSetMessage[0] != QueueFailedMessage[0];
    assert UrlNotSetMessage[0] != ConnectFailedMessage[0];
    assert UrlNotSetMessage[0] != UploadFailedMessage[0];
    assert QueueFailedMessage[11] != ConnectFailedMessage[11];
    assert QueueFailedMessage[10] != UploadFailedMessage[10];
    assert ConnectFailedMessage[10] != UploadFailedMessage[10];
    FailureReplyIsInjective(CaptureFailedMessage, UrlNotSetMessage);
    FailureReplyIsInjective(CaptureFailedMessage, QueueFailedMessage);
    FailureReplyIsInjective(CaptureFailedMessage, ConnectFailedMessage);
    FailureReplyIsInjective(CaptureFailedMessage, UploadFailedMessage);
    FailureReplyIsInjective(UrlNotSetMessage, QueueFailedMessage);
    FailureReplyIsInjective(UrlNotSetMessage, ConnectFailedMessage);
    FailureReplyIsInjective(UrlNotSetMessage, UploadFailedMessage);
    FailureReplyIsInjective(QueueFailedMessage, ConnectFailedMessage);
    FailureReplyIsInjective(QueueFailedMessage, UploadFailedMessage);
    FailureReplyIsInjective(ConnectFailedMessage, UploadFailedMessage);
  }

  /** A string of ASCII characters as the bytes the HTTP client sends. */
  function Ascii(s: string): (b: seq<uint8>)
    ensures |b| == |s|
  {
    seq(|s|, i requires 0 <= i < |s| => (s[i] as int % 256) as uint8)
  }

  /** The request headers `Explain` sets, in order; Authorization only with a token. */
  function RequestHeaders(deviceId: string, clientId: string, token: string): (h: seq<(string, string)>)
    ensures |h| == if token != [] then 5 else 4
    ensures token != [] ==> h[2] == ("Authorization", "Bearer " + token)
    ensures token == [] ==> forall i :: 0 <= i < |h| ==> h[i].0 != "Authorization"
    ensures ("Content-Type", "multipart/form-data; boundary=" + Boundary) in h
    ensures h[|h| - 1] == ("Transfer-Encoding", "chunked")
  {
    assert |"Device-Id"| != |"Authorization"| && |"Client-Id"| != |"Authorization"|;
    assert |"Content-Type"| != |"Authorization"| && |"Transfer-Encoding"| != |"Authorization"|;
    [("Device-Id", deviceId), ("Client-Id", clientId)]
    + (if token != [] then [("Authorization", "Bearer " + token)] else [])
    + [("Content-Type", "multipart/form-data; boundary=" + Boundary), ("Transfer-Encoding", "chunked")]
  }

  const DashBoundary: seq<uint8> := Ascii("--" + Boundary)
  const CrlfBytes: seq<uint8> := Ascii("\r\n")
  const CloseMark: seq<uint8> := Ascii("--")
  const QuestionDisposition: string := "Content-Disposition: form-data; name=\"question\""
  const FileDisposition: string := "Content-Disposition: form-data; name=\"file\"; filename=\"camera.jpg\""
  const JpegContentType: string := "Content-Type: image/jpeg"

  /** A body part (section 5.1.1 of RFC 2046): each header line ended by CRLF, an empty line, then the content. */
  function BodyPart(headers: seq<string>, content: seq<uint8>): seq<uint8>
    decreases |headers|
  {
    if headers == [] then CrlfBytes + content
    else Ascii(headers[0]) + CrlfBytes + BodyPart(headers[1..], content)
  }

  /**
   * A two-part multipart body without preamble (section 5.1.1 of RFC 2046):
   * dash boundary, CRLF, the first part, the delimiter (CRLF and dash
   * boundary), CRLF, the second part, the close delimiter (delimiter and
   * "--"), and the CRLF that opens the empty epilogue.
   */
  function MultipartBody(first: seq<uint8>, second: seq<uint8>): seq<uint8> {
    DashBoundary + CrlfBytes + first
    + CrlfBytes + DashBoundary + CrlfBytes + second
    + CrlfBytes + DashBoundary + CloseMark + CrlfBytes
  }

  /** The form field "question" (a `form-data` part of RFC 7578). */
  function QuestionPart(question: seq<uint8>): seq<uint8> {
    BodyPart([QuestionDisposition], question)
  }

  /** The form field "file": the JPEG image. */
  function FilePart(jpeg: seq<uint8>): seq<uint8> {
    BodyPart([FileDisposition, JpegContentType], jpeg)
  }

  /** The JPEG queue as the consumer sees it: chunks, `None` being the end marker. */
  predicate HasEndMarker(queue: seq<Option<seq<uint8>>>) {
    exists i :: 0 <= i < |queue| && queue[i].None?
  }

  /** The chunks received before the end marker. */
  function ChunksBeforeEnd(queue: seq<Option<seq<uint8>>>): seq<seq<uint8>>
    decreases |queue|
  {
    if queue == [] || queue[0].None? then [] else [queue[0].value] + ChunksBeforeEnd(queue[1..])
  }

  /** The question write: the first boundary, the part's header, the question and a CRLF. */
  function QuestionWrite(question: seq<uint8>): seq<uint8> {
    DashBoundary + CrlfBytes + Ascii(QuestionDisposition) + CrlfBytes + CrlfBytes + question + CrlfBytes
  }

  /** The file header write: the boundary and the file part's two header lines. */
  const FileHeaderWrite: seq<uint8> :=
    DashBoundary + CrlfBytes + Ascii(FileDisposition) + CrlfBytes + Ascii(JpegContentType) + CrlfBytes + CrlfBytes

  /** The footer write: the close delimiter and a CRLF. */
  const FooterWrite: seq<uint8> := CrlfBytes + DashBoundary + CloseMark + CrlfBytes

  /** The `http->Write` calls on the upload path, the last one of length zero. */
  function UploadWrites(question: seq<uint8>, chunks: seq<seq<uint8>>): seq<seq<uint8>> {
    [QuestionWrite(question), FileHeaderWrite] + chunks + [FooterWrite, []]
  }

  /** Regrouping the writes' pieces into the body's parts. */
  lemma MultipartLayout(d: seq<uint8>, c: seq<uint8>, m: seq<uint8>, qd: seq<uint8>, fd: seq<uint8>,
                        ct: seq<uint8>, q: seq<uint8>, j: seq<uint8>)
    ensures (d + c + qd + c + c + q + c) + (d + c + fd + c + ct + c + c) + j + (c + d + m + c)
         == d + c + (qd + c + (c + q)) + c + d + c + (fd + c + (ct + c + (c + j))) + c + d + m + c
  {
  }

  lemma ConcatSingleton(x: seq<uint8>)
    ensures Concat([x]) == x
  {
    assert [x][..0] == [];
  }

  /** The writes concatenate to the question write, the file header, the JPEG and the footer. */
  lemma UploadWritesConcat(question: seq<uint8>, chunks: seq<seq<uint8>>)
    ensures Concat(UploadWrites(question, chunks))
         == QuestionWrite(question) + FileHeaderWrite + Concat(chunks) + FooterWrite
  {
    var head := [QuestionWrite(question), FileHeaderWrite];
    var tail := [FooterWrite, []];
    assert UploadWrites(question, chunks) == head + chunks + tail;
    ConcatAppend(head + chunks, tail);
    ConcatAppend(head, chunks);
    assert [QuestionWrite(question)] + [FileHeaderWrite] == head;
    ConcatAppend([QuestionWrite(question)], [FileHeaderWrite]);
    assert [FooterWrite] + [[]] == tail;
    ConcatAppend([FooterWrite], [[]]);
    ConcatSingleton(QuestionWrite(question));
    ConcatSingleton(FileHeaderWrite);
    ConcatSingleton(FooterWrite);
    ConcatSingleton([]);
  }

  lemma PartsUnfold(question: seq<uint8>, jpeg: seq<uint8>)
    ensures QuestionPart(question) == Ascii(QuestionDisposition) + CrlfBytes + (CrlfBytes + question)
    ensures FilePart(jpeg) == Ascii(FileDisposition) + CrlfBytes + (Ascii(JpegContentType) + CrlfBytes + (CrlfBytes + jpeg))
  {
    assert [QuestionDisposition][1..] == [];
    assert BodyPart([], question) == CrlfBytes + question;
    assert BodyPart([QuestionDisposition], question) == Ascii(QuestionDisposition) + CrlfBytes + BodyPart([], question);
    assert [FileDisposition, JpegContentType][1..] == [JpegContentType];
    assert [JpegContentType][1..] == [];
    assert BodyPart([], jpeg) == CrlfBytes + jpeg;
    assert BodyPart([JpegContentType], jpeg) == Ascii(JpegContentType) + CrlfBytes + BodyPart([], jpeg);
    assert BodyPart([FileDisposition, JpegContentType], jpeg)
        == Ascii(FileDisposition) + CrlfBytes + BodyPart([JpegContentType], jpeg);
  }

  /**
   * The bytes written on the upload path are the two-part multipart body
   * of the question and the JPEG (its chunks in order), and the last write
   * is the empty one that ends the chunked request.
   */
  lemma UploadIsMultipartBody(question: seq<uint8>, chunks: seq<seq<uint8>>)
    ensures var w := UploadWrites(question, chunks);
      && Concat(w) == MultipartBody(QuestionPart(question), FilePart(Concat(chunks)))
      && w[|w| - 1] == []
  {
    UploadWritesConcat(question, chunks);
    PartsUnfold(question, Concat(chunks));
    MultipartLayout(DashBoundary, CrlfBytes, CloseMark, Ascii(QuestionDisposition), Ascii(FileDisposition),
                    Ascii(JpegContentType), question, Concat(chunks));
  }

  /**
   * The consumer side of the JPEG queue: takes chunks until the end marker,
   * writing each and counting the bytes sent.
   */
  method SendJpegChunks(queue: seq<Option<seq<uint8>>>) returns (written: seq<seq<uint8>>, totalSent: nat)
    requires HasEndMarker(queue)
    ensures written == ChunksBeforeEnd(queue)
    ensures totalSent == |Concat(written)|
  {
    written, totalSent := [], 0;
    var rest := queue;
    while true
      invariant HasEndMarker(rest)
      invariant ChunksBeforeEnd(queue) == written + ChunksBeforeEnd(rest)
      invariant totalSent == |Concat(written)|
      decreases |rest|
    {
      var chunk := rest[0];
      if chunk.None? {
        break;
      }
      ghost var k :| 0 <= k < |rest| && rest[k].None?;
      assert rest[1..][k - 1].None?;
      ConcatAppend(written, [chunk.value]);
      ConcatSingleton(chunk.value);
      totalSent := totalSent + |chunk.value|;
      written := written + [chunk.value];
      rest := rest[1..];
    }
  }

  // --------------------------------------------------------------- the object

  class Esp32Camera {
    const config: CameraConfig
    /** `camera_init_success` at the end of the constructor. */
    const initialized: bool
    /** The configurations passed to `esp_camera_init`, in order. */
    const configsTried: seq<CameraConfig>
    /** `esp_camera_deinit` calls after a sensor could not be configured. */
    const deinits: nat
    const previewWidth: nat
    const previewHeight: nat
    const previewStride: nat
    /** `preview_image_.data_size`. */
    const previewSize: nat
    /** `preview_image_.data != nullptr`. */
    const previewAllocated: bool
    const preview: array<uint8>

    /** The frame buffer currently held (`fb_`). */
    var fb: Option<Frame>
    /** Frames obtained from and given back to the driver. */
    var framesTaken: nat
    var framesReturned: nat
    /** `esp_camera_fb_get` calls, successful or not. */
    var fetchCalls: nat
    var sensorWrites: seq<SensorWrite>
    var explainUrl: string
    var explainToken: string

    /** At most one frame is out of the driver at a time: exactly the one held. */
    ghost predicate Valid()
      reads this
    {
      && framesTaken == framesReturned + (if fb.Some? then 1 else 0)
      && (previewAllocated ==> preview.Length == previewSize)
    }

    /**
     * Tries up to three configurations (`initOk(k)`: `esp_camera_init`
     * succeeded on attempt `k`; `sensorOk(k)`: a sensor was then found),
     * then sizes the preview from the frame-size table and allocates it
     * (`allocOk`).  Without a working attempt nothing else is set up.
     */
    constructor (config: CameraConfig, initOk: nat -> bool, sensorOk: nat -> bool, allocOk: bool)
      ensures Valid() && fb.None? && framesTaken == 0 && fetchCalls == 0 && sensorWrites == []
      ensures this.config == config && explainUrl == [] && explainToken == []
      ensures var n := AttemptsMade(initOk, sensorOk);
        && configsTried == seq(n, k requires 0 <= k < n => AdjustedConfig(config, k))
        && initialized == Works(initOk, sensorOk, n - 1)
        && deinits == |SensorFailures(initOk, sensorOk, n)|
      ensures initialized && PreviewDims(config.frameSize).Some? ==>
        var d := PreviewDims(config.frameSize).value;
        && previewWidth == d.width && previewHeight == d.height
        && previewStride == PreviewStride(d) && previewSize == PreviewDataSize(config.frameSize)
        && previewAllocated == allocOk
      ensures !(initialized && PreviewDims(config.frameSize).Some?) ==> previewSize == 0 && !previewAllocated
    {
      var success, tried, failedSensors := InitCamera(config, initOk, sensorOk);
      this.config := config;
      initialized := success;
      configsTried := tried;
      deinits := failedSensors;
      fb := None;
      framesTaken, framesReturned, fetchCalls := 0, 0, 0;
      sensorWrites := [];
      explainUrl, explainToken := [], [];
      var dims := if success then PreviewDims(config.frameSize) else None;
      if dims.None? {
        previewWidth, previewHeight, previewStride, previewSize := 0, 0, 0, 0;
        previewAllocated := false;
        preview := new uint8[0];
      } else {
        var d := dims.value;
        previewWidth, previewHeight := d.width, d.height;
        previewStride := d.width * 2;
        previewSize := d.width * d.height * 2;
        previewAllocated := allocOk;
        preview := new uint8[if allocOk then d.width * d.height * 2 else 0];
      }
    }

    method SetExplainUrl(url: string, token: string)
      modifies this`explainUrl, this`explainToken
      ensures explainUrl == url && explainToken == token
    {
      explainUrl := url;
      explainToken := token;
    }

    /** Returns the held frame to the driver, if any. */
    method ReturnFrame()
      requires Valid()
      modifies this`fb, this`framesReturned
      ensures Valid() && fb.None?
      ensures framesReturned == old(framesReturned) + (if old(fb).Some? then 1 else 0)
    {
      if fb.Some? {
        framesReturned := framesReturned + 1;
        fb := None;
      }
    }

    /** One `esp_camera_fb_get`, after the held frame was returned. */
    method FetchFrame(source: nat -> Option<Frame>, k: nat)
      requires Valid() && fb.None?
      modifies this`fb, this`framesTaken, this`fetchCalls
      ensures Valid() && fb == source(k) && fetchCalls == old(fetchCalls) + 1
    {
      fb := source(k);
      fetchCalls := fetchCalls + 1;
      if fb.Some? {
        framesTaken := framesTaken + 1;
      }
    }

    /** Copies the frame into the preview with the bytes of each 16-bit word swapped. */
    method CopyPreview(buf: seq<uint8>)
      requires |buf| / 2 * 2 <= preview.Length
      modifies preview
      ensures preview[..] == ByteSwapped(buf) + old(preview[..])[|buf| / 2 * 2..]
    {
      var pixels := |buf| / 2;
      var i := 0;
      while i < pixels
        invariant 0 <= i <= pixels
        invariant forall j :: 0 <= j < 2 * i ==> preview[j] == ByteSwapped(buf)[j]
        invariant forall j :: 2 * i <= j < preview.Length ==> preview[j] == old(preview[j])
      {
        preview[2 * i] := buf[2 * i + 1];
        preview[2 * i + 1] := buf[2 * i];
        i := i + 1;
      }
    }

    /**
     * `Capture` with `sensorPresent` for `esp_camera_sensor_get() != nullptr`,
     * `source` for the driver's frames and `displayPresent` for whether a
     * display exists.  The captured frame is held in `fb`.
     */
    method Capture(sensorPresent: bool, source: nat -> Option<Frame>, displayPresent: bool) returns (ok: bool)
      requires Valid()
      requires previewAllocated && previewSize > 0 && displayPresent ==> FramesFit(source, preview.Length)
      modifies this`fb, this`framesTaken, this`framesReturned, this`fetchCalls, this`sensorWrites, preview
      ensures Valid()
      ensures !sensorPresent ==>
        && !ok && fb == old(fb) && fetchCalls == old(fetchCalls) && sensorWrites == old(sensorWrites)
        && framesTaken == old(framesTaken) && preview[..] == old(preview[..])
      ensures sensorPresent ==>
        && ok == FirstCapture(source).Some?
        && fb == (if ok then source(2 * FirstCapture(source).value + 1) else None)
        && fetchCalls == old(fetchCalls) + 2 * CaptureAttempts(source)
        && sensorWrites == old(sensorWrites) + (if ResetsSettings(source) then ResetSequence else [])
      ensures sensorPresent && ok && previewAllocated && previewSize > 0 && displayPresent ==>
        preview[..] == ByteSwapped(fb.value.buf) + old(preview[..])[|fb.value.buf| / 2 * 2..]
      ensures !(sensorPresent && ok && previewAllocated && previewSize > 0 && displayPresent) ==>
        preview[..] == old(preview[..])
    {
      if !sensorPresent {
        return false;
      }
      ReturnFrame();
      ghost var calls0 := fetchCalls;
      ghost var writes0 := sensorWrites;
      var retry := 0;
      while retry < 3
        invariant 0 <= retry <= 3 && Valid()
        invariant fb.None? && forall a :: 0 <= a < retry ==> source(2 * a + 1).None?
        invariant fetchCalls == calls0 + 2 * retry
        invariant sensorWrites == writes0 + (if retry >= 2 then ResetSequence else [])
        invariant preview[..] == old(preview[..])
      {
        ghost var writes1 := sensorWrites;
        var i := 0;
        while i < 2
          invariant 0 <= i <= 2 && Valid() && sensorWrites == writes1
          invariant fetchCalls == calls0 + 2 * retry + i
          invariant i == 0 ==> fb.None?
          invariant i == 2 ==> fb == source(2 * retry + 1)
          invariant preview[..] == old(preview[..])
        {
          ReturnFrame();
          FetchFrame(source, 2 * retry + i);
          i := i + 1;
        }
        if fb.Some? {
          assert FirstCapture(source) == Some(retry);
          break;
        }
        if retry == 1 {
          sensorWrites := sensorWrites + ResetSequence;
        }
        retry := retry + 1;
      }
      if fb.None? {
        assert FirstCapture(source) == None;
        return false;
      }
      if previewSize > 0 && previewAllocated && displayPresent {
        var frame := fb.value;
        assert frame == source(2 * retry + 1).value;
        CopyPreview(frame.buf);
      }
      return true;
    }

    /**
     * `Explain`: capture first if no frame is held, then fail early on an
     * empty URL, a queue that cannot be created or a connection that cannot
     * be opened; otherwise upload the question and the JPEG chunks from
     * `queue` up to its end marker and answer with `response` when the
     * status is 200.  Returns the reply, the request headers, the bytes of
     * each `Write` call and the number of JPEG bytes sent.
     */
    method Explain(question: seq<uint8>, sensorPresent: bool, source: nat -> Option<Frame>, displayPresent: bool,
                   queueOk: bool, queue: seq<Option<seq<uint8>>>, deviceId: string, clientId: string,
                   openOk: bool, status: int, response: string)
      returns (result: string, headers: seq<(string, string)>, writes: seq<seq<uint8>>, totalSent: nat)
      requires Valid() && HasEndMarker(queue)
      requires previewAllocated && previewSize > 0 && displayPresent ==> FramesFit(source, preview.Length)
      modifies this`fb, this`framesTaken, this`framesReturned, this`fetchCalls, this`sensorWrites, preview
      ensures Valid()
      ensures old(fb).Some? ==>
        && fb == old(fb) && fetchCalls == old(fetchCalls) && sensorWrites == old(sensorWrites)
        && preview[..] == old(preview[..])
      ensures old(fb).None? ==>
        var captured := sensorPresent && FirstCapture(source).Some?;
        && fb == (if captured then source(2 * FirstCapture(source).value + 1) else None)
        && fetchCalls == old(fetchCalls) + (if sensorPresent then 2 * CaptureAttempts(source) else 0)
        && sensorWrites == old(sensorWrites) + (if sensorPresent && ResetsSettings(source) then ResetSequence else [])
        && (captured && previewAllocated && previewSize > 0 && displayPresent ==>
              preview[..] == ByteSwapped(fb.value.buf) + old(preview[..])[|fb.value.buf| / 2 * 2..])
        && (!(captured && previewAllocated && previewSize > 0 && displayPresent) ==>
              preview[..] == old(preview[..]))
      ensures var haveFrame := old(fb).Some? || (sensorPresent && FirstCapture(source).Some?);
        var connected := haveFrame && explainUrl != [] && queueOk;
        && (!haveFrame ==> result == FailureReply(CaptureFailedMessage))
        && (haveFrame && explainUrl == [] ==> result == FailureReply(UrlNotSetMessage))
        && (haveFrame && explainUrl != [] && !queueOk ==> result == FailureReply(QueueFailedMessage))
        && (connected ==> headers == RequestHeaders(deviceId, clientId, explainToken))
        && (connected && !openOk ==> result == FailureReply(ConnectFailedMessage))
        && (!(connected && openOk) ==> writes == [] && totalSent == 0)
        && (connected && openOk ==>
              && writes == UploadWrites(question, ChunksBeforeEnd(queue))
              && totalSent == |Concat(ChunksBeforeEnd(queue))|
              && result == if status != 200 then FailureReply(UploadFailedMessage) else response)
    {
      headers, writes, totalSent := [], [], 0;
      if fb.None? {
        var captured := Capture(sensorPresent, source, displayPresent);
        if !captured {
          return FailureReply(CaptureFailedMessage), headers, writes, totalSent;
        }
      }
      if explainUrl == [] {
        return FailureReply(UrlNotSetMessage), headers, writes, totalSent;
      }
      if !queueOk {
        return FailureReply(QueueFailedMessage), headers, writes, totalSent;
      }
      headers := RequestHeaders(deviceId, clientId, explainToken);
      if !openOk {
        return FailureReply(ConnectFailedMessage), headers, writes, totalSent;
      }
      var chunks;
      chunks, totalSent := SendJpegChunks(queue);
      writes := [QuestionWrite(question), FileHeaderWrite] + chunks + [FooterWrite, []];
      if status != 200 {
        return FailureReply(UploadFailedMessage), headers, writes, totalSent;
      }
      result := response;
    }
  }
}
