# A verified model of the lexin_iot voice-photo assistant core

This project models the sequential core of the lexin_iot firmware. The
device listens for a wake word, takes a spoken request, and either takes
and analyses a photo or falls back to chat. The model covers four parts:

- **Opus frame accumulator** (`OpusEncoder`). `OpusEncoderWrapper` collects
  PCM batches in a fixed frame buffer. It calls the codec once per full
  frame and carries the rest of the batch to the start of the buffer. The
  codec `opus_encode` is a parameter: a function from one frame to bytes
  or an error.
- **Wake-word engine bookkeeping** (`WakeWord`, `WakeWordConfig`).
  `AfeWakeWord` keeps a rolling history of at most 50 chunks. Its detection
  loop counts consecutive fetch errors and resets the AFE buffer
  periodically and on detection. The drain encodes the history into a
  packet queue that ends with an empty sentinel, and the consumer pops
  packets until it reaches that sentinel. Initialisation splits the wake
  words and builds the channel-format string.
- **Assistant state machine** (`States`, `Application`, `Assistant`,
  `DoubaoApi`, `Device`). `VoicePhotoAssistant` notifies the application
  exactly when its state changes. The application mirrors the state and
  raises the Listening alert. The photo path has a fixed sequence of
  states and alerts, plus a failure branch. The intent rule is a substring
  test.
- **Camera** (`Camera`). The `Esp32Camera` constructor tries up to three
  configurations and sizes the preview from the frame-size table.
  `Capture` follows a 3 × 2 retry policy over an abstract frame source and
  copies a byte-swapped preview. `Explain` has an ordered chain of early
  errors and writes a multipart/form-data upload (RFC 7578, with the
  delimiter syntax of section 5.1.1 of RFC 2046).

Mutable objects are Dafny classes with `modifies` frames:
- The frame buffer is an `array<int16>`.
- Queues and deques are `seq` fields.
- The preview image is an `array<uint8>`.

Each state-changing method is tied to a pure function of the old state
(`Accumulate`, `Store`, `Step`, `RunSteps`, `DrainedQueue`, `UntilSentinel`,
`FirstCapture`, `UploadWrites`). The properties are lemmas about those
functions.

Hardware, library and network results are parameters:
- The AFE fetch results and the tick counts.
- `esp_camera_init` and sensor detection, as `initOk` and `sensorOk`.
- The frames `esp_camera_fb_get` returns, as `source(k)`.
- Whether a camera or a display is present.
- Queue creation, the JPEG chunk stream, `Open`, the status code and the
  response body.

The source's observable calls are recorded as fields:
- AFE `reset_buffer` calls: `bufferResets`.
- Callback arguments: `notified`, `heard`.
- Alerts: `alerts`.
- Sensor register writes: `sensorWrites`.
- Frames taken from and returned to the driver: `framesTaken`,
  `framesReturned`.

The photo path's audio-mode switches are kept as the application's last
`voiceProcessing` and `wakeWordDetection` settings.

`DoubaoApiService` is a datatype. Its two fields are the keys passed to the
constructor, stored unchanged.

Observations the model makes explicit:
- The chat path never turns voice processing back off. After a chat turn
  the device is Idle with voice processing and wake-word detection both on
  (`Device.ChatTurn`).
- `AfeWakeWord::OnWakeWordDetected` compares the assistant's state with the
  names `kStateIdle` and `kStateSpeaking`. The model reads this by name:
  the detection proceeds in Idle or Speaking. The assistant itself then
  acts only from Idle.
- In the source, the assistant's state type differs between its header
  and its .cc file. The model follows the .cc file (`State::kIdle` …
  `State::kSpeaking`).

## Model

| member | source | states |
|---|---|---|
| Text.Find | main/services/doubao_api_service.cc:19 | the result is the first index at or after `from` where the pattern occurs, and `None` exactly when it occurs nowhere there |
| Text.FindDecidesContains | main/services/doubao_api_service.cc:19 | searching from 0 finds something iff the pattern is a substring |
| OpusEncoder.ClampComplexity | main/audio/opus_encoder_wrapper.cc:134-136 | the result lies in [0, 10]; an in-range argument is kept; values below go to 0 and values above to 10 |
| OpusEncoder.Accumulate | main/audio/opus_encoder_wrapper.cc:41-112 | one `Encode` call keeps the buffer length and leaves the position within the buffer |
| OpusEncoder.RejectedCallChangesNothing | main/audio/opus_encoder_wrapper.cc:42-51 | a missing encoder or an empty batch returns false with buffer, position, codec call and packet all unchanged or absent |
| OpusEncoder.ShortBatchIsAbsorbed | main/audio/opus_encoder_wrapper.cc:58-68 | a batch shorter than the free space is copied at the position, `pos` grows by its length, true is returned, and no codec call is made |
| OpusEncoder.FullFrameIsEncodedOnce | main/audio/opus_encoder_wrapper.cc:71-92 | a batch that fills the frame causes exactly one codec call on buffered samples plus the first `needed` samples; success iff the codec encodes; the packet is the codec's output of at most 1275 bytes |
| OpusEncoder.CodecErrorResetsPosition | main/audio/opus_encoder_wrapper.cc:85-89 | a codec error returns false, resets the position to 0, and gives no packet |
| OpusEncoder.RemainderIsCarried | main/audio/opus_encoder_wrapper.cc:98-110 | after a successful encode the rest of the batch is at the start of the buffer, in order, with `pos = |pcm| - needed` (0 on an exact fill) |
| OpusEncoder.SuccessfulCallPreservesStream | main/audio/opus_encoder_wrapper.cc:58-110 | on success, the frame encoded followed by the samples now pending equals the samples pending before followed by the batch |
| OpusEncoder.StepPreservesStream | main/audio/opus_encoder_wrapper.cc:58-110 | for any batch whose remainder fits, with a codec that never fails, every frame of one call is full and frames ++ pending == pending0 ++ batch |
| OpusEncoder.PushAll | main/audio/opus_encoder_wrapper.cc:41-112 | a run of calls on batches of any length keeps the buffer length and the position within bounds; it records an overrun, and stops, at the first call whose remainder does not fit; batches of at most one frame never overrun |
| OpusEncoder.TwoFrameBatchFits | main/audio/opus_encoder_wrapper.cc:71-110 | a batch of up to two frames pushed into an empty buffer causes no overrun |
| OpusEncoder.PushAllPreservesStream | main/audio/opus_encoder_wrapper.cc:58-110 | however the input is split into batches, provided no call overruns the buffer, the frames encoded are full, consecutive frames of the stream, and the rest stays buffered |
| OpusEncoder.PushAllCountsFrames | main/audio/opus_encoder_wrapper.cc:58-110 | for any run without an overrun: codec calls × frame length + samples buffered = samples before + samples pushed; when not exactly full, these are the quotient and remainder |
| OpusEncoder.OpusEncoderWrapper.constructor | main/audio/opus_encoder_wrapper.cc:6-28 | on creation: `samples_per_frame = rate*ms/1000`, a zero-filled buffer of that length, position 0, packet limit 1275, bitrate 16000, complexity 4; on failure an empty buffer |
| OpusEncoder.OpusEncoderWrapper.Encode | main/audio/opus_encoder_wrapper.cc:41-124 | the new buffer, position, result and packet are those of `Accumulate` on the old buffer; without an encoder nothing changes |
| OpusEncoder.OpusEncoderWrapper.SetComplexity | main/audio/opus_encoder_wrapper.cc:126-144 | with an encoder that accepts it, the complexity becomes the clamped request; otherwise it is unchanged |
| OpusEncoder.OpusEncoderWrapper.Reset | main/audio/opus_encoder_wrapper.cc:148-159 | the codec state is reset when there is a codec; the position becomes 0 and every sample 0 |
| OpusEncoder.CopyInto | main/audio/opus_encoder_wrapper.cc:101 | `std::copy`: the source lands at the offset and the rest of the array is unchanged |
| WakeWord.ElapsedIsForwardDistance | main/audio/wake_words/afe_wake_word.cc:195-196 | unsigned 32-bit tick subtraction is the forward distance, including across a wrap-around |
| WakeWord.Store | main/audio/wake_words/afe_wake_word.cc:227-237 | a bounded history stays within 50 chunks, and the new chunk is last |
| WakeWord.StoreKeepsNewest | main/audio/wake_words/afe_wake_word.cc:228-236 | one store keeps exactly the newest 50 chunks, oldest evicted first |
| WakeWord.StoreAllKeepsNewest | main/audio/wake_words/afe_wake_word.cc:228-236 | after any number of stores, the history is the newest 50 of everything stored, in order |
| WakeWord.FailedFetchCounts | main/audio/wake_words/afe_wake_word.cc:181-190 | a failed fetch increments the counter; the 6th in a row resets the AFE buffer and sets the counter to 0; nothing else changes |
| WakeWord.ConsecutiveFailures | main/audio/wake_words/afe_wake_word.cc:181-190 | after k failures from a clear counter, the counter is k mod 6 and there were k div 6 buffer resets |
| WakeWord.SuccessfulFetch | main/audio/wake_words/afe_wake_word.cc:192-221 | a fetch clears the counter and stores the samples; it resets iff more than the interval elapsed, restarting the interval; a detection stops the loop, resets, and reports `wake_words_[index-1]` to the callback if one is set |
| WakeWord.StoppedLoopIsIdle | main/audio/wake_words/afe_wake_word.cc:172-175 | with the running bit clear, any number of iterations change nothing |
| WakeWord.RunKeepsHistoryBounded | main/audio/wake_words/afe_wake_word.cc:162-223 | the history stays within 50 chunks through any run of the loop |
| WakeWord.EncodeAll | main/audio/wake_words/afe_wake_word.cc:264-283 | the drain keeps the encoder's bounds, never queues an empty packet, and records an overrun at the first chunk whose remainder does not fit (never when each chunk is at most one frame) |
| WakeWord.EncodeAllFollowsFrames | main/audio/wake_words/afe_wake_word.cc:264-283 | with a codec that always produces, the drain queues one packet per frame of the accumulator run, in order, and overruns exactly when that run does |
| WakeWord.DrainedPacketsFit | main/audio/wake_words/afe_wake_word.cc:265-275 | with a well-behaved codec, every queued packet is at most 1275 bytes |
| WakeWord.DrainCountsPackets | main/audio/wake_words/afe_wake_word.cc:263-290 | for a drain without an overrun, the queue is the packets plus one sentinel; packets × frame length + samples left = samples in the history |
| WakeWord.ConsumerReadsWholeDrain | main/audio/wake_words/afe_wake_word.cc:297-305 | a queue of non-empty packets and a sentinel: the consumer receives every packet, stops at the sentinel and empties the queue |
| WakeWord.DrainThenConsume | main/audio/wake_words/afe_wake_word.cc:252-305 | after a drain the consumer receives exactly the queued packets, none without an encoder, and leaves the queue empty |
| WakeWord.LastWakeNet | main/audio/wake_words/afe_wake_word.cc:42-45 | a setting that changed is one of the listed names, and that name contains the prefix "wn" |
| WakeWord.LastWakeNetIsLastMatch | main/audio/wake_words/afe_wake_word.cc:42-45 | the model left set is the last name containing "wn" |
| WakeWord.NoMatchCollectsNothing | main/audio/wake_words/afe_wake_word.cc:42-54 | when no name contains "wn", no words are collected and the model setting is kept |
| WakeWord.AfeWakeWord.constructor | main/audio/wake_words/afe_wake_word.cc:13-19 | no AFE, detection not running, empty history, packet queue and word list |
| WakeWord.AfeWakeWord.Start | main/audio/wake_words/afe_wake_word.cc:128-130 | sets the running bit |
| WakeWord.AfeWakeWord.Stop | main/audio/wake_words/afe_wake_word.cc:240-249 | clears the running bit and resets the AFE buffer exactly when there is an AFE |
| WakeWord.AfeWakeWord.GetFeedSize | main/audio/wake_words/afe_wake_word.cc:141-146 | 0 without an AFE, else the chunk size times the input channels |
| WakeWord.AfeWakeWord.StoreWakeWordData | main/audio/wake_words/afe_wake_word.cc:227-237 | the history becomes `Store` of the old history |
| WakeWord.AfeWakeWord.DetectionIteration | main/audio/wake_words/afe_wake_word.cc:172-222 | one loop pass changes the object and the loop's locals exactly as `Step` does |
| WakeWord.AfeWakeWord.AudioDetectionTask | main/audio/wake_words/afe_wake_word.cc:150-224 | a run of the loop from a clear counter ends in the state `RunSteps` gives |
| WakeWord.AfeWakeWord.EncodeWakeWordData | main/audio/wake_words/afe_wake_word.cc:251-295 | the queue becomes the drained packets plus the sentinel, and the history is empty |
| WakeWord.AfeWakeWord.GetWakeWordOpus | main/audio/wake_words/afe_wake_word.cc:297-305 | pops the front packet and returns false iff it is empty |
| WakeWord.AfeWakeWord.ReadWakeWordPackets | main/audio/wake_words/afe_wake_word.cc:297-305 | repeated pops receive the packets before the first empty one and leave what follows it |
| WakeWord.AfeWakeWord.Initialize | main/audio/wake_words/afe_wake_word.cc:33-80 | fails iff there is no model list or its count is -1, changing nothing; otherwise appends the words of every wake-net model, keeps the last one, and builds the M…R… format |
| WakeWord.AfeWakeWord.SplitWords | main/audio/wake_words/afe_wake_word.cc:47-52 | the result is the `getline` split of the word string |
| WakeWord.AfeWakeWord.OnWakeWordDetected | main/audio/wake_words/afe_wake_word.cc:83-99 | ignored unless the assistant is Idle or Speaking; otherwise the history is drained; from Idle the assistant and the application go to Listening with voice processing on and wake-word detection off; from any other state the assistant and the application, state and audio modes, are unchanged; a synced device stays synced |
| WakeWord.AfeWakeWord.OnWakeWordDetectedWithCallback | main/audio/wake_words/afe_wake_word.cc:102-126 | the same guard and the same effects on the assistant and the application; the callback, if set, receives "你好小智" |
| WakeWordConfig.Fields | main/audio/wake_words/afe_wake_word.cc:48-52 | splitting on ';' always yields at least one field |
| WakeWordConfig.FieldsHaveNoSeparator | main/audio/wake_words/afe_wake_word.cc:48-52 | no field contains ';' |
| WakeWordConfig.JoinFields | main/audio/wake_words/afe_wake_word.cc:48-52 | joining the fields with ';' gives back the string |
| WakeWordConfig.FieldsOfJoin | main/audio/wake_words/afe_wake_word.cc:48-52 | splitting a join of ';'-free words gives back the words |
| WakeWordConfig.GetlineSplitOfJoin | main/audio/wake_words/afe_wake_word.cc:48-52 | `getline` on a join of ';'-free words, the last non-empty, gives back the words |
| WakeWordConfig.GetlineSplitRecoversInput | main/audio/wake_words/afe_wake_word.cc:48-52 | the words `getline` yields, joined (with a trailing ';' when one was dropped), are the input |
| WakeWordConfig.SplitWakeWords | main/audio/wake_words/afe_wake_word.cc:48-52 | the loop's words are exactly the `getline` split |
| WakeWordConfig.BuildInputFormat | main/audio/wake_words/afe_wake_word.cc:56-62 | the format is `channels - ref` 'M's (none if negative) followed by `ref` 'R's |
| States.DeviceStateFor | main/application.cc:117-145 | an assistant state never maps to Booting or Error |
| States.AssistantStateFor | main/application.cc:117-145 | exactly Booting and Error have no assistant state |
| States.DeviceStateForIsInjective | main/application.cc:117-145 | the mapping has a left inverse, so it is injective |
| States.NotificationsSnoc | main/assistant/voice_photo_assistant.cc:18-25 | one more `SetState` notifies its target iff it differs from the current state |
| States.NotificationsAppend | main/assistant/voice_photo_assistant.cc:18-25 | two runs of calls in a row notify the concatenation of their notifications |
| States.NotifiesEveryChange | main/assistant/voice_photo_assistant.cc:18-25 | when every call changes the state, every target is notified, in order |
| States.NotificationsNeverRepeat | main/assistant/voice_photo_assistant.cc:18-25 | notifications never repeat a state, and the last is the final state |
| Application.AlertsFor | main/application.cc:124-128 | only Listening raises an alert, and it is "正在聆听" |
| Application.Application.constructor | main/application.cc:16 | the device starts Booting; the audio modes start off (an assumption, see below) |
| Application.Application.SetState | main/application.cc:75-80 | the state becomes the argument, so setting it again changes nothing |
| Application.Application.Alert | main/application.cc:94-99 | records one alert |
| Application.Application.Start | main/application.cc:54-73 | Idle, the ready alert, and wake-word detection on |
| Application.Application.HandleAssistantStateChange | main/application.cc:117-145 | the device state becomes the namesake of the assistant state, with the Listening alert |
| DoubaoApi.DoubaoApiService.DetectIntent | main/services/doubao_api_service.cc:13-26 | "拍照" iff the text contains "拍照", and "聊天" iff it does not |
| DoubaoApi.DoubaoApiService.GenerateResponseFromAnalysis | main/services/doubao_api_service.cc:28-40 | the reply is non-empty |
| DoubaoApi.ReplyIgnoresInputs | main/services/doubao_api_service.cc:36-38 | the reply is the same whatever the analysis and the question |
| DoubaoApi.RecognizedSpeechIsPhotoIntent | main/services/xunfei_stt_service.cc:24 | the recogniser's fixed "请拍照" is classified "拍照" |
| Assistant.PhotoTargetsRaiseNoAppAlerts | main/assistant/voice_photo_assistant.cc:77-108 | the photo path never enters Listening, so the application adds no alert of its own |
| Assistant.FirstMayRepeatThenEveryChange | main/assistant/voice_photo_assistant.cc:18-25 | a run whose later targets all change the state notifies the first target only if it is new, then every later one |
| Assistant.PhotoPathNotifications | main/assistant/voice_photo_assistant.cc:77-108 | the photo path's `SetState` calls notify CapturingPhoto (if new), then every later state |
| Assistant.SpeechTurnNotifications | main/assistant/voice_photo_assistant.cc:56-66 | a speech turn notifies Thinking (if new), then every state of the path taken |
| Assistant.SpeechTurnEndsIdle | main/assistant/voice_photo_assistant.cc:56-120 | every speech turn's last notification is Idle, and no notification repeats |
| Assistant.VoicePhotoAssistant.constructor | main/assistant/voice_photo_assistant.cc:8-16 | starts Idle with no notifications |
| Assistant.VoicePhotoAssistant.SetState | main/assistant/voice_photo_assistant.cc:18-25 | notifies once, with the new state, iff it differs; the application then mirrors it; a synced device stays synced |
| Assistant.VoicePhotoAssistant.StartListening | main/assistant/voice_photo_assistant.cc:33-40 | Listening, voice processing on, wake-word detection off |
| Assistant.VoicePhotoAssistant.OnWakeWord | main/assistant/voice_photo_assistant.cc:27-31 | Idle goes to Listening; in any other state nothing changes |
| Assistant.VoicePhotoAssistant.ProcessUserSpeech | main/assistant/voice_photo_assistant.cc:56-66 | Thinking, then the photo path iff the text contains "拍照", else chat; ends Idle with wake-word detection on, with the exact notifications and alerts |
| Assistant.VoicePhotoAssistant.HandlePhotoIntent | main/assistant/voice_photo_assistant.cc:68-113 | on capture failure: CapturingPhoto then Idle with the failure alert; on success: CapturingPhoto, AnalyzingPhoto, GeneratingResponse, Speaking, Idle with the three alerts and one context save; both modes paused, then wake-word detection on |
| Assistant.VoicePhotoAssistant.ReportAnalysis | main/assistant/voice_photo_assistant.cc:89-112 | the four states after a capture, the analysing and result alerts, and one context save |
| Assistant.VoicePhotoAssistant.HandleChatIntent | main/assistant/voice_photo_assistant.cc:115-120 | Idle and wake-word detection on; voice processing untouched |
| Assistant.VoicePhotoAssistant.SavePhotoContext | main/assistant/voice_photo_assistant.cc:122-125 | the empty stub is called; only calls are counted |
| Device.HandleWakeWord | main/application.cc:105-110 | forwarded to the assistant only while the device is Idle; otherwise nothing changes |
| Device.Boot | main/application.cc:20-73 | the assembled device is Idle, synced, with the ready alert and wake-word detection on |
| Device.PhotoTurn | main/assistant/voice_photo_assistant.cc:27-113 | from an Idle device the recognised "请拍照" gives notifications Listening, Thinking, then the photo path, and ends Idle and synced |
| Device.ChatTurn | main/assistant/voice_photo_assistant.cc:56-120 | a non-photo text gives Listening, Thinking, Idle, and leaves voice processing on |
| Camera.AdjustedConfig | main/boards/common/esp32_camera.cc:60-70 | attempt 1 changes only the clock, to 10 MHz; attempt 2 only the pixel format, to RGB565; otherwise the config is unchanged |
| Camera.AttemptsMade | main/boards/common/esp32_camera.cc:57 | between one and three attempts |
| Camera.InitStopsAtFirstSuccess | main/boards/common/esp32_camera.cc:57-92 | the attempts before the last all failed, and the last works iff any of the three would |
| Camera.InitCamera | main/boards/common/esp32_camera.cc:57-92 | the configurations tried are the adjusted ones up to the first success; success iff that attempt works; one deinit per attempt whose sensor was missing |
| Camera.PreviewDims | main/boards/common/esp32_camera.cc:105-131 | exactly the five listed sizes have preview dimensions |
| Camera.PreviewDataSize | main/boards/common/esp32_camera.cc:105-134 | the data size is 0 exactly for an unsupported size |
| Camera.PreviewBufferHoldsImage | main/boards/common/esp32_camera.cc:133-134 | data size = stride × height, with stride = 2 × width |
| Camera.FirstCapture | main/boards/common/esp32_camera.cc:186-211 | the successful attempt is the first of three whose second fetch gives a frame; none if all three fail |
| Camera.FirstFetchesDoNotMatter | main/boards/common/esp32_camera.cc:186-211 | only each attempt's second fetch decides the outcome and the settings reset |
| Camera.ResetOnlyBeforeLastAttempt | main/boards/common/esp32_camera.cc:214-221 | the settings reset happens iff the third attempt is reached |
| Camera.ByteSwapped | main/boards/common/esp32_camera.cc:238-243 | the preview covers `len/2` whole 16-bit words |
| Camera.ByteSwapIsInvolution | main/boards/common/esp32_camera.cc:238-243 | swapping twice gives back every whole word of the frame |
| Camera.FailureReply | main/boards/common/esp32_camera.cc:291 | the JSON failure text wraps its message |
| Camera.FailureReplyIsInjective | main/boards/common/esp32_camera.cc:291 | failure replies start `{"success": false`, and different messages give different replies |
| Camera.FailureRepliesAreDistinct | main/boards/common/esp32_camera.cc:286-422 | the five failure replies are pairwise distinct |
| Camera.RequestHeaders | main/boards/common/esp32_camera.cc:348-353 | Authorization is sent (as "Bearer " + token) iff the token is non-empty; the multipart boundary and chunked transfer are always set |
| Camera.UploadWritesConcat | main/boards/common/esp32_camera.cc:371-417 | the writes add up to the question write, file header, JPEG bytes and footer |
| Camera.UploadIsMultipartBody | main/boards/common/esp32_camera.cc:371-417 | the bytes written form the two-part RFC 2046 multipart body with the question and the JPEG; the last write is empty |
| Camera.SendJpegChunks | main/boards/common/esp32_camera.cc:391-404 | the chunks written are those before the first null chunk, in order, and `total_sent` is their total length |
| Camera.Esp32Camera.constructor | main/boards/common/esp32_camera.cc:53-140 | the init attempts as `InitCamera`; with success and a listed size, the preview has that size, stride 2w and data size 2wh; otherwise data size 0 |
| Camera.Esp32Camera.SetExplainUrl | main/boards/common/esp32_camera.cc:154-157 | stores the URL and the token |
| Camera.Esp32Camera.ReturnFrame | main/boards/common/esp32_camera.cc:173-176 | a held frame goes back to the driver, so no frame is held |
| Camera.Esp32Camera.FetchFrame | main/boards/common/esp32_camera.cc:189-194 | one `esp_camera_fb_get` call; its frame is held |
| Camera.Esp32Camera.CopyPreview | main/boards/common/esp32_camera.cc:238-243 | the preview begins with the byte-swapped words of the frame; the rest is unchanged |
| Camera.Esp32Camera.Capture | main/boards/common/esp32_camera.cc:159-250 | no sensor: false and nothing touched; else success as `FirstCapture`, 2 fetches per attempt, reset writes iff `ResetsSettings`, at most one frame out; the preview is copied only with buffer and display |
| Camera.Esp32Camera.Explain | main/boards/common/esp32_camera.cc:286-432 | in order: capture failure (only tried without a frame), empty URL, queue failure, open failure, then the upload writes, `total_sent` and the status check; a held frame, the fetch count, sensor writes and preview are kept; without one, the capture leaves them as `Capture` does and the captured frame stays held |

## Left out

- Concurrency. FreeRTOS tasks, event groups, queues, `std::thread`,
  mutexes and condition variables are left out. Producers' outputs (the
  JPEG chunks, the drain's packets) are finite sequences consumed in order.
- The `Explain` open-failure path joins the JPEG producer before draining
  its 40-slot queue. That can deadlock once the producer has more than 40
  chunks to send. A sequential model cannot show this, and the model makes
  no claim that this path is safe.
- Timing. `vTaskDelay`, `esp_timer_get_time` and the 100 ms spacing between
  captures are left out. The tick rate is a parameter of
  `AudioDetectionTask`.
- Platform constants. `OPUS_FRAME_DURATION_MS` is not defined in these
  sources, so the drain takes it as a parameter.
- The encoder's internal predictive state. `opus_encode` is a function of
  one frame, and `OPUS_RESET_STATE` is only counted.
- Exceptions. The try/catch blocks in `Encode` and in the drain are not
  modelled. Codec failure is the `CodecError` result.
- OpusEncoder.OpusEncoderWrapper.Encode: requires the remainder to fit
  (`|pcm| - needed <= samples_per_frame`). The source copies the remainder
  without checking and overruns the buffer otherwise.
- WakeWord.AfeWakeWord.EncodeWakeWordData: requires that no chunk's
  remainder overruns the drain encoder's buffer (`DrainFits`). This is the
  bound `Encode` requires, checked at each call's own position. The
  wrappers `OnWakeWordDetected` and `OnWakeWordDetectedWithCallback` carry
  the same requirement. The AFE's fetch size is not part of this model.
- OpusEncoder.PushAllPreservesStream: holds for runs without an overrun.
  After an overrun the source's behaviour is undefined, so `PushAll` stops
  modelling the run there.
- OpusEncoder.PushAllCountsFrames: the same scope as
  `PushAllPreservesStream`.
- WakeWord.DrainCountsPackets: holds for drains without an overrun
  (`DrainFits`), for the same reason.
- Application.Application.constructor: `AudioService` is not part of this
  model. Its voice-processing and wake-word-detection modes are assumed to
  start off. Only `Device.Boot`'s `!voiceProcessing` rests on this.
- WakeWord.AfeWakeWord.DetectionIteration: requires a detection's model
  index to lie in 1..|wake words|. The source indexes unchecked.
- Camera.Esp32Camera.Capture: requires the kept frame's whole words to fit
  the preview buffer when the preview is copied. The source copies `len/2`
  words unchecked.
- The AFE `feed` call (`Feed`), the AFE configuration fields and the
  destructors are left out.
- `Esp32Camera::SetHMirror` and `SetVFlip` are left out. They are single
  sensor calls outside the capture and upload sequencing.
- Camera.Esp32Camera.constructor: `detect_and_configure_camera` is reduced
  to "a sensor was found" (`sensorOk`). Its sensor writes are not recorded.
- Camera.Esp32Camera.constructor: when every init attempt fails, the source
  leaves the preview descriptor uninitialised. The model gives it size 0,
  unallocated.
- JPEG encoding (`frame2jpg_cb`) is left out. Its chunks are the `queue`
  input, and the producer's allocation failures are out of scope.
- The "Failed to receive JPEG chunk" branch is left out. The receive waits
  forever, so it does not fail.
- The HTTP exchange's `ReadAll` content is the `response` input. `Close`,
  the header values from `SystemInfo`/`Board` (here `deviceId` and
  `clientId`) and logging are not modelled further.
- Display calls (`SetStatus`, `ShowAlert`, `SetPreviewImage`) are left
  out. Alerts are recorded as events.
- The speech recogniser's task creation in `StartListening` is ill-formed
  code. It is modelled only as a later call of `ProcessUserSpeech` with the
  recognised text (`Device.PhotoTurn` uses the fixed "请拍照").
- Assistant.VoicePhotoAssistant.HandlePhotoIntent: the ensures give the
  audio modes' final settings. The moment both are switched off (before
  CapturingPhoto) is in the body but not stated as an event sequence.
- The vision service's analysis is its fixed result. `SavePhotoContext`
  is an empty stub, so only its calls are counted.
