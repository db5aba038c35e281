/**
 * The voice-photo assistant: the conversational state machine.  Every state
 * change goes through `SetState`, which notifies the application (its
 * `HandleAssistantStateChange`) exactly when the state changes.  Camera
 * presence and the result of `Capture` are parameters.
 */
module Assistant {
  import opened States
  import A = Application
  import DoubaoApi
  import Text

  const CapturingAlert: A.AlertEvent := A.AlertEvent("正在拍照", "请保持稳定...", "happy")
  const CaptureFailedAlert: A.AlertEvent := A.AlertEvent("拍照失败", "无法拍照，请重试", "sad")
  const AnalyzingAlert: A.AlertEvent := A.AlertEvent("正在分析", "请稍候...", "neutral")
  /** The fixed analysis that stands in for the vision service's answer. */
  const MockAnalysis: string := "{\"description\":\"a cute cat is sitting on the table\"}"

  function ResultAlert(reply: string): A.AlertEvent {
    A.AlertEvent("分析结果", reply, "happy")
  }

  /** The states the photo path sets, in order, depending on whether a photo was captured. */
  function PhotoTargets(captured: bool): seq<AssistantState> {
    if captured then [CapturingPhoto, AnalyzingPhoto, GeneratingResponse, Speaking, Idle]
    else [CapturingPhoto, Idle]
  }

  /** The alerts the photo path raises itself. */
  function PhotoAlerts(captured: bool, reply: string): seq<A.AlertEvent> {
    if captured then [CapturingAlert, AnalyzingAlert, ResultAlert(reply)]
    else [CapturingAlert, CaptureFailedAlert]
  }

  /** None of the photo path's states is Listening, so the application adds no alert of its own. */
  lemma PhotoTargetsRaiseNoAppAlerts(captured: bool)
    ensures forall i :: 0 <= i < |PhotoTargets(captured)| ==> PhotoTargets(captured)[i] != Listening
  {
  }

  /**
   * A run of `SetState` calls whose first target is `first` and whose later
   * targets all change the state notifies `first` only if it is new, then
   * every later target.
   */
  lemma {:induction false} FirstMayRepeatThenEveryChange(from: AssistantState, first: AssistantState, rest: seq<AssistantState>)
    requires ChangesEveryStep(first, rest)
    ensures Notifications(from, [first] + rest) == (if from != first then [first] else []) + rest
  {
    NotificationsSnoc(from, [], first);
    assert [] + [first] == [first];
    NotificationsAppend(from, [first], rest);
    NotifiesEveryChange(first, rest);
  }

  /** The notifications `HandlePhotoIntent` promises are those of its `SetState` calls. */
  lemma PhotoPathNotifications(from: AssistantState, captured: bool)
    ensures Notifications(from, PhotoTargets(captured)) ==
      (if from != CapturingPhoto then [CapturingPhoto] else []) + PhotoTargets(captured)[1..]
  {
    var rest := PhotoTargets(captured)[1..];
    assert PhotoTargets(captured) == [CapturingPhoto] + rest;
    FirstMayRepeatThenEveryChange(from, CapturingPhoto, rest);
  }

  /** The notifications `ProcessUserSpeech` promises are those of its `SetState` calls. */
  lemma SpeechTurnNotifications(from: AssistantState, photo: bool, captured: bool)
    ensures var rest := if photo then PhotoTargets(captured) else [Idle];
      Notifications(from, [Thinking] + rest) == (if from != Thinking then [Thinking] else []) + rest
  {
    var rest := if photo then PhotoTargets(captured) else [Idle];
    FirstMayRepeatThenEveryChange(from, Thinking, rest);
  }

  /** Every turn ends where it started a wake-word cycle: Idle, and the last notification says so. */
  lemma SpeechTurnEndsIdle(from: AssistantState, photo: bool, captured: bool)
    ensures var n := Notifications(from, [Thinking] + (if photo then PhotoTargets(captured) else [Idle]));
      n != [] && n[|n| - 1] == Idle && ChangesEveryStep(from, n)
  {
    var targets := [Thinking] + (if photo then PhotoTargets(captured) else [Idle]);
    SpeechTurnNotifications(from, photo, captured);
    NotificationsNeverRepeat(from, targets);
  }

  class VoicePhotoAssistant {
    var state: AssistantState
    /** Arguments of every state-change callback, oldest first. */
    var notified: seq<AssistantState>
    /** Calls of the (empty) `SavePhotoContext`. */
    var photoContextSaves: nat
    const app: A.Application
    const doubao: DoubaoApi.DoubaoApiService

    /** The device state mirrors the assistant state. */
    ghost predicate Synced()
      reads this, app
    {
      app.state == DeviceStateFor(state)
    }

    constructor (app: A.Application, doubao: DoubaoApi.DoubaoApiService)
      ensures state == Idle && notified == [] && photoContextSaves == 0
      ensures this.app == app && this.doubao == doubao
    {
      state := Idle;
      notified := [];
      photoContextSaves := 0;
      this.app := app;
      this.doubao := doubao;
    }

    /** Changes the state; the callback runs, once, with the new state only when it differs. */
    method SetState(s: AssistantState)
      modifies this`state, this`notified, app`state, app`alerts
      ensures state == s
      ensures notified == old(notified) + (if old(state) != s then [s] else [])
      ensures old(state) != s ==> app.state == DeviceStateFor(s) && app.alerts == old(app.alerts) + A.AlertsFor(s)
      ensures old(state) == s ==> app.state == old(app.state) && app.alerts == old(app.alerts)
      ensures old(Synced()) ==> Synced()
    {
      if state != s {
        state := s;
        notified := notified + [s];
        app.HandleAssistantStateChange(s);
      }
    }

    /** Enters Listening, switches the audio service to voice capture. */
    method StartListening()
      modifies this`state, this`notified, app
      ensures state == Listening
      ensures notified == old(notified) + (if old(state) != Listening then [Listening] else [])
      ensures app.voiceProcessing && !app.wakeWordDetection
      ensures old(state) != Listening ==> app.state == StateListening && app.alerts == old(app.alerts) + [A.ListeningAlert]
      ensures old(state) == Listening ==> app.state == old(app.state) && app.alerts == old(app.alerts)
      ensures old(Synced()) ==> Synced()
    {
      SetState(Listening);
      app.voiceProcessing := true;
      app.wakeWordDetection := false;
    }

    /** A wake event starts listening from Idle and is ignored in every other state. */
    method OnWakeWord()
      modifies this`state, this`notified, app
      ensures old(state) == Idle ==>
        && state == Listening && notified == old(notified) + [Listening]
        && app.state == StateListening && app.alerts == old(app.alerts) + [A.ListeningAlert]
        && app.voiceProcessing && !app.wakeWordDetection
      ensures old(state) != Idle ==>
        && state == old(state) && notified == old(notified)
        && app.state == old(app.state) && app.alerts == old(app.alerts)
        && app.voiceProcessing == old(app.voiceProcessing) && app.wakeWordDetection == old(app.wakeWordDetection)
      ensures old(Synced()) ==> Synced()
    {
      if state == Idle {
        StartListening();
      }
    }

    /**
     * The recognised text arrives: think, then take the photo path iff the
     * intent is "拍照" (the text contains it), else the chat path.
     */
    method ProcessUserSpeech(text: string, cameraPresent: bool, captureOk: bool)
      modifies this, app
      ensures var photo := Text.Contains(text, DoubaoApi.PhotoIntent);
        var captured := cameraPresent && captureOk;
        && state == Idle && app.state == StateIdle && app.wakeWordDetection
        && app.voiceProcessing == (if photo then false else old(app.voiceProcessing))
        && notified == old(notified) + (if old(state) != Thinking then [Thinking] else []) + (if photo then PhotoTargets(captured) else [Idle])
        && app.alerts == old(app.alerts) + (if photo then PhotoAlerts(captured, DoubaoApi.AnalysisReply) else [])
        && photoContextSaves == old(photoContextSaves) + (if photo && captured then 1 else 0)
    {
      SetState(Thinking);
      var intent := doubao.DetectIntent(text);
      if intent == DoubaoApi.PhotoIntent {
        HandlePhotoIntent(text, cameraPresent, captureOk);
      } else {
        HandleChatIntent(text);
      }
    }

    /**
     * Pause both audio modes, capture, and on success analyse, answer and
     * speak; either way end in Idle with wake-word detection back on.
     */
    method HandlePhotoIntent(query: string, cameraPresent: bool, captureOk: bool)
      modifies this, app
      ensures state == Idle && app.state == StateIdle
      ensures !app.voiceProcessing && app.wakeWordDetection
      ensures notified == old(notified) + (if old(state) != CapturingPhoto then [CapturingPhoto] else [])
        + PhotoTargets(cameraPresent && captureOk)[1..]
      ensures app.alerts == old(app.alerts)
        + PhotoAlerts(cameraPresent && captureOk, doubao.GenerateResponseFromAnalysis(MockAnalysis, query))
      ensures photoContextSaves == old(photoContextSaves) + (if cameraPresent && captureOk then 1 else 0)
    {
      app.voiceProcessing := false;
      app.wakeWordDetection := false;

      SetState(CapturingPhoto);
      ghost var first := notified;
      ghost var alerts0 := app.alerts;
      app.Alert(CapturingAlert.title, CapturingAlert.message, CapturingAlert.emotion);

      if !cameraPresent || !captureOk {
        app.Alert(CaptureFailedAlert.title, CaptureFailedAlert.message, CaptureFailedAlert.emotion);
        SetState(Idle);
        assert notified == first + [Idle];
        assert app.alerts == alerts0 + [CapturingAlert, CaptureFailedAlert];
        app.wakeWordDetection := true;
        return;
      }

      ReportAnalysis(query);
    }

    /**
     * The part of the photo path after a successful capture: analyse (the
     * analysis is a fixed stand-in), generate the reply, speak it, return to
     * Idle with wake-word detection on, and save the photo context.
     */
    method ReportAnalysis(query: string)
      requires state == CapturingPhoto
      modifies this, app
      ensures state == Idle && app.state == StateIdle
      ensures app.voiceProcessing == old(app.voiceProcessing) && app.wakeWordDetection
      ensures notified == old(notified) + [AnalyzingPhoto, GeneratingResponse, Speaking, Idle]
      ensures app.alerts == old(app.alerts)
        + [AnalyzingAlert, ResultAlert(doubao.GenerateResponseFromAnalysis(MockAnalysis, query))]
      ensures photoContextSaves == old(photoContextSaves) + 1
    {
      SetState(AnalyzingPhoto);
      app.Alert(AnalyzingAlert.title, AnalyzingAlert.message, AnalyzingAlert.emotion);
      assert notified == old(notified) + [AnalyzingPhoto];
      assert app.alerts == old(app.alerts) + [AnalyzingAlert];

      var analysis := MockAnalysis;
      SetState(GeneratingResponse);
      var response := doubao.GenerateResponseFromAnalysis(analysis, query);
      assert notified == old(notified) + [AnalyzingPhoto, GeneratingResponse];

      SetState(Speaking);
      var result := ResultAlert(response);
      app.Alert(result.title, result.message, result.emotion);
      assert notified == old(notified) + [AnalyzingPhoto, GeneratingResponse, Speaking];

      SetState(Idle);
      assert notified == old(notified) + [AnalyzingPhoto, GeneratingResponse, Speaking, Idle];
      assert app.alerts == old(app.alerts) + [AnalyzingAlert, result];
      app.wakeWordDetection := true;
      SavePhotoContext(analysis, query);
    }

    /** The chat path: straight back to Idle with wake-word detection on. */
    method HandleChatIntent(query: string)
      modifies this`state, this`notified, app
      ensures state == Idle && app.wakeWordDetection
      ensures app.state == if old(state) != Idle then StateIdle else old(app.state)
      ensures old(Synced()) ==> Synced()
      ensures app.voiceProcessing == old(app.voiceProcessing)
      ensures notified == old(notified) + (if old(state) != Idle then [Idle] else [])
      ensures app.alerts == old(app.alerts)
    {
      SetState(Idle);
      app.wakeWordDetection := true;
    }

    /** An empty stub in the source; the model only counts its calls. */
    method SavePhotoContext(analysis: string, query: string)
      modifies this`photoContextSaves
      ensures photoContextSaves == old(photoContextSaves) + 1
    {
      photoContextSaves := photoContextSaves + 1;
    }
  }
}
