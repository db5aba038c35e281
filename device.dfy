/**
 * The wiring between the application and the assistant: the application's
 * wake-word handler, which needs both objects, and the boot sequence and
 * voice turns of the assembled device.
 */
module Device {
  import opened States
  import A = Application
  import As = Assistant
  import DoubaoApi
  import Text

  /** The wake-word callback: forwarded to the assistant only while the device is Idle. */
  method HandleWakeWord(app: A.Application, assistant: As.VoicePhotoAssistant)
    requires assistant.app == app
    modifies assistant`state, assistant`notified, app
    ensures old(app.state) == StateIdle && old(assistant.state) == Idle ==>
      && assistant.state == Listening && assistant.notified == old(assistant.notified) + [Listening]
      && app.state == StateListening && app.alerts == old(app.alerts) + [A.ListeningAlert]
      && app.voiceProcessing && !app.wakeWordDetection
    ensures !(old(app.state) == StateIdle && old(assistant.state) == Idle) ==>
      && assistant.state == old(assistant.state) && assistant.notified == old(assistant.notified)
      && app.state == old(app.state) && app.alerts == old(app.alerts)
      && app.voiceProcessing == old(app.voiceProcessing) && app.wakeWordDetection == old(app.wakeWordDetection)
  {
    if app.state == StateIdle {
      assistant.OnWakeWord();
    }
  }

  /**
   * Initialisation and start: the application boots, the assistant is
   * created in Idle with the application's callback, and `Start` brings the
   * device to Idle listening for the wake word.
   */
  method Boot(doubao: DoubaoApi.DoubaoApiService) returns (app: A.Application, assistant: As.VoicePhotoAssistant)
    ensures fresh(app) && fresh(assistant) && assistant.app == app && assistant.doubao == doubao
    ensures assistant.state == Idle && assistant.notified == [] && assistant.Synced()
    ensures app.wakeWordDetection && !app.voiceProcessing && app.alerts == [A.ReadyAlert]
  {
    app := new A.Application();
    assistant := new As.VoicePhotoAssistant(app, doubao);
    app.Start();
  }

  /**
   * One voice turn from a synchronised Idle device: the wake word is heard,
   * the recogniser's fixed result "请拍照" arrives, and the photo path runs.
   */
  method PhotoTurn(app: A.Application, assistant: As.VoicePhotoAssistant, cameraPresent: bool, captureOk: bool)
    requires assistant.app == app && assistant.state == Idle && assistant.Synced()
    modifies assistant, app
    ensures var captured := cameraPresent && captureOk;
      && assistant.state == Idle && assistant.Synced()
      && assistant.notified == old(assistant.notified) + [Listening, Thinking] + As.PhotoTargets(captured)
      && app.alerts == old(app.alerts) + [A.ListeningAlert]
        + As.PhotoAlerts(captured, DoubaoApi.AnalysisReply)
      && app.wakeWordDetection && !app.voiceProcessing
      && assistant.photoContextSaves == old(assistant.photoContextSaves) + (if captured then 1 else 0)
  {
    HandleWakeWord(app, assistant);
    DoubaoApi.RecognizedSpeechIsPhotoIntent(assistant.doubao);
    assert Text.Contains(DoubaoApi.RecognizedSpeech, DoubaoApi.PhotoIntent);
    assistant.ProcessUserSpeech(DoubaoApi.RecognizedSpeech, cameraPresent, captureOk);
  }

  /** A voice turn whose text does not ask for a photo: back to Idle, voice processing still on. */
  method ChatTurn(app: A.Application, assistant: As.VoicePhotoAssistant, text: string)
    requires assistant.app == app && assistant.state == Idle && assistant.Synced()
    requires !Text.Contains(text, DoubaoApi.PhotoIntent)
    modifies assistant, app
    ensures assistant.state == Idle && assistant.Synced()
    ensures assistant.notified == old(assistant.notified) + [Listening, Thinking, Idle]
    ensures app.alerts == old(app.alerts) + [A.ListeningAlert]
    ensures app.wakeWordDetection && app.voiceProcessing
  {
    HandleWakeWord(app, assistant);
    assistant.ProcessUserSpeech(text, false, false);
  }
}
