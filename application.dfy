/**
 * The application object: the device state, the two audio-service modes it
 * switches (voice processing and wake-word detection) and the alerts it
 * shows.  The assistant reaches these through its `app` reference.
 */
module Application {
  import opened States

  /** One call of `Application::Alert`: title, message, emotion. */
  datatype AlertEvent = AlertEvent(title: string, message: string, emotion: string)

  const ReadyAlert: AlertEvent := AlertEvent("系统就绪", "你好，我是小乐，随时可以拍照", "happy")
  const ListeningAlert: AlertEvent := AlertEvent("正在聆听", "请说出您的需求...", "neutral")

  /** The alerts `HandleAssistantStateChange` raises for a state: only Listening raises one. */
  function AlertsFor(s: AssistantState): (r: seq<AlertEvent>)
    ensures |r| <= 1
    ensures r != [] <==> s == Listening
    ensures r != [] ==> r[0] == ListeningAlert
  {
    if s == Listening then [ListeningAlert] else []
  }

  class Application {
    var state: DeviceState
    /** `AudioService::EnableVoiceProcessing` as last set. */
    var voiceProcessing: bool
    /** `AudioService::EnableWakeWordDetection` as last set. */
    var wakeWordDetection: bool
    var alerts: seq<AlertEvent>

    /** The device starts booting; the audio service starts with both modes off. */
    constructor ()
      ensures state == StateBooting
      ensures !voiceProcessing && !wakeWordDetection && alerts == []
    {
      state := StateBooting;
      voiceProcessing, wakeWordDetection := false, false;
      alerts := [];
    }

    /** Changes the device state; setting the current state again changes nothing. */
    method SetState(s: DeviceState)
      modifies this`state
      ensures state == s
    {
      if state != s {
        state := s;
      }
    }

    method Alert(title: string, message: string, emotion: string)
      modifies this`alerts
      ensures alerts == old(alerts) + [AlertEvent(title, message, emotion)]
    {
      alerts := alerts + [AlertEvent(title, message, emotion)];
    }

    /** Enters Idle, announces readiness and turns wake-word detection on. */
    method Start()
      modifies this`state, this`alerts, this`wakeWordDetection
      ensures state == StateIdle && wakeWordDetection
      ensures alerts == old(alerts) + [ReadyAlert]
    {
      SetState(StateIdle);
      Alert(ReadyAlert.title, ReadyAlert.message, ReadyAlert.emotion);
      wakeWordDetection := true;
    }

    /** The assistant's state-change callback: mirror the state, and alert on Listening. */
    method HandleAssistantStateChange(s: AssistantState)
      modifies this`state, this`alerts
      ensures state == DeviceStateFor(s)
      ensures alerts == old(alerts) + AlertsFor(s)
    {
      match s
      case Idle => SetState(StateIdle);
      case Listening =>
        SetState(StateListening);
        Alert(ListeningAlert.title, ListeningAlert.message, ListeningAlert.emotion);
      case Thinking => SetState(StateThinking);
      case CapturingPhoto => SetState(StateCapturingPhoto);
      case AnalyzingPhoto => SetState(StateAnalyzingPhoto);
      case GeneratingResponse => SetState(StateGeneratingResponse);
      case Speaking => SetState(StateSpeaking);
    }
  }
}
