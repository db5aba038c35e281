/**
 * The assistant's conversational states, the device states the application
 * shows, the mapping between them, and the notifications a sequence of
 * state changes produces.
 */
module States {
  import opened Samples

  /** `VoicePhotoAssistant::State`. */
  datatype AssistantState =
    | Idle
    | Listening
    | Thinking
    | CapturingPhoto
    | AnalyzingPhoto
    | GeneratingResponse
    | Speaking

  /** `DeviceState`, in the enum's order. */
  datatype DeviceState =
    | StateBooting
    | StateIdle
    | StateListening
    | StateThinking
    | StateSpeaking
    | StateCapturingPhoto
    | StateAnalyzingPhoto
    | StateGeneratingResponse
    | StateError

  /** The device state `HandleAssistantStateChange` sets for an assistant state: its namesake. */
  function DeviceStateFor(s: AssistantState): (d: DeviceState)
    ensures d != StateBooting && d != StateError
  {
    match s
    case Idle => StateIdle
    case Listening => StateListening
    case Thinking => StateThinking
    case CapturingPhoto => StateCapturingPhoto
    case AnalyzingPhoto => StateAnalyzingPhoto
    case GeneratingResponse => StateGeneratingResponse
    case Speaking => StateSpeaking
  }

  /** The assistant state a device state stands for, if any. */
  function AssistantStateFor(d: DeviceState): (s: Option<AssistantState>)
    ensures s.None? <==> d == StateBooting || d == StateError
  {
    match d
    case StateIdle => Some(Idle)
    case StateListening => Some(Listening)
    case StateThinking => Some(Thinking)
    case StateCapturingPhoto => Some(CapturingPhoto)
    case StateAnalyzingPhoto => Some(AnalyzingPhoto)
    case StateGeneratingResponse => Some(GeneratingResponse)
    case StateSpeaking => Some(Speaking)
    case _ => None
  }

  /** The mapping loses nothing: it has a left inverse, hence is injective. */
  lemma DeviceStateForIsInjective(a: AssistantState, b: AssistantState)
    ensures AssistantStateFor(DeviceStateFor(a)) == Some(a)
    ensures DeviceStateFor(a) == DeviceStateFor(b) ==> a == b
  {
  }

  /** The state after calling `SetState` with each of `targets` in turn, starting in `from`. */
  function FinalState(from: AssistantState, targets: seq<AssistantState>): AssistantState {
    if targets == [] then from else targets[|targets| - 1]
  }

  /**
   * The callback arguments produced by calling `SetState` with each of
   * `targets` in turn, starting in `from`: a call notifies only when its
   * target differs from the current state.
   */
  function Notifications(from: AssistantState, targets: seq<AssistantState>): seq<AssistantState>
    decreases |targets|
  {
    if targets == [] then []
    else
      var prev := FinalState(from, targets[..|targets| - 1]);
      var t := targets[|targets| - 1];
      Notifications(from, targets[..|targets| - 1]) + (if t != prev then [t] else [])
  }

  /** One more `SetState` call extends the notifications by at most its own target. */
  lemma NotificationsSnoc(from: AssistantState, targets: seq<AssistantState>, t: AssistantState)
    ensures Notifications(from, targets + [t]) ==
      Notifications(from, targets) + (if t != FinalState(from, targets) then [t] else [])
    ensures FinalState(from, targets + [t]) == t
  {
    assert (targets + [t])[..|targets|] == targets;
  }

  /** Running two sequences of calls one after the other concatenates their notifications. */
  lemma {:induction false} NotificationsAppend(from: AssistantState, xs: seq<AssistantState>, ys: seq<AssistantState>)
    ensures Notifications(from, xs + ys) == Notifications(from, xs) + Notifications(FinalState(from, xs), ys)
    ensures FinalState(from, xs + ys) == FinalState(FinalState(from, xs), ys)
    decreases |ys|
  {
    if ys == [] {
      assert xs + ys == xs;
    } else {
      var init := ys[..|ys| - 1];
      var t := ys[|ys| - 1];
      NotificationsAppend(from, xs, init);
      assert xs + ys == (xs + init) + [t];
      NotificationsSnoc(from, xs + init, t);
      NotificationsSnoc(FinalState(from, xs), init, t);
    }
  }

  /** Neighbouring targets differ, and the first differs from the starting state. */
  predicate ChangesEveryStep(from: AssistantState, targets: seq<AssistantState>) {
    && (targets != [] ==> targets[0] != from)
    && forall i :: 0 < i < |targets| ==> targets[i] != targets[i - 1]
  }

  /** When every call changes the state, every target is notified, in order. */
  lemma {:induction false} NotifiesEveryChange(from: AssistantState, targets: seq<AssistantState>)
    requires ChangesEveryStep(from, targets)
    ensures Notifications(from, targets) == targets
    decreases |targets|
  {
    if targets != [] {
      var init := targets[..|targets| - 1];
      assert ChangesEveryStep(from, init);
      NotifiesEveryChange(from, init);
      assert targets == init + [targets[|targets| - 1]];
    }
  }

  /**
   * Notifications never repeat: the first differs from the starting state,
   * neighbours differ, and the last one is the final state.
   */
  lemma {:induction false} NotificationsNeverRepeat(from: AssistantState, targets: seq<AssistantState>)
    ensures var n := Notifications(from, targets);
      && ChangesEveryStep(from, n)
      && (n != [] ==> n[|n| - 1] == FinalState(from, targets))
      && (n == [] ==> FinalState(from, targets) == from)
    decreases |targets|
  {
    if targets != [] {
      var init := targets[..|targets| - 1];
      NotificationsNeverRepeat(from, init);
    }
  }
}
