/** The screen that waits for the device's verdict on the credentials: a message equal to one
    of two sentinels decides, and a timer re-armed by every new message turns silence into
    an error. */
module PendingScreen {
  import opened Common

  const SUCCESS: string := "SUCCESS"
  const FAILED: string := "FAILED"
  /** How long the screen waits after the latest message, in milliseconds. */
  const TIMEOUT_MS: nat := 60000

  datatype Verdict = Succeeded | Failed | Undecided

  /** The reaction effect's reading of the message: exact comparison with the two sentinels. */
  function Classify(message: Option<string>): Verdict {
    if message == Some(SUCCESS) then Succeeded
    else if message == Some(FAILED) then Failed
    else Undecided
  }

  /** The timer callback's test as the screen writes it: the message is falsy (missing or
      empty) or differs from both sentinels. It holds exactly when no sentinel was received. */
  function TimeoutIsError(message: Option<string>): (isError: bool)
    ensures isError <==> Classify(message) == Undecided
    ensures isError <==> message != Some(SUCCESS) && message != Some(FAILED)
  {
    message.None? || message.value == "" || (message.value != SUCCESS && message.value != FAILED)
  }

  /** The screen's state: the error flag, the message it last rendered with, when the one
      outstanding timer is due, and the navigation calls made so far. */
  datatype Pending = Pending(error: bool, message: Option<string>, timerDue: Option<nat>, navigation: seq<NavAction>)

  datatype PendingEvent =
    | Rendered(message: Option<string>, now: nat)
    | ClockAt(now: nat)
    | RetryPressed

  /** The reaction effect for a message. */
  function React(s: Pending, message: Option<string>): Pending {
    match Classify(message)
    case Succeeded => s.(navigation := s.navigation + [Navigate(ConfigurationSuccess)])
    case Failed => s.(error := true)
    case Undecided => s
  }

  /** The screen as it mounts with the current message: no error, the timer armed, and the
      reaction effect run once. */
  function Mount(message: Option<string>, now: nat): (s: Pending)
    ensures s.message == message && s.timerDue == Some(now + TIMEOUT_MS)
    ensures s.error <==> message == Some(FAILED)
    ensures s.navigation == (if message == Some(SUCCESS) then [Navigate(ConfigurationSuccess)] else [])
  {
    React(Pending(false, message, Some(now + TIMEOUT_MS), []), message)
  }

  /** One event on the screen. */
  function Step(s: Pending, e: PendingEvent): (r: Pending)
    // the flag is never cleared and navigation calls are only ever added
    ensures s.error ==> r.error
    ensures s.navigation <= r.navigation
    // a new message re-arms the timer; "SUCCESS" navigates, "FAILED" raises the error,
    // anything else does neither
    ensures e.Rendered? && e.message != s.message ==>
      && r.message == e.message && r.timerDue == Some(e.now + TIMEOUT_MS)
      && r.error == (s.error || e.message == Some(FAILED))
      && r.navigation == s.navigation + (if e.message == Some(SUCCESS) then [Navigate(ConfigurationSuccess)] else [])
    // an unchanged message runs no effect
    ensures e.Rendered? && e.message == s.message ==> r == s
    // the due timer raises the error exactly when no sentinel was received, and fires once
    ensures e.ClockAt? && s.timerDue.Some? && e.now >= s.timerDue.value ==>
      r == s.(timerDue := None, error := s.error || Classify(s.message) == Undecided)
    ensures e.ClockAt? && !(s.timerDue.Some? && e.now >= s.timerDue.value) ==> r == s
    // the retry button exists only in the error state, and goes back one screen
    ensures e.RetryPressed? ==> r == s.(navigation := s.navigation + (if s.error then [GoBack] else []))
  {
    match e
    case Rendered(message, now) =>
      if message == s.message then s
      else React(s.(message := message, timerDue := Some(now + TIMEOUT_MS)), message)
    case ClockAt(now) =>
      if s.timerDue.Some? && now >= s.timerDue.value
      then s.(timerDue := None, error := s.error || TimeoutIsError(s.message))
      else s
    case RetryPressed =>
      if s.error then s.(navigation := s.navigation + [GoBack]) else s
  }

  /** The screen after a sequence of events. */
  function Run(s: Pending, events: seq<PendingEvent>): Pending
    decreases |events|
  {
    if events == [] then s else Run(Step(s, events[0]), events[1..])
  }

  /** Once raised, the error flag stays raised, and no navigation call is ever undone. */
  lemma {:induction false} ErrorStaysRaised(s: Pending, events: seq<PendingEvent>)
    ensures s.error ==> Run(s, events).error
    ensures s.navigation <= Run(s, events).navigation
    decreases |events|
  {
    if events != [] {
      var t := Step(s, events[0]);
      ErrorStaysRaised(t, events[1..]);
    }
  }

  /** Without the error, no sequence of events goes back: the retry action needs the error. */
  lemma {:induction false} NoGoBackWithoutError(s: Pending, events: seq<PendingEvent>)
    requires GoBack !in s.navigation
    requires !Run(s, events).error
    ensures GoBack !in Run(s, events).navigation
    decreases |events|
  {
    if events != [] {
      var t := Step(s, events[0]);
      ErrorStaysRaised(t, events[1..]);
      NoGoBackWithoutError(t, events[1..]);
    }
  }

  class ConfigurationPendingScreen {
    var error: bool
    var message: Option<string>
    var timerDue: Option<nat>
    var navigation: seq<NavAction>

    function State(): Pending
      reads this
    {
      Pending(error, message, timerDue, navigation)
    }

    /** Mounting with the provider's current message at clock reading `now`. */
    constructor (message: Option<string>, now: nat)
      ensures State() == Mount(message, now)
    {
      this.error := false;
      this.message := message;
      this.timerDue := Some(now + TIMEOUT_MS);
      this.navigation := [];
      new;
      if message == Some(SUCCESS) {
        navigation := navigation + [Navigate(ConfigurationSuccess)];
      } else if message == Some(FAILED) {
        error := true;
      }
    }

    /** A render with the provider's current message: when it changed, the old timer is
        cancelled, a new one is armed and the reaction effect runs. */
    method Render(newMessage: Option<string>, now: nat)
      modifies this
      ensures State() == Step(old(State()), Rendered(newMessage, now))
    {
      if newMessage == message {
        return;
      }
      message := newMessage;
      timerDue := Some(now + TIMEOUT_MS);
      if newMessage == Some(SUCCESS) {
        navigation := navigation + [Navigate(ConfigurationSuccess)];
      } else if newMessage == Some(FAILED) {
        error := true;
      }
    }

    /** The clock reaches `now`; the outstanding timer fires if it is due. */
    method Tick(now: nat)
      modifies this
      ensures State() == Step(old(State()), ClockAt(now))
    {
      if timerDue.Some? && now >= timerDue.value {
        timerDue := None;
        if TimeoutIsError(message) {
          error := true;
        }
      }
    }

    /** A press on the retry button, which is shown only in the error state. */
    method PressRetry() returns (shown: bool)
      modifies this
      ensures shown == old(error)
      ensures State() == Step(old(State()), RetryPressed)
    {
      shown := error;
      if shown {
        navigation := navigation + [GoBack];
      }
    }
  }
}
