/**
  The view state of the App component: the contact form's status machine, the
  colour theme and the navigation menu. Every handler is a method of `App`
  proved against a pure transition function; asynchronous completions (the
  fetch settling, the 5-second reset timer) are events delivered to the same
  state, so interleavings can be stated and examined.
 */
module AppState {
  import opened Wrappers

  // ---------------------------------------------------------------- form

  datatype FormStatus = Idle | Loading | Succeeded | Failed

  /**
    The form's visible state and two counters the component does not keep but
    the runtime does: fetches not yet settled and reset timers not yet fired.
   */
  datatype FormState = FormState(status: FormStatus, errorMessage: string, inFlight: nat, pendingResets: nat)

  datatype FormEvent =
      /**
        The form's submit event. The browser fires it only once every field
        meets its `required`, `type="email"` and `minLength` constraints, and
        not through a disabled submit button.
       */
    | SubmitFired
      /** The fetch settled with a JSON body; `formReset` says whether clearing the form succeeded. */
    | Responded(success: bool, error: Option<string>, formReset: bool)
      /** The fetch or the decoding of its body threw. */
    | FetchFailed
    | ResetFired

  const FallbackError: string := "Failed to send message"
  const NetworkError: string := "Network error. Please check if the backend server is running."

  const InitialForm: FormState := FormState(Idle, "", 0, 0)

  /** The submit button is disabled exactly while the status is loading. */
  predicate SendDisabled(s: FormState) {
    s.status == Loading
  }

  /** An event can happen only if something is waiting for it. */
  predicate CanOccur(s: FormState, ev: FormEvent) {
    match ev
    case SubmitFired => true
    case Responded(_, _, _) => s.inFlight > 0
    case FetchFailed => s.inFlight > 0
    case ResetFired => s.pendingResets > 0
  }

  /** The message shown for an unsuccessful response: its error when that is a non-empty string. */
  function ResponseError(error: Option<string>): (m: string)
    ensures m != []
    ensures error.Some? && error.value != [] ==> m == error.value
    ensures error.None? || error.value == [] ==> m == FallbackError
  {
    if error.Some? && error.value != [] then error.value else FallbackError
  }

  /** The synchronous part of the submit handler: loading, no message, one more fetch. */
  function Submitted(s: FormState): FormState {
    FormState(Loading, [], s.inFlight + 1, s.pendingResets)
  }

  /**
    The form's transition on one event. It keeps the form's promises: loading
    means a fetch is pending and an error status has a message.
   */
  function Step(s: FormState, ev: FormEvent): (t: FormState)
    requires CanOccur(s, ev)
    ensures FormInv(s) ==> FormInv(t)
    ensures ev.ResetFired? ==> t.status == Idle
    ensures ev.FetchFailed? ==> t.status == Failed && t.errorMessage == NetworkError && t.inFlight == s.inFlight - 1
    ensures ev.SubmitFired? && !SendDisabled(s) ==> t.status == Loading && t.inFlight == s.inFlight + 1
  {
    match ev
    case SubmitFired =>
      if SendDisabled(s) then s else Submitted(s)
    case Responded(success, error, formReset) =>
      if success && formReset then
        s.(status := Succeeded, inFlight := s.inFlight - 1, pendingResets := s.pendingResets + 1)
      else if success then
        // clearing the form threw after the status was set: the catch branch runs, no timer
        s.(status := Failed, errorMessage := NetworkError, inFlight := s.inFlight - 1)
      else
        s.(status := Failed, errorMessage := ResponseError(error), inFlight := s.inFlight - 1)
    case FetchFailed =>
      s.(status := Failed, errorMessage := NetworkError, inFlight := s.inFlight - 1)
    case ResetFired =>
      s.(status := Idle, pendingResets := s.pendingResets - 1)
  }

  /** A submit event starts a submission exactly when the button is enabled. */
  lemma SendStartsSubmission(s: FormState)
    ensures var t := Step(s, SubmitFired);
      (SendDisabled(s) ==> t == s)
      && (!SendDisabled(s) ==> t.status == Loading && t.errorMessage == [] && t.inFlight == s.inFlight + 1
                               && t.pendingResets == s.pendingResets)
      && SendDisabled(t)
  {
  }

  /**
    How a settled fetch ends: success (and one reset scheduled) only for a
    successful response whose form could be cleared; otherwise an error with a
    non-empty message, and never a new timer.
   */
  lemma ResponseOutcome(s: FormState, success: bool, error: Option<string>, formReset: bool)
    requires s.inFlight > 0
    ensures var t := Step(s, Responded(success, error, formReset));
      t.inFlight == s.inFlight - 1
      && (t.status == Succeeded <==> success && formReset)
      && (t.status == Succeeded ==> t.pendingResets == s.pendingResets + 1 && t.errorMessage == s.errorMessage)
      && (t.status != Succeeded ==> t.status == Failed && t.errorMessage != [] && t.pendingResets == s.pendingResets)
      && (!success ==> t.errorMessage == ResponseError(error))
      && (success && !formReset ==> t.errorMessage == NetworkError)
  {
  }

  /** The reset timer is never cancelled: it makes the status idle whatever it was. */
  lemma ResetOverwrites(s: FormState)
    requires s.pendingResets > 0
    ensures Step(s, ResetFired).status == Idle
    ensures Step(s, ResetFired).inFlight == s.inFlight
  {
  }

  /** What the form promises: loading means a fetch is pending, an error always has a message. */
  ghost predicate FormInv(s: FormState) {
    (s.status == Loading ==> s.inFlight > 0)
    && (s.status == Failed ==> s.errorMessage != [])
  }

  /** The events, in order, if each can occur when it comes. */
  function Run(s: FormState, events: seq<FormEvent>): Option<FormState>
    decreases events
  {
    if events == [] then Some(s)
    else if !CanOccur(s, events[0]) then None
    else Run(Step(s, events[0]), events[1..])
  }

  /** Every state the form reaches from its initial state keeps the invariant. */
  lemma {:induction false} RunKeepsInv(s: FormState, events: seq<FormEvent>)
    requires FormInv(s)
    ensures Run(s, events).Some? ==> FormInv(Run(s, events).value)
    decreases events
  {
    if events != [] && CanOccur(s, events[0]) {
      RunKeepsInv(Step(s, events[0]), events[1..]);
    }
  }

  /**
    The stale reset: submit, succeed, submit again; the first timer then fires
    while the second fetch is pending, the form shows idle and the button is
    enabled, so a third submission runs beside the second.
   */
  lemma StaleResetScenario()
    ensures Run(InitialForm, [SubmitFired, Responded(true, None, true), SubmitFired, ResetFired])
            == Some(FormState(Idle, [], 1, 0))
    ensures Run(InitialForm, [SubmitFired, Responded(true, None, true), SubmitFired, ResetFired, SubmitFired])
            == Some(FormState(Loading, [], 2, 0))
  {
    var s1 := Submitted(InitialForm);
    var s2 := s1.(status := Succeeded, inFlight := 0, pendingResets := 1);
    var s3 := Submitted(s2);
    var s4 := FormState(Idle, [], 1, 0);
    var s5 := FormState(Loading, [], 2, 0);
    RunFirst(s4, SubmitFired, []);
    assert Run(s4, [SubmitFired]) == Some(s5);
    RunFirst(s3, ResetFired, []);
    RunFirst(s3, ResetFired, [SubmitFired]);
    RunFirst(s2, SubmitFired, [ResetFired]);
    RunFirst(s2, SubmitFired, [ResetFired, SubmitFired]);
    RunFirst(s1, Responded(true, None, true), [SubmitFired, ResetFired]);
    RunFirst(s1, Responded(true, None, true), [SubmitFired, ResetFired, SubmitFired]);
    RunFirst(InitialForm, SubmitFired, [Responded(true, None, true), SubmitFired, ResetFired]);
    RunFirst(InitialForm, SubmitFired, [Responded(true, None, true), SubmitFired, ResetFired, SubmitFired]);
  }

  lemma RunFirst(s: FormState, ev: FormEvent, rest: seq<FormEvent>)
    requires CanOccur(s, ev)
    ensures Run(s, [ev] + rest) == Run(Step(s, ev), rest)
  {
    assert ([ev] + rest)[1..] == rest;
  }

  // ---------------------------------------------------------------- theme

  /** The theme flag and whether the document root carries the `dark` class. */
  datatype Theme = Theme(isDark: bool, darkClass: bool)

  /** After the first render and its mount effect: dark, and the class added. */
  const MountedTheme: Theme := Theme(true, true)

  predicate InSync(t: Theme) {
    t.isDark == t.darkClass
  }

  function Toggled(t: Theme): (r: Theme)
    ensures r.isDark == !t.isDark
    ensures InSync(r)
  {
    var newTheme := !t.isDark;
    Theme(newTheme, newTheme)
  }

  /** Toggling twice restores a theme whose class matches its flag. */
  lemma ToggleTwice(t: Theme)
    requires InSync(t)
    ensures Toggled(Toggled(t)) == t
  {
  }

  // ---------------------------------------------------------------- menu

  /** Where a mouse press lands. */
  datatype PressTarget = InMenu | InButton | Elsewhere

  datatype MenuEvent =
    | ButtonClicked
    | ItemClicked
    | Pressed(target: PressTarget)

  /** Whether the menu is open after the event. */
  function MenuAfter(open: bool, ev: MenuEvent): (r: bool)
    ensures r && !open ==> ev == ButtonClicked
    ensures open && ev == Pressed(Elsewhere) ==> !r
    ensures ev == ItemClicked ==> !r
  {
    match ev
    case ButtonClicked => !open
    case ItemClicked => false
    case Pressed(target) => open && target != Elsewhere
  }

  /**
    Only the button opens the menu; a press outside both the menu and the
    button, a chosen item or the button closes it; nothing else changes it.
   */
  lemma MenuTransitions(open: bool, ev: MenuEvent)
    ensures !open && MenuAfter(open, ev) <==> !open && ev == ButtonClicked
    ensures open && !MenuAfter(open, ev) <==> open && (ev == ButtonClicked || ev == ItemClicked || ev == Pressed(Elsewhere))
  {
  }

  /** Clicking the button of an open menu closes it: the press on the button leaves it open first. */
  lemma ButtonClickWhileOpen()
    ensures !MenuAfter(MenuAfter(true, Pressed(InButton)), ButtonClicked)
  {
  }

  // ---------------------------------------------------------------- component

  /** The mounted App component's state. */
  class App {
    var isDark: bool
    var darkClass: bool
    var isMenuOpen: bool
    var formStatus: FormStatus
    var errorMessage: string
    var inFlight: nat
    var pendingResets: nat

    function ThemeState(): Theme
      reads this
    {
      Theme(isDark, darkClass)
    }

    function Form(): FormState
      reads this
    {
      FormState(formStatus, errorMessage, inFlight, pendingResets)
    }

    /** The first render followed by the mount effect that adds the `dark` class. */
    constructor ()
      ensures ThemeState() == MountedTheme && FormInv(Form())
      ensures !isMenuOpen && Form() == InitialForm
    {
      isDark := true;
      isMenuOpen := false;
      formStatus := Idle;
      errorMessage := [];
      inFlight := 0;
      pendingResets := 0;
      darkClass := true;
    }

    method ToggleTheme()
      modifies this
      ensures ThemeState() == Toggled(old(ThemeState()))
      ensures isMenuOpen == old(isMenuOpen) && Form() == old(Form())
    {
      var newTheme := !isDark;
      isDark := newTheme;
      if newTheme {
        darkClass := true;
      } else {
        darkClass := false;
      }
    }

    /** The submit handler up to its `await`. */
    method HandleSubmit()
      modifies this
      ensures Form() == Submitted(old(Form()))
      ensures ThemeState() == old(ThemeState()) && isMenuOpen == old(isMenuOpen)
    {
      formStatus := Loading;
      errorMessage := [];
      inFlight := inFlight + 1;
    }

    /** The form's submit event: the button is disabled while loading, otherwise the handler runs. */
    method SubmitForm()
      modifies this
      ensures Form() == Step(old(Form()), SubmitFired)
      ensures ThemeState() == old(ThemeState()) && isMenuOpen == old(isMenuOpen)
    {
      if formStatus != Loading {
        HandleSubmit();
      }
    }

    /** The rest of the submit handler once the fetch settled with a JSON body. */
    method OnResponse(success: bool, error: Option<string>, formReset: bool)
      requires inFlight > 0
      modifies this
      ensures Form() == Step(old(Form()), Responded(success, error, formReset))
      ensures ThemeState() == old(ThemeState()) && isMenuOpen == old(isMenuOpen)
    {
      inFlight := inFlight - 1;
      if success {
        formStatus := Succeeded;
        if formReset {
          pendingResets := pendingResets + 1;
        } else {
          formStatus := Failed;
          errorMessage := NetworkError;
        }
      } else {
        formStatus := Failed;
        errorMessage := ResponseError(error);
      }
    }

    /** The catch branch of the submit handler. */
    method OnFetchFailure()
      requires inFlight > 0
      modifies this
      ensures Form() == Step(old(Form()), FetchFailed)
      ensures ThemeState() == old(ThemeState()) && isMenuOpen == old(isMenuOpen)
    {
      inFlight := inFlight - 1;
      formStatus := Failed;
      errorMessage := NetworkError;
    }

    /** The 5-second timer scheduled by a success. */
    method OnResetTimer()
      requires pendingResets > 0
      modifies this
      ensures Form() == Step(old(Form()), ResetFired)
      ensures ThemeState() == old(ThemeState()) && isMenuOpen == old(isMenuOpen)
    {
      pendingResets := pendingResets - 1;
      formStatus := Idle;
    }

    method ClickMenuButton()
      modifies this
      ensures isMenuOpen == MenuAfter(old(isMenuOpen), ButtonClicked)
      ensures ThemeState() == old(ThemeState()) && Form() == old(Form())
    {
      isMenuOpen := !isMenuOpen;
    }

    method ClickMenuItem()
      modifies this
      ensures isMenuOpen == MenuAfter(old(isMenuOpen), ItemClicked)
      ensures ThemeState() == old(ThemeState()) && Form() == old(Form())
    {
      isMenuOpen := false;
    }

    /** The document's mousedown listener. */
    method OnMouseDown(target: PressTarget)
      modifies this
      ensures isMenuOpen == MenuAfter(old(isMenuOpen), Pressed(target))
      ensures ThemeState() == old(ThemeState()) && Form() == old(Form())
    {
      if isMenuOpen && target != InMenu && target != InButton {
        isMenuOpen := false;
      }
    }
  }
}
