/** How the screen wires user gestures to view-model calls, and what that
    wiring guarantees given the view-model's behaviour. Only the conditions
    under which each control exists are modelled, not its layout. */
module ScreenGestures {
  import opened Data
  import opened ScreenState

  /** A user gesture on the chat screen. */
  datatype Gesture =
    | TapPlus               // the "+" button of the input bar
    | TapScrim              // the dimmed background around the open menu
    | Type(value: string)   // an edit of the input field, giving its new text
    | TapSend(now: Long)    // the send button, at clock reading `now`
    | TapOption(index: nat) // the menu option at this position

  /** Within the input bar, the send button is shown whenever the input field
      is not empty, even when its text is only whitespace. */
  predicate SendButtonShown(s: Screen) {
    |s.messageInput| > 0
  }

  /** Whether the control the gesture touches is on screen. The input bar
      (the "+" button, the text field and the send button) is shown only
      while the overlay is hidden; the scrim and the menu options exist only
      while the overlay is visible; within the bar, the send button is shown
      only for a non-empty input. So at any moment exactly one of the two
      groups of controls can be touched. */
  predicate Available(s: Screen, g: Gesture): (on: bool)
    ensures on ==> (s.isOverlayVisible <==> g.TapScrim? || g.TapOption?)
    ensures on && g.TapSend? ==> |s.messageInput| > 0
    ensures on && g.TapOption? ==> g.index < |s.menuOptions|
  {
    match g
    case TapPlus => !s.isOverlayVisible
    case TapScrim => s.isOverlayVisible
    case Type(_) => !s.isOverlayVisible
    case TapSend(_) => !s.isOverlayVisible && SendButtonShown(s)
    case TapOption(i) => s.isOverlayVisible && i < |s.menuOptions|
  }

  /** The view-model call each gesture makes. Both the "+" button and the
      scrim call `toggleOverlay`; an option calls the handler its closure is
      wired to. */
  function CallFor(s: Screen, g: Gesture): Call
    requires Available(s, g)
  {
    match g
    case TapPlus => ToggleOverlay
    case TapScrim => ToggleOverlay
    case Type(v) => InputChange(v)
    case TapSend(now) => SendMessage(now)
    case TapOption(i) => Select(s.menuOptions[i].onClick)
  }

  /** The state after the gesture. */
  function React(s: Screen, g: Gesture): Screen
    requires Available(s, g)
  {
    Step(s, CallFor(s, g))
  }

  /** The scrim calls a toggle, not a close; because the scrim only exists
      while the overlay is visible, tapping it always closes the overlay and
      changes nothing else. */
  lemma ScrimTapCloses(s: Screen)
    requires Available(s, TapScrim)
    ensures !React(s, TapScrim).isOverlayVisible
    ensures React(s, TapScrim) == s.(isOverlayVisible := false)
  {
  }

  /** Only the "+" button can open the overlay: every other available
      gesture leaves a hidden overlay hidden. */
  lemma OnlyPlusOpens(s: Screen, g: Gesture)
    requires Available(s, g) && !s.isOverlayVisible
    ensures React(s, g).isOverlayVisible <==> g.TapPlus?
  {
  }

  /** While the overlay is open, nothing but closing it can happen: every
      gesture available then hides the overlay and changes nothing else. In
      particular no message can be typed or sent until the overlay closes. */
  lemma OpenOverlayOnlyCloses(s: Screen, g: Gesture)
    requires s.isOverlayVisible && Available(s, g)
    ensures React(s, g) == s.(isOverlayVisible := false)
  {
  }

  /** Every input that a send would accept can be sent once the overlay is
      hidden: a non-blank input always has the send button shown. The
      converse fails: a whitespace-only input shows the button, and tapping
      it changes nothing. */
  lemma SendButtonVersusBlank(s: Screen, now: Long)
    ensures !IsBlank(s.messageInput) ==> SendButtonShown(s)
    ensures !s.isOverlayVisible && !IsBlank(s.messageInput) ==> Available(s, TapSend(now))
    ensures Available(s, TapSend(now)) && IsBlank(s.messageInput) ==> React(s, TapSend(now)) == s
    ensures var t := s.(isOverlayVisible := false, messageInput := " ");
      Available(t, TapSend(now)) && IsBlank(t.messageInput) && React(t, TapSend(now)) == t
  {
  }

  /** Tapping the option at position `i` of the seeded menu runs the handler
      whose name is that option's label, and closes the overlay. */
  lemma OptionTapRunsLabelledHandler(s: Screen, i: nat)
    requires s.menuOptions == SeedMenuOptions()
    requires Available(s, TapOption(i))
    ensures Label(CallFor(s, TapOption(i)).action) == s.menuOptions[i].text
    ensures React(s, TapOption(i)) == s.(isOverlayVisible := false)
  {
  }
}
