/** The state of the chat screen as a value, and what each view-model
    operation does to it. The class in module ViewModel holds the same four
    fields and updates them in place; each of its methods is proved to have
    the effect the matching function here describes, so the lemmas below
    about sequences of operations hold of the class as well. */
module ScreenState {
  import opened Data

  /** The overlay flag, the text in the input field, the conversation and the
      options of the attachment menu. */
  datatype Screen = Screen(
    isOverlayVisible: bool,
    messageInput: string,
    messages: seq<Message>,
    menuOptions: seq<MenuOption>)

  /** The two messages the conversation starts with. */
  const FirstSeed := Message(
    "Hey John, let's get together and discuss the job proposal. Does Monday Work?",
    false, 1698743280000)
  const SecondSeed := Message(
    "That would be great. Yes, I will see you on Monday.",
    true, 1698750840000)

  function SeedConversation(): seq<Message> {
    [FirstSeed, SecondSeed]
  }

  /** The label shown for the option whose click calls the handler `a`. */
  function Label(a: MenuAction): string {
    match a
    case Camera => "Camera"
    case Photos => "Photos"
    case Files => "Files"
    case Audio => "Audio"
  }

  /** The four attachment options, in display order. */
  function SeedMenuOptions(): seq<MenuOption> {
    [MenuOption("Camera", Camera), MenuOption("Photos", Photos),
     MenuOption("Files", Files), MenuOption("Audio", Audio)]
  }

  /** The state right after the view-model is created. */
  function Initial(): Screen {
    Screen(false, "", SeedConversation(), SeedMenuOptions())
  }

  /** The seeded conversation has one received message followed by one sent
      message, in time order; the menu lists Camera, Photos, Files, Audio,
      and every option is wired to the handler its label names, so each of
      the four handlers is reachable from exactly one option. */
  lemma InitialScreen()
    ensures !Initial().isOverlayVisible && Initial().messageInput == ""
    ensures |Initial().messages| == 2
    ensures !Initial().messages[0].isSent && Initial().messages[0].timestamp == 1698743280000
    ensures Initial().messages[1].isSent && Initial().messages[1].timestamp == 1698750840000
    ensures StrictlyChronological(Initial().messages)
    ensures |Initial().menuOptions| == 4
    ensures [Initial().menuOptions[0].text, Initial().menuOptions[1].text,
             Initial().menuOptions[2].text, Initial().menuOptions[3].text]
         == ["Camera", "Photos", "Files", "Audio"]
    ensures forall i :: 0 <= i < |Initial().menuOptions| ==>
      Initial().menuOptions[i].text == Label(Initial().menuOptions[i].onClick)
    ensures [Initial().menuOptions[0].onClick, Initial().menuOptions[1].onClick,
             Initial().menuOptions[2].onClick, Initial().menuOptions[3].onClick]
         == [Camera, Photos, Files, Audio]
  {
  }

  // ---------------------------------------------------------------------
  // The operations of the view-model, as functions on the state.

  /** `toggleOverlay`: the overlay flag is negated and nothing else changes. */
  function Toggled(s: Screen): (r: Screen)
    ensures r.isOverlayVisible == !s.isOverlayVisible
    ensures r.(isOverlayVisible := s.isOverlayVisible) == s
  {
    s.(isOverlayVisible := !s.isOverlayVisible)
  }

  /** `onMessageInputChange`: the input becomes exactly `value`, whatever it
      is, and nothing else changes. */
  function WithInput(s: Screen, value: string): (r: Screen)
    ensures r.messageInput == value
    ensures r.(messageInput := s.messageInput) == s
  {
    s.(messageInput := value)
  }

  /** `sendMessage` at clock reading `now`: a non-blank input is appended to
      the conversation as a sent message stamped `now`, and the input is
      cleared; a blank input (empty or whitespace only) changes nothing. The
      overlay and the menu are never touched. */
  function AfterSend(s: Screen, now: Long): (r: Screen)
    ensures IsBlank(s.messageInput) ==> r == s
    ensures !IsBlank(s.messageInput) ==>
      |r.messages| == |s.messages| + 1 &&
      r.messages[..|s.messages|] == s.messages &&
      r.messages[|s.messages|] == Message(s.messageInput, true, now) &&
      r.messageInput == ""
    ensures r.isOverlayVisible == s.isOverlayVisible && r.menuOptions == s.menuOptions
  {
    if IsBlank(s.messageInput) then s
    else s.(messages := s.messages + [Message(s.messageInput, true, now)], messageInput := "")
  }

  /** `onCameraSelected`, `onPhotosSelected`, `onFilesSelected` and
      `onAudioSelected` all do the same thing: the overlay is hidden,
      whether it was shown or not, and nothing else changes. */
  function Closed(s: Screen): (r: Screen)
    ensures !r.isOverlayVisible
    ensures r.(isOverlayVisible := s.isOverlayVisible) == s
  {
    s.(isOverlayVisible := false)
  }

  /** Toggling twice gives back the state toggled from. */
  lemma ToggleTwice(s: Screen)
    ensures Toggled(Toggled(s)) == s
  {
  }

  /** Closing the overlay a second time has no further effect. */
  lemma ClosedIdempotent(s: Screen)
    ensures Closed(Closed(s)) == Closed(s)
  {
  }

  /** A send appends a message exactly when the input is non-blank, and in
      that case, and only then, the input is left empty. */
  lemma SendAppendsIffNonBlank(s: Screen, now: Long)
    ensures |AfterSend(s, now).messages| == |s.messages| + 1 <==> !IsBlank(s.messageInput)
    ensures |AfterSend(s, now).messages| == |s.messages| <==> IsBlank(s.messageInput)
    ensures s.messageInput != "" ==>
      (AfterSend(s, now).messageInput == "" <==> !IsBlank(s.messageInput))
  {
  }

  // ---------------------------------------------------------------------
  // Sequences of calls.

  /** A call into the view-model. `Select(a)` is a click on a menu option
      whose closure calls the handler `a`. */
  datatype Call = ToggleOverlay | InputChange(value: string) | SendMessage(now: Long) | Select(action: MenuAction)

  /** The handler a menu-option click dispatches to. */
  function Selected(s: Screen, a: MenuAction): (r: Screen)
    ensures !r.isOverlayVisible && r.(isOverlayVisible := s.isOverlayVisible) == s
  {
    match a
    case Camera => Closed(s)
    case Photos => Closed(s)
    case Files => Closed(s)
    case Audio => Closed(s)
  }

  function Step(s: Screen, c: Call): Screen {
    match c
    case ToggleOverlay => Toggled(s)
    case InputChange(v) => WithInput(s, v)
    case SendMessage(now) => AfterSend(s, now)
    case Select(a) => Selected(s, a)
  }

  /** The number of send calls in `calls`. */
  function Sends(calls: seq<Call>): nat {
    if calls == [] then 0
    else (if calls[0].SendMessage? then 1 else 0) + Sends(calls[1..])
  }

  /** The state after making `calls` in order, starting from `s`. Whatever
      the calls: the menu options are never changed; no message is removed,
      replaced or reordered (the old conversation is a prefix of the new);
      every message added is a sent one with non-blank text; and no more
      messages are added than there were send calls. */
  function Run(s: Screen, calls: seq<Call>): (r: Screen)
    ensures r.menuOptions == s.menuOptions
    ensures s.messages <= r.messages
    ensures forall i :: |s.messages| <= i < |r.messages| ==>
      r.messages[i].isSent && !IsBlank(r.messages[i].text)
    ensures |r.messages| <= |s.messages| + Sends(calls)
    decreases |calls|
  {
    if calls == [] then s
    else
      var t := Step(s, calls[0]);
      assert t.messages[..|s.messages|] == s.messages;
      Run(t, calls[1..])
  }

  /** Typing and sending never move the overlay: a run made only of input
      changes and sends leaves the overlay flag as it was. */
  lemma {:induction false} OverlayUntouchedByTypingAndSending(s: Screen, calls: seq<Call>)
    requires forall i :: 0 <= i < |calls| ==> calls[i].InputChange? || calls[i].SendMessage?
    ensures Run(s, calls).isOverlayVisible == s.isOverlayVisible
    decreases |calls|
  {
    if calls != [] {
      OverlayUntouchedByTypingAndSending(Step(s, calls[0]), calls[1..]);
    }
  }

  // ---------------------------------------------------------------------
  // Time order of the conversation.

  /** Each message is strictly later than the one before it. The message list
      is rendered keyed by timestamp, so this is also what makes those keys
      distinct. */
  predicate StrictlyChronological(ms: seq<Message>) {
    forall i, j :: 0 <= i < j < |ms| ==> ms[i].timestamp < ms[j].timestamp
  }

  /** The clock readings of the send calls strictly increase... */
  predicate ClockAdvances(calls: seq<Call>) {
    forall i, j :: 0 <= i < j < |calls| && calls[i].SendMessage? && calls[j].SendMessage? ==>
      calls[i].now < calls[j].now
  }

  /** ...and are all later than every message already in the conversation. */
  predicate ClockAfter(ms: seq<Message>, calls: seq<Call>) {
    forall i, k :: 0 <= i < |calls| && calls[i].SendMessage? && 0 <= k < |ms| ==>
      ms[k].timestamp < calls[i].now
  }

  /** With a clock that moves forward between sends, the conversation stays in
      strict time order, so no two messages share a timestamp. */
  lemma {:induction false} RunStaysChronological(s: Screen, calls: seq<Call>)
    requires StrictlyChronological(s.messages)
    requires ClockAdvances(calls) && ClockAfter(s.messages, calls)
    ensures StrictlyChronological(Run(s, calls).messages)
    ensures forall i, j :: 0 <= i < |Run(s, calls).messages| && 0 <= j < |Run(s, calls).messages| && i != j ==>
      Run(s, calls).messages[i].timestamp != Run(s, calls).messages[j].timestamp
    decreases |calls|
  {
    if calls != [] {
      var t := Step(s, calls[0]);
      var rest := calls[1..];
      assert ClockAdvances(rest) by {
        forall i, j | 0 <= i < j < |rest| && rest[i].SendMessage? && rest[j].SendMessage?
          ensures rest[i].now < rest[j].now
        {
          assert rest[i] == calls[i + 1] && rest[j] == calls[j + 1];
        }
      }
      if calls[0].SendMessage? && !IsBlank(s.messageInput) {
        var m := Message(s.messageInput, true, calls[0].now);
        assert t.messages == s.messages + [m];
        assert StrictlyChronological(t.messages) by {
          forall i, j | 0 <= i < j < |t.messages|
            ensures t.messages[i].timestamp < t.messages[j].timestamp
          {
            if j == |s.messages| {
              assert t.messages[i] == s.messages[i];
            }
          }
        }
        assert ClockAfter(t.messages, rest) by {
          forall i, k | 0 <= i < |rest| && rest[i].SendMessage? && 0 <= k < |t.messages|
            ensures t.messages[k].timestamp < rest[i].now
          {
            assert rest[i] == calls[i + 1];
            if k < |s.messages| {
              assert t.messages[k] == s.messages[k];
            }
          }
        }
      } else {
        assert t.messages == s.messages;
        assert ClockAfter(t.messages, rest) by {
          forall i, k | 0 <= i < |rest| && rest[i].SendMessage? && 0 <= k < |t.messages|
            ensures t.messages[k].timestamp < rest[i].now
          {
            assert rest[i] == calls[i + 1];
          }
        }
      }
      RunStaysChronological(t, rest);
    } else {
      var ms := s.messages;
      forall i, j | 0 <= i < |ms| && 0 <= j < |ms| && i != j
        ensures ms[i].timestamp != ms[j].timestamp
      {
        if i < j { assert ms[i].timestamp < ms[j].timestamp; }
        else { assert ms[j].timestamp < ms[i].timestamp; }
      }
    }
  }

  /** Nothing in the view-model enforces distinct timestamps: two non-blank
      sends at the same clock reading add two messages with the same key. */
  lemma SameMillisecondSendsShareTimestamp(t: Long)
    ensures
      var r := Run(Initial(), [InputChange("a"), SendMessage(t), InputChange("b"), SendMessage(t)]);
      |r.messages| == 4 && r.messages[2].timestamp == r.messages[3].timestamp && r.messages[2] != r.messages[3]
  {
    var s1 := WithInput(Initial(), "a");
    var s2 := AfterSend(s1, t);
    var s3 := WithInput(s2, "b");
    var s4 := AfterSend(s3, t);
    assert !IsBlank("a") && !IsBlank("b");
    var calls := [InputChange("a"), SendMessage(t), InputChange("b"), SendMessage(t)];
    assert calls[1..] == [SendMessage(t), InputChange("b"), SendMessage(t)];
    assert calls[2..] == [InputChange("b"), SendMessage(t)];
    assert calls[3..] == [SendMessage(t)];
    assert Run(s4, []) == s4;
    assert Run(s3, calls[3..]) == s4;
    assert Run(s2, calls[2..]) == s4;
    assert Run(s1, calls[1..]) == s4;
    assert Run(Initial(), calls) == s4;
  }
}
