# Chat screen view-model

A model of the state container behind a single-screen chat demo: the
`MessagingViewModel` that holds whether the attachment-menu overlay is shown,
the text in the input field, the conversation (an append-only list of
messages) and the four attachment-menu options (Camera, Photos, Files,
Audio). The screen reads these four fields and calls the view-model on every
user action: typing, the send button, the "+" button, the dimmed scrim around
the open menu, and the menu options.

The project has four modules:

- `Data` (`data.dfy`): the `Message` record (text, sent-or-received,
  timestamp as a 64-bit `Long`), the menu option (label and the handler its
  click closure calls), and Kotlin's `isBlank` over the JVM notion of a
  whitespace character.
- `ScreenState` (`screen_state.dfy`): the four fields as one value, the
  seeded initial state, and one function per view-model operation. It also
  holds lemmas about single operations and about arbitrary sequences of
  calls: the menu never changes, messages are only appended, and the
  conversation keeps its time order while the clock moves forward.
- `ViewModel` (`view_model.dfy`): the class `MessagingViewModel`. Its fields
  are updated in place, and each method states its new state field by field
  and as the matching `ScreenState` function of the old state. Two methods
  replay the usage scenarios "send Hello" and "send a blank input".
- `ScreenGestures` (`screen_gestures.dfy`): which gesture calls which
  operation, and when each control is on screen. The input bar (the "+"
  button, the text field and the send button) is shown only while the
  overlay is hidden, and within it the send button is shown for any
  non-empty input. The scrim and the options exist only while the overlay
  is visible.

The clock reading used by `sendMessage` is a parameter `now` of the send
operation.

The message list is rendered keyed by timestamp
(app/src/main/java/com/iamkjn/aryacommunication/ui/components/ScreenContent.kt:102),
which assumes that no two messages share a timestamp. The view-model does not
enforce this: a new message's timestamp is whatever the clock reads.
`ScreenState.RunStaysChronological` proves that the conversation stays in
strict time order, with distinct timestamps, when the clock moves forward
between sends. `ScreenState.SameMillisecondSendsShareTimestamp` shows that two
sends at the same clock reading produce two messages with the same timestamp.

## Model

| member | source | states |
|---|---|---|
| `Data.IsBlank` | app/src/main/java/com/iamkjn/aryacommunication/viewmodel/MessagingViewModel.kt:130 | a string is blank exactly when every character is whitespace (so the empty string is blank) |
| `ScreenState.InitialScreen` | app/src/main/java/com/iamkjn/aryacommunication/viewmodel/MessagingViewModel.kt:25-105 | after creation the overlay is hidden and the input is empty. The conversation is the received seed at 1698743280000, then the sent seed at 1698750840000, in strict time order. The menu is Camera, Photos, Files, Audio in that order, and each option is wired to the handler its label names |
| `ScreenState.Toggled` | app/src/main/java/com/iamkjn/aryacommunication/viewmodel/MessagingViewModel.kt:112-114 | toggling negates the overlay flag and leaves every other field unchanged |
| `ScreenState.ToggleTwice` | app/src/main/java/com/iamkjn/aryacommunication/viewmodel/MessagingViewModel.kt:112-114 | toggling twice restores the original state |
| `ScreenState.WithInput` | app/src/main/java/com/iamkjn/aryacommunication/viewmodel/MessagingViewModel.kt:121-123 | the input becomes exactly the given text, unvalidated; every other field is unchanged |
| `ScreenState.AfterSend` | app/src/main/java/com/iamkjn/aryacommunication/viewmodel/MessagingViewModel.kt:129-135 | with a non-blank input, exactly one `Message(input, true, now)` is appended after the unchanged old conversation and the input is cleared. A blank input changes nothing. Overlay and menu are never touched |
| `ScreenState.SendAppendsIffNonBlank` | app/src/main/java/com/iamkjn/aryacommunication/viewmodel/MessagingViewModel.kt:130-133 | a send grows the conversation by one if and only if the input is non-blank. A non-empty input is cleared if and only if it is non-blank |
| `ScreenState.Closed` | app/src/main/java/com/iamkjn/aryacommunication/viewmodel/MessagingViewModel.kt:143-173 | a selection handler hides the overlay whatever its prior value and changes nothing else |
| `ScreenState.ClosedIdempotent` | app/src/main/java/com/iamkjn/aryacommunication/viewmodel/MessagingViewModel.kt:143-173 | running a selection handler twice has the same effect as running it once |
| `ScreenState.Selected` | app/src/main/java/com/iamkjn/aryacommunication/viewmodel/MessagingViewModel.kt:79-102 | a click on any of the four options hides the overlay and changes nothing else |
| `ScreenState.Run` | app/src/main/java/com/iamkjn/aryacommunication/viewmodel/MessagingViewModel.kt:37-44 | over any sequence of calls, the menu never changes and the old conversation is a prefix of the new one. Every added message is sent and non-blank, and at most one message is added per send call |
| `ScreenState.OverlayUntouchedByTypingAndSending` | app/src/main/java/com/iamkjn/aryacommunication/viewmodel/MessagingViewModel.kt:121-135 | a sequence made only of input changes and sends leaves the overlay flag unchanged |
| `ScreenState.RunStaysChronological` | app/src/main/java/com/iamkjn/aryacommunication/viewmodel/MessagingViewModel.kt:129-135 | suppose the conversation is in strict time order and the send clock readings strictly increase and are later than every existing message. Then after any sequence of calls the conversation is still in strict time order, with pairwise distinct timestamps |
| `ScreenState.SameMillisecondSendsShareTimestamp` | app/src/main/java/com/iamkjn/aryacommunication/viewmodel/MessagingViewModel.kt:131 | two non-blank sends at the same clock reading add two different messages with equal timestamps |
| `ViewModel.MessagingViewModel.constructor` | app/src/main/java/com/iamkjn/aryacommunication/viewmodel/MessagingViewModel.kt:25-50 | a new view-model has the overlay hidden, an empty input, the two seed messages and the four seed options, i.e. the state `Initial()` |
| `ViewModel.MessagingViewModel.InitializeConversation` | app/src/main/java/com/iamkjn/aryacommunication/viewmodel/MessagingViewModel.kt:56-71 | on an empty conversation (its only call site, during creation), appends the two seed messages in order |
| `ViewModel.MessagingViewModel.InitializeMenuOptions` | app/src/main/java/com/iamkjn/aryacommunication/viewmodel/MessagingViewModel.kt:76-105 | on an empty menu (its only call site, during creation), appends the four options in display order |
| `ViewModel.MessagingViewModel.ToggleOverlay` | app/src/main/java/com/iamkjn/aryacommunication/viewmodel/MessagingViewModel.kt:112-114 | negates the overlay flag in place. Its frame is the flag alone, and the new state is `Toggled` of the old |
| `ViewModel.MessagingViewModel.OnMessageInputChange` | app/src/main/java/com/iamkjn/aryacommunication/viewmodel/MessagingViewModel.kt:121-123 | sets the input field to the new value. Its frame is the input alone, and the new state is `WithInput` of the old |
| `ViewModel.MessagingViewModel.SendMessage` | app/src/main/java/com/iamkjn/aryacommunication/viewmodel/MessagingViewModel.kt:129-135 | a non-blank input is appended as a sent message stamped `now` and the input is cleared. A blank input leaves conversation and input unchanged. Its frame is the conversation and the input, and the new state is `AfterSend` of the old |
| `ViewModel.MessagingViewModel.OnCameraSelected` | app/src/main/java/com/iamkjn/aryacommunication/viewmodel/MessagingViewModel.kt:143-146 | hides the overlay; nothing else can change |
| `ViewModel.MessagingViewModel.OnPhotosSelected` | app/src/main/java/com/iamkjn/aryacommunication/viewmodel/MessagingViewModel.kt:152-155 | hides the overlay; nothing else can change |
| `ViewModel.MessagingViewModel.OnFilesSelected` | app/src/main/java/com/iamkjn/aryacommunication/viewmodel/MessagingViewModel.kt:161-164 | hides the overlay; nothing else can change |
| `ViewModel.MessagingViewModel.OnAudioSelected` | app/src/main/java/com/iamkjn/aryacommunication/viewmodel/MessagingViewModel.kt:170-173 | hides the overlay; nothing else can change |
| `ViewModel.MessagingViewModel.OnMenuOptionClick` | app/src/main/java/com/iamkjn/aryacommunication/viewmodel/MessagingViewModel.kt:79-102 | an option click runs the handler its closure is wired to, which hides the overlay |
| `ViewModel.MessagingViewModel.Handle` | app/src/main/java/com/iamkjn/aryacommunication/viewmodel/MessagingViewModel.kt:112-173 | a single call on the object has the effect `ScreenState.Step` gives it, and keeps `Valid()` |
| `ViewModel.MessagingViewModel.HandleAll` | app/src/main/java/com/iamkjn/aryacommunication/viewmodel/MessagingViewModel.kt:112-173 | any sequence of calls on the object has the effect `ScreenState.Run` gives it, so every property proved of `Run` holds of the object |
| `ViewModel.SendHello` | app/src/main/java/com/iamkjn/aryacommunication/viewmodel/MessagingViewModel.kt:121-135 | after creating, typing "Hello" and sending, there are 3 messages. The last is `Message("Hello", true, now)` and the input is empty |
| `ViewModel.SendBlank` | app/src/main/java/com/iamkjn/aryacommunication/viewmodel/MessagingViewModel.kt:130 | after creating and sending an empty or whitespace-only input, the conversation is still the two seeds and the input is unchanged |
| `ScreenGestures.Available` | app/src/main/java/com/iamkjn/aryacommunication/ui/components/ScreenContent.kt:121-133 | the input-bar controls can be touched only while the overlay is hidden, and the scrim and options only while it is visible, so exactly one group is on screen at a time. The send button also needs a non-empty input (MessageInput.kt:120), the options exist only while the overlay is visible (MessageOverlay.kt:71), and an option tap needs a position within the menu, whose options are laid out one per index (MessageOverlay.kt:148) |
| `ScreenGestures.OpenOverlayOnlyCloses` | app/src/main/java/com/iamkjn/aryacommunication/ui/components/ScreenContent.kt:121-133 | while the overlay is open, every available gesture hides it and changes nothing else, so nothing can be typed or sent until it closes |
| `ScreenGestures.ScrimTapCloses` | app/src/main/java/com/iamkjn/aryacommunication/ui/screen/MessagingScreen.kt:59-63 | the scrim calls a toggle, not a close. It exists only while the overlay is visible, so tapping it always hides the overlay and changes nothing else |
| `ScreenGestures.OnlyPlusOpens` | app/src/main/java/com/iamkjn/aryacommunication/ui/components/ScreenContent.kt:54-56 | from a hidden overlay, a gesture opens the overlay if and only if it is the "+" button |
| `ScreenGestures.SendButtonVersusBlank` | app/src/main/java/com/iamkjn/aryacommunication/ui/components/MessageInput.kt:119-127 | any non-blank input has the send button shown, and with the overlay hidden it can be tapped. A tappable button on a blank input does nothing when tapped, and a single space is such an input |
| `ScreenGestures.OptionTapRunsLabelledHandler` | app/src/main/java/com/iamkjn/aryacommunication/ui/components/MessageOverlay.kt:209-214 | on the seeded menu, tapping the option at a position runs the handler named by that option's label and hides the overlay |

## Left out

- Rendering is not modelled: layout, theming, colours, icons, the message bubbles, the top bar and the overlay animation (tweens, easing, the stagger delay). These are Jetpack Compose code and floating-point maths.
- The icon resource id and accent colour of a menu option are not modelled. Its click closure is represented by the handler it calls.
- `System.currentTimeMillis()` is not modelled as a clock. The send operation takes the clock reading as its `now` parameter.
- Timestamp formatting for display is not modelled, because it delegates to the platform's date formatter and locale.
- The observable wrappers (`MutableStateFlow`, `mutableStateOf`, `mutableStateListOf`) are not modelled. Their change notifications and the auto-scroll to the newest message are also left out. The fields are plain class state. Each operation runs to completion before the next event is handled, as on the single UI thread; `sendMessage` makes two updates (append, then clear) and no observer sees the state between them.
- Activity lifecycle and view-model provisioning are not modelled.
- Data.IsWhitespace enumerates the whitespace and space-separator characters of the Unicode version current when the model was written. A JVM on another Unicode version could classify a character differently.
- ScreenGestures.Available treats a control as present or absent. The input bar's enter and exit animations are not modelled, so neither are taps on the bar while it slides out.
- The view-model's fields are public `var`s here, while the original keeps them private behind read-only views. The predicate `Valid()` (seeded menu, conversation starting with the two seeds) is set up by the constructor and kept by every method that operates on a created view-model. The two initialisation methods, private in the original, can only run on an empty conversation or menu. Code outside the class could still assign the fields directly.
- Strings are sequences of Unicode scalar values, while Kotlin strings are sequences of UTF-16 code units. So a string's length differs for characters outside the Basic Multilingual Plane (BMP), and lone surrogates cannot be written. Neither `isBlank` nor the send button's `isNotEmpty` test is affected, because every whitespace character is in the BMP and a non-empty string is non-empty in both encodings.
