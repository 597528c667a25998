/** The chat screen's view-model: the object the screen reads its state from
    and calls on every user action. Its four fields are updated in place;
    each method states its new state both field by field and as the matching
    function of module ScreenState applied to the old state. */
module ViewModel {
  import opened Data
  import opened ScreenState

  class MessagingViewModel {
    /** Whether the attachment-menu overlay is shown. */
    var isOverlayVisible: bool
    /** The text currently in the input field. */
    var messageInput: string
    /** The conversation, oldest first; the methods only ever append to it. */
    var messages: seq<Message>
    /** The options of the attachment menu; filled once, at creation, and
        never changed by any method afterwards. */
    var menuOptions: seq<MenuOption>

    /** What the public methods keep true: the menu is the seeded one, and the
        conversation still starts with the two seed messages. (In the
        original the fields are private, so only these methods change them.) */
    ghost predicate Valid()
      reads this
    {
      menuOptions == SeedMenuOptions() && SeedConversation() <= messages
    }

    /** The four fields as one value. */
    function State(): Screen
      reads this
    {
      Screen(isOverlayVisible, messageInput, messages, menuOptions)
    }

    /** Creation: the overlay hidden, the input empty, then the two seed
        messages and the four menu options added. */
    constructor ()
      ensures !isOverlayVisible && messageInput == ""
      ensures messages == [FirstSeed, SecondSeed]
      ensures menuOptions == SeedMenuOptions()
      ensures State() == Initial()
      ensures Valid()
    {
      isOverlayVisible := false;
      messageInput := "";
      messages := [];
      menuOptions := [];
      new;
      InitializeConversation();
      InitializeMenuOptions();
    }

    /** Adds the two sample messages to the end of the conversation. Private
        in the original and called only during creation, on an empty
        conversation; the precondition keeps it from being run again on a
        view-model already in use. */
    method InitializeConversation()
      requires messages == []
      modifies this`messages
      ensures messages == old(messages) + [FirstSeed, SecondSeed]
    {
      messages := messages + [FirstSeed];
      messages := messages + [SecondSeed];
    }

    /** Adds the four menu options, in display order, to the end of the menu.
        Private in the original and called only during creation, on an empty
        menu; the precondition keeps it from being run again. */
    method InitializeMenuOptions()
      requires menuOptions == []
      modifies this`menuOptions
      ensures menuOptions == old(menuOptions) + SeedMenuOptions()
    {
      menuOptions := menuOptions + SeedMenuOptions();
    }

    /** Shows the overlay if it was hidden, hides it if it was shown. */
    method ToggleOverlay()
      requires Valid()
      modifies this`isOverlayVisible
      ensures isOverlayVisible == !old(isOverlayVisible)
      ensures State() == Toggled(old(State()))
      ensures Valid()
    {
      isOverlayVisible := !isOverlayVisible;
    }

    /** Replaces the input text with `newValue`, unchecked. */
    method OnMessageInputChange(newValue: string)
      requires Valid()
      modifies this`messageInput
      ensures messageInput == newValue
      ensures State() == WithInput(old(State()), newValue)
      ensures Valid()
    {
      messageInput := newValue;
    }

    /** Sends the input as a message stamped `now` (the clock reading) and
        clears the input, unless the input is blank. */
    method SendMessage(now: Long)
      requires Valid()
      modifies this`messages, this`messageInput
      ensures !IsBlank(old(messageInput)) ==>
        messages == old(messages) + [Message(old(messageInput), true, now)] && messageInput == ""
      ensures IsBlank(old(messageInput)) ==>
        messages == old(messages) && messageInput == old(messageInput)
      ensures State() == AfterSend(old(State()), now)
      ensures Valid()
    {
      if !IsBlank(messageInput) {
        var newMessage := Message(messageInput, true, now);
        messages := messages + [newMessage];
        messageInput := "";
      }
    }

    /** The camera option was clicked: the overlay is closed. */
    method OnCameraSelected()
      requires Valid()
      modifies this`isOverlayVisible
      ensures !isOverlayVisible
      ensures State() == Closed(old(State()))
      ensures Valid()
    {
      isOverlayVisible := false;
    }

    /** The photos option was clicked: the overlay is closed. */
    method OnPhotosSelected()
      requires Valid()
      modifies this`isOverlayVisible
      ensures !isOverlayVisible
      ensures State() == Closed(old(State()))
      ensures Valid()
    {
      isOverlayVisible := false;
    }

    /** The files option was clicked: the overlay is closed. */
    method OnFilesSelected()
      requires Valid()
      modifies this`isOverlayVisible
      ensures !isOverlayVisible
      ensures State() == Closed(old(State()))
      ensures Valid()
    {
      isOverlayVisible := false;
    }

    /** The audio option was clicked: the overlay is closed. */
    method OnAudioSelected()
      requires Valid()
      modifies this`isOverlayVisible
      ensures !isOverlayVisible
      ensures State() == Closed(old(State()))
      ensures Valid()
    {
      isOverlayVisible := false;
    }

    /** A click on `option`: runs the handler its closure is wired to. */
    method OnMenuOptionClick(option: MenuOption)
      requires Valid()
      modifies this`isOverlayVisible
      ensures !isOverlayVisible
      ensures State() == Selected(old(State()), option.onClick)
      ensures Valid()
    {
      match option.onClick
      case Camera => OnCameraSelected();
      case Photos => OnPhotosSelected();
      case Files => OnFilesSelected();
      case Audio => OnAudioSelected();
    }

    /** Makes the call `c`: its effect on the object is `ScreenState.Step`. */
    method Handle(c: Call)
      requires Valid()
      modifies this
      ensures State() == Step(old(State()), c)
      ensures Valid()
    {
      match c
      case ToggleOverlay => ToggleOverlay();
      case InputChange(v) => OnMessageInputChange(v);
      case SendMessage(now) => SendMessage(now);
      case Select(a) => OnMenuOptionClick(MenuOption(Label(a), a));
    }

    /** Makes the calls in order: the effect on the object is
        `ScreenState.Run`, so every property proved of `Run` holds of any
        sequence of calls on the object. */
    method HandleAll(calls: seq<Call>)
      requires Valid()
      modifies this
      ensures Valid()
      ensures State() == Run(old(State()), calls)
      decreases |calls|
    {
      if calls != [] {
        Handle(calls[0]);
        HandleAll(calls[1..]);
      }
    }
  }

  /** Create the view-model, type "Hello" and send it at clock reading `now`:
      the conversation has three messages, the last one the sent "Hello"
      stamped `now`, and the input is empty again. */
  method SendHello(now: Long) returns (count: nat, last: Message, input: string)
    ensures count == 3 && last == Message("Hello", true, now) && input == ""
  {
    var vm := new MessagingViewModel();
    vm.OnMessageInputChange("Hello");
    assert !IsBlank("Hello");
    vm.SendMessage(now);
    count, last, input := |vm.messages|, vm.messages[|vm.messages| - 1], vm.messageInput;
  }

  /** Create the view-model and press send with `text` in the input, where
      `text` is empty or whitespace only: the conversation is still the two
      seed messages and the input is still `text`. */
  method SendBlank(text: string, now: Long) returns (ms: seq<Message>, input: string)
    requires forall i :: 0 <= i < |text| ==> IsWhitespace(text[i])
    ensures ms == [FirstSeed, SecondSeed] && input == text
  {
    var vm := new MessagingViewModel();
    vm.OnMessageInputChange(text);
    vm.SendMessage(now);
    ms, input := vm.messages, vm.messageInput;
  }
}
