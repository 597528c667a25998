/** The value records of the chat screen: messages, the attachment-menu
    options, and the notion of a blank input string. */
module Data {

  /** Kotlin's `Long`: a signed 64-bit integer (the type of a timestamp in
      epoch milliseconds). */
  newtype Long = x: int | -0x8000_0000_0000_0000 <= x < 0x8000_0000_0000_0000

  /** One message of the conversation: its text, whether the user sent it
      (`true`) or received it (`false`), and its timestamp in epoch
      milliseconds. */
  datatype Message = Message(text: string, isSent: bool, timestamp: Long)

  /** What a menu option does when it is clicked. In the original each option
      carries a closure; each closure calls exactly one selection handler of
      the view-model, so the closure is represented by which handler it calls. */
  datatype MenuAction = Camera | Photos | Files | Audio

  /** A menu option of the attachment overlay. The icon resource and the
      accent colour are presentation data and are not modelled. */
  datatype MenuOption = MenuOption(text: string, onClick: MenuAction)

  /** Kotlin's `Char.isWhitespace()` on the JVM, which holds when either
      `Character.isWhitespace` or `Character.isSpaceChar` does: the control
      characters U+0009..U+000D and U+001C..U+001F, and every character of the
      Unicode categories Zs (space separators, no-break spaces included),
      Zl and Zp. */
  predicate IsWhitespace(c: char) {
    var n := c as int;
    (0x09 <= n <= 0x0D) || (0x1C <= n <= 0x20) ||
    n == 0xA0 || n == 0x1680 || (0x2000 <= n <= 0x200A) ||
    n == 0x2028 || n == 0x2029 || n == 0x202F || n == 0x205F || n == 0x3000
  }

  /** Kotlin's `CharSequence.isBlank()`: the string is empty or every one of
      its characters is whitespace. Checked one character at a time, front to
      back, as the library does. */
  function IsBlank(s: string): (blank: bool)
    ensures blank <==> forall i :: 0 <= i < |s| ==> IsWhitespace(s[i])
    ensures |s| == 0 ==> blank
    decreases |s|
  {
    if |s| == 0 then true
    else if !IsWhitespace(s[0]) then false
    else IsBlank(s[1..])
  }
}
