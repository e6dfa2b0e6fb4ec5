/**
 * The X11 keysym values the prompt compares against (the values of X11's
 * keysymdef.h, which the window manager's keysym table carries). A key
 * press reaches the prompt as one of these numbers.
 */
module Keysyms {

  const BACKSPACE: nat := 0xff08
  const TAB: nat := 0xff09
  const RETURN: nat := 0xff0d
  const ESCAPE: nat := 0xff1b
  const UP: nat := 0xff52
  const DOWN: nat := 0xff54
  const PAGE_UP: nat := 0xff55
  const PAGE_DOWN: nat := 0xff56

  /**
   * `History.keysyms`: the keys the history navigates on. None of them is a
   * 7-bit character or one of the other keys the prompt tests, so the order
   * in which the prompt tests keys never hides one of them.
   */
  function IsHistoryKey(k: nat): (r: bool)
    ensures r ==> 127 <= k && k != TAB && k != BACKSPACE && k != ESCAPE && k != RETURN
  {
    k == UP || k == DOWN || k == PAGE_UP || k == PAGE_DOWN
  }

  /**
   * `keysym < 127 and chr(keysym) in string.printable`: the 7-bit printable
   * characters, which are ' ' to '~' and the whitespace "\t\n\x0b\x0c\r".
   */
  function IsPrintable(k: nat): (r: bool)
    ensures r ==> k < 127 && !IsHistoryKey(k)
    ensures r ==> k != TAB && k != BACKSPACE && k != ESCAPE && k != RETURN
    ensures r <==> k < 127 && (k as char == ' ' || IsGraphic(k as char) || IsWhitespace(k as char))
  {
    k < 127 && (32 <= k <= 126 || 9 <= k <= 13)
  }

  /**
   * `string.digits + string.ascii_letters + string.punctuation`: the visible
   * 7-bit characters. The punctuation is the four runs between the digits and
   * letters: '!'..'/', ':'..'@', '['..'`' and '{'..'~'.
   */
  predicate IsGraphic(c: char)
  {
    '0' <= c <= '9' || 'a' <= c <= 'z' || 'A' <= c <= 'Z' ||
    '!' <= c <= '/' || ':' <= c <= '@' || '[' <= c <= '`' || '{' <= c <= '~'
  }

  /** `string.whitespace` without the space: tab, line feed, vertical tab, form feed, carriage return. */
  predicate IsWhitespace(c: char)
  {
    c == '\t' || c == '\n' || c == 11 as char || c == 12 as char || c == '\r'
  }
}
