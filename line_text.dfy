/**
 * Extraction of the first line of the trigger packet text, and of the
 * NUL-terminated prefix that a C string view of the same text stands for.
 */
module LineText {
  import opened Results

  /** The default `endl` argument of `TriggerDecoder::firstLine`: `"\0\n\r"s`. */
  const LINE_ENDS: set<char> := {'\0', '\n', '\r'}

  /**
   * `std::string::find_first_of`: the position of the first character of `s`
   * in `chars`, `None` standing for `std::string::npos`.
   */
  function FindFirstOf(s: string, chars: set<char>): (pos: Option<nat>)
    ensures pos.Some? ==> pos.value < |s| && s[pos.value] in chars
    ensures forall k | 0 <= k < |s| && (pos.None? || k < pos.value) :: s[k] !in chars
  {
    if s == [] then None
    else if s[0] in chars then Some(0)
    else match FindFirstOf(s[1..], chars)
      case None => None
      case Some(i) => Some(i + 1)
  }

  /** `std::min(pos, s.size())` with `npos` larger than any size. */
  function EndOf(s: string, pos: Option<nat>): nat
  {
    match pos
    case None => |s|
    case Some(i) => if i < |s| then i else |s|
  }

  /**
   * `TriggerDecoder::firstLine`: the text of `s` up to, not including, the
   * first NUL, LF or CR, or all of `s` if it has none.
   */
  function FirstLine(s: string): (line: string)
    ensures line <= s
    ensures forall k | 0 <= k < |line| :: line[k] !in LINE_ENDS
    ensures |line| < |s| ==> s[|line|] in LINE_ENDS
  {
    s[..EndOf(s, FindFirstOf(s, LINE_ENDS))]
  }

  /**
   * The string a `char const*` to the data of `s` stands for: the text up to
   * the first NUL.
   */
  function CString(s: string): (text: string)
    ensures text <= s
    ensures forall k | 0 <= k < |text| :: text[k] != '\0'
    ensures |text| < |s| ==> s[|text|] == '\0'
  {
    s[..EndOf(s, FindFirstOf(s, {'\0'}))]
  }

  /** A string with none of the given characters. */
  predicate NoneOf(s: string, chars: set<char>)
  {
    forall k | 0 <= k < |s| :: s[k] !in chars
  }

  /**
   * The three properties of `FirstLine`'s contract determine it: any prefix
   * free of line ends that stops at the end or at a line end is the first line.
   */
  lemma FirstLineUnique(s: string, p: string)
    requires p <= s && NoneOf(p, LINE_ENDS)
    requires |p| == |s| || s[|p|] in LINE_ENDS
    ensures p == FirstLine(s)
  {
  }

  /** A string with no line end is its own first line. */
  lemma FirstLineOfSingleLine(s: string)
    requires NoneOf(s, LINE_ENDS)
    ensures FirstLine(s) == s
  {
    FirstLineUnique(s, s);
  }

  /** What follows the first line end never reaches the first line. */
  lemma FirstLineIgnoresRest(line: string, end: char, rest: string)
    requires NoneOf(line, LINE_ENDS) && end in LINE_ENDS
    ensures FirstLine(line + [end] + rest) == line
  {
    var s := line + [end] + rest;
    assert line <= s;
    assert s[|line|] == end;
    FirstLineUnique(s, line);
  }

  /** Taking the first line twice changes nothing. */
  lemma FirstLineIdempotent(s: string)
    ensures FirstLine(FirstLine(s)) == FirstLine(s)
  {
    FirstLineOfSingleLine(FirstLine(s));
  }

  /**
   * The first line never extends past the C string: the keyed parser sees a
   * prefix of what the trigger string parser sees.
   */
  lemma FirstLineWithinCString(s: string)
    ensures FirstLine(s) <= CString(s)
  {
  }
}
