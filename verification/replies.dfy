/** The vocabulary both tip parsers use for one line of the completion reply. */
module Replies {
  import opened Chars

  /** `if not line: continue` after `line = line.strip()`: a line is kept when something is left
      after stripping. */
  predicate HasContent(raw: string)
    ensures HasContent(raw) <==> !AllSpace(raw)
  {
    Strip(raw) != []
  }

  predicate IsMarkerSeparator(c: char) {
    c == '.' || c == ')'
  }

  /** An enumeration marker: a digit followed by `.` or `)`, on a line of two or more characters. */
  predicate HasMarker(line: string) {
    |line| > 1 && IsDigit(line[0]) && IsMarkerSeparator(line[1])
  }
}
