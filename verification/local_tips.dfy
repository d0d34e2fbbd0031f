/** The reply parser of `generate_tech_tips` in scripts/generate_videos_local.py: the completion
    text goes in, at most `numTips` tip strings come out. The request that produces the text is
    not part of this model; the text is an input. */
module LocalTips {
  import opened Chars
  import opened Selection
  import opened Sentences
  import opened Replies

  /** What one pass of the line loop appends for a content line. */
  function CleanLine(raw: string): (r: string)
    ensures IsStripped(r)
  {
    var line := Strip(raw);
    if HasMarker(line) then Strip(line[2..]) else line
  }

  /** The scan for the end of the marker: the first `.` or `)` at position 1 or later, or |line|
      when there is none. */
  method FindSeparator(line: string) returns (idx: nat)
    requires |line| >= 1
    ensures 1 <= idx <= |line|
    ensures idx < |line| ==> IsMarkerSeparator(line[idx])
    ensures forall j :: 1 <= j < idx ==> !IsMarkerSeparator(line[j])
  {
    idx := 1;
    while idx < |line| && !IsMarkerSeparator(line[idx])
      invariant 1 <= idx <= |line|
      invariant forall j :: 1 <= j < idx ==> !IsMarkerSeparator(line[j])
    {
      idx := idx + 1;
    }
  }

  /** The marker removal as the loop body runs it: under the guard the scan stops at position 1,
      so a marked line loses exactly its first two characters and is stripped again; any other
      line is left as it is. */
  method RemoveMarker(line: string) returns (r: string)
    ensures HasMarker(line) ==> r == Strip(line[2..])
    ensures !HasMarker(line) ==> r == line
  {
    r := line;
    if |line| > 1 && IsDigit(line[0]) && IsMarkerSeparator(line[1]) {
      var idx := FindSeparator(line);
      r := if idx < |line| then Strip(line[idx + 1..]) else line;
    }
  }

  /** The list the line loop builds from the reply text. */
  function LineEntries(text: string): (lines: seq<string>)
    ensures |lines| <= |SplitLines(text)|
    ensures forall i :: 0 <= i < |lines| ==> IsStripped(lines[i])
  {
    FilterMapAt(SplitLines(text), HasContent, CleanLine);
    FilterMap(SplitLines(text), HasContent, CleanLine)
  }

  /** The line loop: skips blank lines, strips the others, removes their markers and appends
      them in order. */
  method ParseLines(text: string) returns (lines: seq<string>)
    ensures lines == LineEntries(text)
  {
    lines := CleanLines(SplitLines(text));
  }

  /** The body of the line loop over the lines `raws` of the reply. */
  method CleanLines(raws: seq<string>) returns (lines: seq<string>)
    ensures lines == FilterMap(raws, HasContent, CleanLine)
  {
    lines := [];
    var i := 0;
    while i < |raws|
      invariant 0 <= i <= |raws|
      invariant lines == FilterMap(raws[..i], HasContent, CleanLine)
    {
      FilterMapStep(raws, HasContent, CleanLine, i);
      LineStep(raws[i]);
      var line := Strip(raws[i]);
      if line != [] {
        line := RemoveMarker(line);
        lines := lines + [line];
      }
      i := i + 1;
    }
    assert raws[..i] == raws;
  }

  /** One pass of the loop body: a line is appended exactly when it has content, and what is
      appended is the stripped line with its marker removed. */
  lemma LineStep(raw: string)
    ensures var line := Strip(raw);
            (HasContent(raw) <==> line != [])
            && (line != [] ==> CleanLine(raw) == if HasMarker(line) then Strip(line[2..]) else line)
  {
  }

  /** What `generate_tech_tips` returns for the reply `text`: the line entries when there are at
      least `numTips` of them, cut to `numTips`; otherwise the sentence fallback. */
  function TechTips(text: string, numTips: nat): (tips: seq<string>)
    ensures |tips| <= numTips
    ensures forall i :: 0 <= i < |tips| ==> IsStripped(tips[i])
  {
    var lines := LineEntries(text);
    FilterMapAt(SplitLines(text), HasContent, CleanLine);
    if |lines| < numTips then Take(SentenceTips(text, numTips), numTips) else Take(lines, numTips)
  }

  /** `generate_tech_tips` after the completion request. */
  method GenerateTechTips(text: string, numTips: nat) returns (tips: seq<string>)
    ensures tips == TechTips(text, numTips)
  {
    var lines := ParseLines(text);
    if |lines| < numTips {
      lines := Take(SentenceTips(text, numTips), numTips);
    }
    tips := Take(lines, numTips);
  }

  /** Blank lines contribute nothing; every other line contributes its cleaned form exactly
      once, in the order of the reply. */
  lemma LineEntriesAreContentLines(text: string)
    ensures var raws := SplitLines(text);
            var ps := Positions(raws, HasContent);
            |LineEntries(text)| == |ps|
            && forall k :: 0 <= k < |ps| ==> LineEntries(text)[k] == CleanLine(raws[ps[k]])
  {
    FilterMapAt(SplitLines(text), HasContent, CleanLine);
  }

  /** A marked line, whatever whitespace surrounds it, loses the digit and the separator, and
      what follows is stripped: "1. Use keyboard shortcuts." gives "Use keyboard shortcuts.". */
  lemma MarkedLine(lead: string, d: char, sep: char, body: string, trail: string)
    requires AllSpace(lead) && AllSpace(trail)
    requires IsDigit(d) && IsMarkerSeparator(sep)
    requires body == [] || !IsSpace(body[|body| - 1])
    ensures CleanLine(lead + [d, sep] + body + trail) == Strip(body)
  {
    var line := [d, sep] + body;
    StripUnique(lead + [d, sep] + body + trail, lead, line, trail);
    assert line[2..] == body;
  }

  /** A line without a one-digit marker is only stripped: a lone character, "10." and "1-" pass
      through unchanged. */
  lemma UnmarkedLine(raw: string)
    requires var line := Strip(raw); |line| <= 1 || !IsDigit(line[0]) || !IsMarkerSeparator(line[1])
    ensures CleanLine(raw) == Strip(raw)
  {
  }

  /** A bare marker such as "1." is a content line whose entry is empty, and it is kept. */
  lemma BareMarkerKeptEmpty(d: char, sep: char)
    requires IsDigit(d) && IsMarkerSeparator(sep)
    ensures HasContent([d, sep]) && CleanLine([d, sep]) == []
  {
    StrippedFixed([d, sep]);
  }

  /** With enough line entries the result is the first `numTips` of them; otherwise it is the
      sentence fallback, whose entries are all longer than ten characters. Never padded. */
  lemma TechTipsCases(text: string, numTips: nat)
    ensures |LineEntries(text)| >= numTips ==>
              TechTips(text, numTips) == LineEntries(text)[..numTips]
    ensures |LineEntries(text)| < numTips ==>
              TechTips(text, numTips) == SentenceTips(text, numTips)
              && forall i :: 0 <= i < |TechTips(text, numTips)| ==> |TechTips(text, numTips)[i]| > 10
  {
  }

  /** The reply lines the prompt asks for: the i-th tip after a one-digit number and ". ". */
  function Numbered(digits: seq<char>, tips: seq<string>): (lines: seq<string>)
    requires |digits| == |tips|
    ensures |lines| == |tips|
  {
    seq(|tips|, i requires 0 <= i < |tips| => [digits[i], '.', ' '] + tips[i])
  }

  /** One requested line: a digit, ". " and the tip. */
  lemma NumberedLine(d: char, tip: string)
    requires IsDigit(d) && tip != [] && IsStripped(tip) && NoLineBreak(tip)
    ensures var raw := [d, '.', ' '] + tip;
            NoLineBreak(raw) && HasContent(raw) && CleanLine(raw) == tip
  {
    var raw := [d, '.', ' '] + tip;
    var body := " " + tip;
    assert raw == [] + [d, '.'] + body + [];
    NumberedLineShape(d, tip);
    StripUnique(body, " ", tip, []);
    MarkedLine([], d, '.', body, []);
  }

  lemma NumberedLineShape(d: char, tip: string)
    requires IsDigit(d) && NoLineBreak(tip)
    ensures NoLineBreak([d, '.', ' '] + tip) && HasContent([d, '.', ' '] + tip)
  {
    var raw := [d, '.', ' '] + tip;
    assert forall j :: 3 <= j < |raw| ==> raw[j] == tip[j - 3];
    assert !IsSpace(raw[0]);
  }

  /** A reply in the requested shape, one numbered tip per line, gives back exactly its tips,
      whether its lines end in "\n" or "\r\n" and whether or not the last one does, as in
      "1. Tip A.\n2. Tip B.\n3. Tip C.\n4. Tip D.\n5. Tip E." with `numTips` = 5. */
  lemma NumberedReply(digits: seq<char>, tips: seq<string>, eol: string, final: string)
    requires |digits| == |tips|
    requires forall i :: 0 <= i < |tips| ==> IsDigit(digits[i])
    requires forall i :: 0 <= i < |tips| ==> tips[i] != [] && IsStripped(tips[i]) && NoLineBreak(tips[i])
    requires eol == "\n" || eol == "\r\n"
    requires final == [] || final == eol
    ensures TechTips(Joined(Numbered(digits, tips), eol) + final, |tips|) == tips
  {
    if tips != [] {
      var raws := Numbered(digits, tips);
      forall i | 0 <= i < |raws|
        ensures NoLineBreak(raws[i]) && HasContent(raws[i]) && CleanLine(raws[i]) == tips[i]
      {
        NumberedLine(digits[i], tips[i]);
      }
      SplitLinesJoined(raws, eol, final);
      FilterMapKeepsAll(raws, HasContent, CleanLine, tips);
    }
  }
}
