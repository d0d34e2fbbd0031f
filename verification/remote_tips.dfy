/** The reply parser of `generate_tech_tips` in scripts/generate_videos.py. It keeps the line loop
    and the sentence fallback of the local script, but removes a marker by cutting the line after
    its first `.`, and it reads `line[1]` without checking the length, so a line that is one
    digit alone raises `IndexError` out of the whole call. */
module RemoteTips {
  import opened Wrappers
  import opened Chars
  import opened Selection
  import opened Sentences
  import opened Replies
  import LocalTips

  /** The exception that escapes `generate_tech_tips`. */
  datatype ParseError = IndexError

  /** A line for which the guard reads `line[1]` of a one-character string: a lone digit. */
  predicate IndexFault(raw: string) {
    var line := Strip(raw);
    |line| == 1 && IsDigit(line[0])
  }

  predicate AnyFault(raws: seq<string>) {
    exists j :: 0 <= j < |raws| && IndexFault(raws[j])
  }

  lemma AnyFaultStep(raws: seq<string>, i: nat)
    requires i < |raws|
    ensures AnyFault(raws[..i + 1]) <==> AnyFault(raws[..i]) || IndexFault(raws[i])
    ensures IndexFault(raws[i]) ==> AnyFault(raws)
  {
    assert raws[..i + 1][i] == raws[i];
    assert forall j :: 0 <= j < i ==> raws[..i + 1][j] == raws[..i][j];
  }

  /** `line.split('.', 1)[1].strip() if '.' in line else line`. */
  function AfterFirstDot(line: string): (r: string)
    ensures '.' !in line ==> r == line
    ensures '.' in line ==> IsStripped(r) && |r| < |line|
  {
    var k := IndexOf(line, '.');
    if k < |line| then Strip(line[k + 1..]) else line
  }

  /** What one pass of the line loop appends for a content line that does not fault. */
  function CleanLine(raw: string): (r: string)
    ensures IsStripped(r)
  {
    var line := Strip(raw);
    if HasMarker(line) then AfterFirstDot(line) else line
  }

  /** The list the line loop builds, or the exception it raises. */
  function LineEntries(text: string): (r: Result<seq<string>, ParseError>)
    ensures r.Err? <==> AnyFault(SplitLines(text))
    ensures r.Ok? ==> |r.value| <= |SplitLines(text)|
  {
    var raws := SplitLines(text);
    if AnyFault(raws) then Err(IndexError) else Ok(FilterMap(raws, HasContent, CleanLine))
  }

  /** The line loop: skips blank lines, raises on a lone digit, cuts marked lines after their
      first `.`, and appends the rest in order. */
  method ParseLines(text: string) returns (r: Result<seq<string>, ParseError>)
    ensures r == LineEntries(text)
  {
    var raws := SplitLines(text);
    var lines := [];
    var i := 0;
    while i < |raws|
      invariant 0 <= i <= |raws|
      invariant !AnyFault(raws[..i])
      invariant lines == FilterMap(raws[..i], HasContent, CleanLine)
    {
      FilterMapStep(raws, HasContent, CleanLine, i);
      AnyFaultStep(raws, i);
      LineStep(raws[i]);
      var line := Strip(raws[i]);
      if line != [] {
        if IsDigit(line[0]) && |line| < 2 {
          // `line[1]` is out of range
          return Err(IndexError);
        }
        if IsDigit(line[0]) && (line[1] == '.' || line[1] == ')') {
          line := AfterFirstDot(line);
        }
        lines := lines + [line];
      }
      i := i + 1;
    }
    assert raws[..i] == raws;
    r := Ok(lines);
  }

  /** One pass of the loop body: it raises exactly on a lone digit, and otherwise appends
      `CleanLine` of a content line. */
  lemma LineStep(raw: string)
    ensures var line := Strip(raw);
            IndexFault(raw) <==> line != [] && IsDigit(line[0]) && |line| < 2
    ensures var line := Strip(raw);
            line != [] && !IndexFault(raw) ==>
              CleanLine(raw)
              == if IsDigit(line[0]) && (line[1] == '.' || line[1] == ')') then AfterFirstDot(line) else line
  {
  }

  /** What `generate_tech_tips` returns for the reply `text`, or the exception it raises. */
  function TechTips(text: string, numTips: nat): (r: Result<seq<string>, ParseError>)
    ensures r.Err? <==> AnyFault(SplitLines(text))
    ensures r.Ok? ==> |r.value| <= numTips
    ensures r.Ok? ==> forall i :: 0 <= i < |r.value| ==> IsStripped(r.value[i])
  {
    FilterMapAt(SplitLines(text), HasContent, CleanLine);
    match LineEntries(text)
    case Err(e) => Err(e)
    case Ok(lines) =>
      Ok(if |lines| < numTips then Take(SentenceTips(text, numTips), numTips) else Take(lines, numTips))
  }

  /** `generate_tech_tips` after the completion request. */
  method GenerateTechTips(text: string, numTips: nat) returns (r: Result<seq<string>, ParseError>)
    ensures r == TechTips(text, numTips)
  {
    var parsed := ParseLines(text);
    if parsed.Err? {
      return Err(parsed.error);
    }
    var lines := parsed.value;
    if |lines| < numTips {
      lines := Take(SentenceTips(text, numTips), numTips);
    }
    r := Ok(Take(lines, numTips));
  }

  /** Without a lone digit, blank lines contribute nothing and every other line contributes its
      cleaned form exactly once, in the order of the reply. */
  lemma LineEntriesAreContentLines(text: string)
    ensures var raws := SplitLines(text);
            var ps := Positions(raws, HasContent);
            var r := LineEntries(text);
            r.Ok? ==> |r.value| == |ps|
                      && forall k :: 0 <= k < |ps| ==> r.value[k] == CleanLine(raws[ps[k]])
  {
    FilterMapAt(SplitLines(text), HasContent, CleanLine);
  }

  /** With enough line entries the result is the first `numTips` of them; otherwise it is the
      sentence fallback, whose entries are all longer than ten characters. Never padded. */
  lemma TechTipsCases(text: string, numTips: nat)
    ensures var r := LineEntries(text);
            r.Ok? && |r.value| >= numTips ==> TechTips(text, numTips) == Ok(r.value[..numTips])
    ensures var r := LineEntries(text);
            r.Ok? && |r.value| < numTips ==>
              TechTips(text, numTips) == Ok(SentenceTips(text, numTips))
              && forall i :: 0 <= i < |SentenceTips(text, numTips)| ==> |SentenceTips(text, numTips)[i]| > 10
  {
    var r := LineEntries(text);
    if r.Ok? && |r.value| == numTips {
      assert r.value[..numTips] == r.value;
    }
  }

  /** `split('.', 1)[1]`: a line is cut right after its first `.`, whatever comes before it. */
  lemma SplitAtFirstDot(head: string, rest: string)
    requires '.' !in head
    ensures AfterFirstDot(head + "." + rest) == Strip(rest)
  {
    var line := head + "." + rest;
    assert forall j :: 0 <= j < |head| ==> line[j] == head[j];
    assert line[|head|] == '.';
    assert IndexOf(line, '.') == |head|;
    assert line[|head| + 1..] == rest;
  }

  /** "1. Tip A." gives "Tip A.": on a `.` marker the first `.` is the marker's own. */
  lemma DotMarkedLine(d: char, body: string)
    requires IsDigit(d) && IsStripped([d, '.'] + body)
    ensures CleanLine([d, '.'] + body) == Strip(body)
  {
    var line := [d, '.'] + body;
    assert line == [d] + "." + body;
    SplitAtFirstDot([d], body);
    StrippedFixed(line);
    assert HasMarker(line);
  }

  /** "1) Copy. Paste it." gives "Paste it.": a `)`-marked line is cut after its first `.`,
      wherever that is. */
  lemma ParenMarkedLineCut(d: char, head: string, rest: string)
    requires IsDigit(d) && '.' !in head && IsStripped([d, ')'] + head + "." + rest)
    ensures CleanLine([d, ')'] + head + "." + rest) == Strip(rest)
  {
    var line := [d, ')'] + head + "." + rest;
    StrippedFixed(line);
    assert '.' !in [d, ')'] + head;
    SplitAtFirstDot([d, ')'] + head, rest);
  }

  /** "1) Tip" stays "1) Tip": a `)`-marked line without any `.` is kept whole. */
  lemma ParenLineWithoutDot(raw: string)
    requires var line := Strip(raw); HasMarker(line) && '.' !in line
    ensures CleanLine(raw) == Strip(raw)
  {
  }

  /** A lone digit on any line makes the whole call raise, even when the sentence fallback
      would otherwise have been used. */
  lemma LoneDigitRaises(text: string, numTips: nat, j: nat)
    requires j < |SplitLines(text)| && IndexFault(SplitLines(text)[j])
    ensures TechTips(text, numTips) == Err(IndexError)
  {
  }

  /** On a line without a `)` marker both scripts append the same entry. */
  lemma CleanLineAgrees(raw: string)
    requires var line := Strip(raw); !(HasMarker(line) && line[1] == ')')
    ensures CleanLine(raw) == LocalTips.CleanLine(raw)
  {
    var line := Strip(raw);
    if HasMarker(line) {
      SplitAtFirstDot(line[..1], line[2..]);
      assert line[..1] + "." + line[2..] == line;
    }
  }

  /** Without `)` markers and lone digits the two scripts return the same tips: on a `.` marker
      cutting after the first `.` and dropping two characters coincide. */
  lemma AgreesWithLocal(text: string, numTips: nat)
    requires !AnyFault(SplitLines(text))
    requires forall j :: 0 <= j < |SplitLines(text)| ==>
               var line := Strip(SplitLines(text)[j]); !(HasMarker(line) && line[1] == ')')
    ensures TechTips(text, numTips) == Ok(LocalTips.TechTips(text, numTips))
  {
    var raws := SplitLines(text);
    forall j | 0 <= j < |raws| && HasContent(raws[j])
      ensures CleanLine(raws[j]) == LocalTips.CleanLine(raws[j])
    {
      CleanLineAgrees(raws[j]);
    }
    FilterMapAgree(raws, HasContent, CleanLine, LocalTips.CleanLine);
  }
}
