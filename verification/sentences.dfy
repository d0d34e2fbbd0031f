/** The sentence fallback shared by both tip parsers:
    `[s.strip() for s in re.split(r'(?<=[.!?]) +', text) if len(s.strip()) > 10][:num_tips]`. */
module Sentences {
  import opened Chars
  import opened Selection

  predicate IsTerminator(c: char) {
    c == '.' || c == '!' || c == '?'
  }

  /** The pattern `(?<=[.!?]) +` can start a match at position `p` of `s`: a space there, right
      after a sentence terminator. */
  predicate BoundaryAt(s: string, p: nat) {
    0 < p < |s| && s[p] == ' ' && IsTerminator(s[p - 1])
  }

  predicate NoBoundary(s: string) {
    forall p: nat :: p < |s| ==> !BoundaryAt(s, p)
  }

  /** The first position at or after `from` where a match can start, or |s|. */
  function FirstBoundary(s: string, from: nat): (p: nat)
    requires from <= |s|
    ensures from <= p <= |s|
    ensures p < |s| ==> BoundaryAt(s, p)
    ensures forall j: nat :: from <= j < p ==> !BoundaryAt(s, j)
    decreases |s| - from
  {
    if from == |s| || BoundaryAt(s, from) then from else FirstBoundary(s, from + 1)
  }

  /** Where the greedy ` +` stops: the first position at or after `p` that is not a space. */
  function SpaceRunEnd(s: string, p: nat): (q: nat)
    requires p <= |s|
    ensures p <= q <= |s|
    ensures forall j :: p <= j < q ==> s[j] == ' '
    ensures q < |s| ==> s[q] != ' '
    decreases |s| - p
  {
    if p == |s| || s[p] != ' ' then p else SpaceRunEnd(s, p + 1)
  }

  /** `re.split(r'(?<=[.!?]) +', s)`: the text between the maximal runs of spaces that follow a
      `.`, `!` or `?`. There is always at least one piece, and no piece contains a place where the
      pattern could match. */
  function SplitSentences(s: string): (pieces: seq<string>)
    ensures |pieces| >= 1
    ensures forall i :: 0 <= i < |pieces| ==> NoBoundary(pieces[i])
    decreases |s|
  {
    var p := FirstBoundary(s, 0);
    if p == |s| then
      assert forall j: nat :: j < |s| ==> !BoundaryAt(s, j);
      [s]
    else
      var head := s[..p];
      assert forall j: nat :: j < |head| && BoundaryAt(head, j) ==> BoundaryAt(s, j);
      [head] + SplitSentences(s[SpaceRunEnd(s, p)..])
  }

  /** A sentence as a well-formed reply writes it: not empty, not starting with a space, ending
      with a terminator and with no terminator-space pair inside. */
  predicate IsSentence(x: string) {
    x != [] && x[0] != ' ' && IsTerminator(x[|x| - 1]) && NoBoundary(x)
  }

  /** Sentences joined by single spaces, followed by an unterminated `tail`. */
  function JoinSentences(sentences: seq<string>, tail: string): string {
    if sentences == [] then tail else sentences[0] + " " + JoinSentences(sentences[1..], tail)
  }

  /** A sentence followed by one space is split off as the first piece. */
  lemma SplitAfterSentence(x: string, rest: string)
    requires IsSentence(x)
    requires rest == [] || rest[0] != ' '
    ensures SplitSentences(x + " " + rest) == [x] + SplitSentences(rest)
  {
    var s := x + " " + rest;
    assert forall j :: 0 <= j < |x| ==> s[j] == x[j];
    assert BoundaryAt(s, |x|);
    var p := FirstBoundary(s, 0);
    assert p < |x| ==> BoundaryAt(x, p);
    assert p == |x|;
    assert s[..p] == x;
    assert |x| + 1 < |s| ==> s[|x| + 1] == rest[0];
    assert SpaceRunEnd(s, p) == |x| + 1;
    assert s[|x| + 1..] == rest;
  }

  /** Splitting recovers the sentences that were joined, and the tail after them. */
  lemma {:induction false} SplitJoinSentences(sentences: seq<string>, tail: string)
    requires forall i :: 0 <= i < |sentences| ==> IsSentence(sentences[i])
    requires NoBoundary(tail) && (tail == [] || tail[0] != ' ')
    ensures SplitSentences(JoinSentences(sentences, tail)) == sentences + [tail]
  {
    if sentences == [] {
      assert FirstBoundary(tail, 0) == |tail|;
    } else {
      var rest := JoinSentences(sentences[1..], tail);
      assert rest == [] || rest[0] != ' ' by {
        if sentences[1..] != [] { assert rest[0] == sentences[1][0]; }
      }
      SplitAfterSentence(sentences[0], rest);
      SplitJoinSentences(sentences[1..], tail);
      assert sentences == [sentences[0]] + sentences[1..];
    }
  }

  /** The fallback keeps a piece when its stripped form is longer than ten characters. */
  predicate IsLong(piece: string) {
    |Strip(piece)| > 10
  }

  /** The sentence fallback of `generate_tech_tips`: at most `numTips` entries, each stripped and
      longer than ten characters. */
  function SentenceTips(text: string, numTips: nat): (tips: seq<string>)
    ensures |tips| <= numTips
    ensures forall i :: 0 <= i < |tips| ==> |tips[i]| > 10 && IsStripped(tips[i])
  {
    var pieces := SplitSentences(text);
    FilterMapAt(pieces, IsLong, Strip);
    Take(FilterMap(pieces, IsLong, Strip), numTips)
  }

  /** The fallback entries are the long pieces of the text, stripped, in their original order:
      the k-th entry is the k-th long piece, and the count is the number of long pieces, cut to
      `numTips`. */
  lemma SentenceTipsInOrder(text: string, numTips: nat)
    ensures var pieces := SplitSentences(text);
            var ps := Positions(pieces, IsLong);
            var tips := SentenceTips(text, numTips);
            |tips| == (if |ps| < numTips then |ps| else numTips)
            && forall k :: 0 <= k < |tips| ==> tips[k] == Strip(pieces[ps[k]])
  {
    FilterMapAt(SplitSentences(text), IsLong, Strip);
  }

  /** Sentences joined by single spaces, with nothing after the last one. */
  function Paragraph(sentences: seq<string>): string {
    if sentences == [] then []
    else JoinSentences(sentences[..|sentences| - 1], sentences[|sentences| - 1])
  }

  /** A paragraph of sentences, as in "First long sentence. Second long sentence.", splits back
      into exactly its sentences. */
  lemma SplitParagraph(sentences: seq<string>)
    requires forall i :: 0 <= i < |sentences| ==> IsSentence(sentences[i])
    ensures SplitSentences(Paragraph(sentences)) == if sentences == [] then [[]] else sentences
  {
    if sentences == [] {
      assert FirstBoundary([], 0) == 0;
    } else {
      var n := |sentences| - 1;
      SplitJoinSentences(sentences[..n], sentences[n]);
      assert sentences[..n] + [sentences[n]] == sentences;
    }
  }

  /** A paragraph of sentences that are all long enough yields its first `numTips` sentences
      (stripped of nothing, since a sentence already has no surrounding space). */
  lemma ParagraphTips(sentences: seq<string>, numTips: nat)
    requires forall i :: 0 <= i < |sentences| ==> IsSentence(sentences[i])
    requires forall i :: 0 <= i < |sentences| ==> |sentences[i]| > 10
    requires forall i :: 0 <= i < |sentences| ==> !IsSpace(sentences[i][0])
    ensures SentenceTips(Paragraph(sentences), numTips) == Take(sentences, numTips)
  {
    SplitParagraph(sentences);
    if sentences == [] {
      assert !IsLong([]);
      assert FilterMap([[]], IsLong, Strip) == [];
    } else {
      LongSentencesKept(sentences);
    }
  }

  /** Long sentences pass the fallback's filter unchanged. */
  lemma LongSentencesKept(sentences: seq<string>)
    requires forall i :: 0 <= i < |sentences| ==> IsSentence(sentences[i])
    requires forall i :: 0 <= i < |sentences| ==> |sentences[i]| > 10
    requires forall i :: 0 <= i < |sentences| ==> !IsSpace(sentences[i][0])
    ensures FilterMap(sentences, IsLong, Strip) == sentences
  {
    forall i | 0 <= i < |sentences| ensures Strip(sentences[i]) == sentences[i] {
      assert !IsSpace(sentences[i][|sentences[i]| - 1]);
      StrippedFixed(sentences[i]);
    }
    FilterMapKeepsAll(sentences, IsLong, Strip, sentences);
  }
}
