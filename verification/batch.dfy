/** The batch driver at the bottom of both scripts (the two `__main__` blocks are the same): one
    build per tip, a stock clip chosen round-robin, an output name with a 1-based index, and the
    append-only list of `{tip, file}` entries that becomes `outputs/videos_log.json`.
    `build_video` itself is not modelled; the driver records what it asks of it, and whether the
    call returned or raised is an input, as is the clock. */
module Batch {
  import opened Wrappers
  import opened Chars

  /** One element of `videos_log.json`. */
  datatype Entry = Entry(tip: string, file: string)

  /** What the driver asks `build_video` for: the tip, the output path and the stock clip. */
  datatype BuildRequest = BuildRequest(tip: string, output: string, stock: Option<string>)

  /** What the environment supplies for one tip: `int(time.time())` when its name is formed, and
      whether `build_video` returned (rather than raised). */
  datatype Step = Step(clock: nat, built: bool)

  /** A `build_video` call raised for the tip at `index`; the batch stops there and the log is
      never written. */
  datatype BatchError = BuildFailed(index: nat)

  const OutDir: string := "outputs"

  /** `str(OUT_DIR / f"tech_tip_{clock}_{index}.mp4")`. */
  function OutputPath(clock: nat, index: nat): string {
    OutDir + "/tech_tip_" + Decimal(clock) + "_" + Decimal(index) + ".mp4"
  }

  /** Two digit strings joined by `_` can be taken apart again. */
  lemma {:induction false} UnderscoreJoinInjective(a: string, b: string, c: string, d: string)
    requires forall k :: 0 <= k < |a| ==> IsDigit(a[k])
    requires forall k :: 0 <= k < |c| ==> IsDigit(c[k])
    requires a + "_" + b == c + "_" + d
    ensures a == c && b == d
  {
    var s := a + "_" + b;
    assert forall k :: 0 <= k < |a| ==> s[k] == a[k];
    assert forall k :: 0 <= k < |c| ==> s[k] == c[k];
    assert s[|a|] == '_' && s[|c|] == '_';
    assert |a| == |c|;
    assert a == s[..|a|] == c;
    assert b == s[|a| + 1..] == d;
  }

  /** Output names determine their clock reading and index: two names are equal only when both
      agree. */
  lemma OutputPathInjective(clock1: nat, index1: nat, clock2: nat, index2: nat)
    requires OutputPath(clock1, index1) == OutputPath(clock2, index2)
    ensures clock1 == clock2 && index1 == index2
  {
    var prefix := OutDir + "/tech_tip_";
    var mid1 := Decimal(clock1) + "_" + Decimal(index1);
    var mid2 := Decimal(clock2) + "_" + Decimal(index2);
    var p1, p2 := OutputPath(clock1, index1), OutputPath(clock2, index2);
    assert p1 == prefix + mid1 + ".mp4";
    assert p2 == prefix + mid2 + ".mp4";
    assert |mid1| == |mid2|;
    assert mid1 == p1[|prefix|..|prefix| + |mid1|];
    assert mid2 == p2[|prefix|..|prefix| + |mid2|];
    UnderscoreJoinInjective(Decimal(clock1), Decimal(index1), Decimal(clock2), Decimal(index2));
    DecimalInjective(clock1, clock2);
    DecimalInjective(index1, index2);
  }

  /** `str(stock_candidates[i % len(stock_candidates)]) if stock_candidates else None`. */
  function StockFor(candidates: seq<string>, i: nat): (stock: Option<string>)
    ensures stock.Some? <==> candidates != []
    ensures stock.Some? ==> stock.value in candidates
  {
    if candidates == [] then None else Some(candidates[i % |candidates|])
  }

  /** Round-robin: the first |candidates| tips use the candidates in sorted order, one each. */
  lemma StockFirstRound(candidates: seq<string>, i: nat)
    requires i < |candidates|
    ensures StockFor(candidates, i) == Some(candidates[i])
  {
  }

  /** Round-robin: the choice repeats with period |candidates|. */
  lemma StockPeriodic(candidates: seq<string>, i: nat)
    requires candidates != []
    ensures StockFor(candidates, i + |candidates|) == StockFor(candidates, i)
  {
    ModAddPeriod(i, |candidates|);
  }

  /** Adding the divisor does not change the remainder. */
  lemma ModAddPeriod(i: nat, n: nat)
    requires n > 0
    ensures (i + n) % n == i % n
  {
    var q, r := i / n, i % n;
    var q', r' := (i + n) / n, (i + n) % n;
    var d := q' - q - 1;
    assert d * n == q' * n - q * n - n;
    MultipleBounds(d, n);
  }

  /** A non-zero multiple of `n` is at least `n` away from zero. */
  lemma MultipleBounds(d: int, n: int)
    requires n > 0
    ensures d >= 1 ==> d * n >= n
    ensures d <= -1 ==> d * n <= 0 - n
  {
    if d >= 1 {
      assert d * n == (d - 1) * n + n;
    } else if d <= -1 {
      assert d * n == (d + 1) * n - n;
    }
  }

  /** The log of a run in which every build returned: one entry per tip, in tip order, the i-th
      naming its tip and the file with index i + 1. */
  function Manifest(tips: seq<string>, steps: seq<Step>): (log: seq<Entry>)
    requires |steps| == |tips|
    ensures |log| == |tips|
  {
    seq(|tips|, i requires 0 <= i < |tips| => Entry(tips[i], OutputPath(steps[i].clock, i + 1)))
  }

  /** The first `count` build requests of a run. */
  function Requests(tips: seq<string>, candidates: seq<string>, steps: seq<Step>, count: nat)
    : (requests: seq<BuildRequest>)
    requires |steps| == |tips| && count <= |tips|
    ensures |requests| == count
  {
    seq(count, i requires 0 <= i < count =>
      BuildRequest(tips[i], OutputPath(steps[i].clock, i + 1), StockFor(candidates, i)))
  }

  /** The index of the first tip whose build raises, or |steps| when every build returns. */
  function FirstFailure(steps: seq<Step>): (f: nat)
    ensures f <= |steps|
    ensures forall j :: 0 <= j < f ==> steps[j].built
    ensures f < |steps| ==> !steps[f].built
  {
    if steps == [] || !steps[0].built then 0 else 1 + FirstFailure(steps[1..])
  }

  /** The `__main__` loop over the tips. It asks for one build per tip, in order, up to and
      including the first one that raises; it returns the log exactly when every build returned,
      and then the log holds one entry per tip. */
  method RunBatch(tips: seq<string>, candidates: seq<string>, steps: seq<Step>)
    returns (log: Result<seq<Entry>, BatchError>, requests: seq<BuildRequest>)
    requires |steps| == |tips|
    ensures var f := FirstFailure(steps);
            requests == Requests(tips, candidates, steps, if f < |tips| then f + 1 else f)
    ensures var f := FirstFailure(steps);
            log == if f < |tips| then Err(BuildFailed(f)) else Ok(Manifest(tips, steps))
  {
    var results: seq<Entry> := [];
    requests := [];
    var i := 0;
    while i < |tips|
      invariant 0 <= i <= |tips|
      invariant forall j :: 0 <= j < i ==> steps[j].built
      invariant requests == Requests(tips, candidates, steps, i)
      invariant results == Manifest(tips[..i], steps[..i])
    {
      var name := "tech_tip_" + Decimal(steps[i].clock) + "_" + Decimal(i + 1) + ".mp4";
      var outPath := OutDir + "/" + name;
      var stock := if |candidates| > 0 then Some(candidates[i % |candidates|]) else None;
      assert outPath == OutputPath(steps[i].clock, i + 1);
      assert stock == StockFor(candidates, i);
      requests := requests + [BuildRequest(tips[i], outPath, stock)];
      assert requests == Requests(tips, candidates, steps, i + 1);
      if !steps[i].built {
        assert FirstFailure(steps) == i;
        log := Err(BuildFailed(i));
        return;
      }
      results := results + [Entry(tips[i], outPath)];
      i := i + 1;
    }
    assert tips[..i] == tips && steps[..i] == steps;
    log := Ok(results);
  }

  /** No two videos of one run share a file name, so none overwrites another. */
  lemma ManifestFilesDistinct(tips: seq<string>, steps: seq<Step>, i: nat, j: nat)
    requires |steps| == |tips| && i < j < |tips|
    ensures Manifest(tips, steps)[i].file != Manifest(tips, steps)[j].file
  {
    var log := Manifest(tips, steps);
    if log[i].file == log[j].file {
      OutputPathInjective(steps[i].clock, i + 1, steps[j].clock, j + 1);
    }
  }

  /** Every build request of a run that has stock candidates names one of them, and the i-th
      request is for the i-th tip, written to the file its log entry names. */
  lemma RequestsMatchManifest(tips: seq<string>, candidates: seq<string>, steps: seq<Step>, i: nat)
    requires |steps| == |tips| && i < |tips|
    ensures var r := Requests(tips, candidates, steps, |tips|)[i];
            var e := Manifest(tips, steps)[i];
            r.tip == e.tip == tips[i] && r.output == e.file
            && (candidates != [] <==> r.stock.Some?)
            && (r.stock.Some? ==> r.stock.value in candidates)
  {
  }
}
