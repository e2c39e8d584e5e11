/**
 * The loops of `main` once the image list is known: one conversion of each
 * image into the YUV working directory, then one VMAF scoring of each
 * adjacent pair (i-1, i) with its own JSON result file, and the rows of the
 * report.  The two external programs are parameters; every call the script
 * makes to them is recorded, in order, as an `Invocation`.
 */
module Planner {
  import opened Wrappers
  import opened Digits
  import Lister

  const YuvDir: string := "yuv_dir"
  const JsonDir: string := "json_dir"

  /**
   * The external programs as the script sees them.  `convert(source, target)`
   * is ffmpeg's exit status being zero.  `vmaf(exe, reference, distorted,
   * output)` is the score read from `frames[0].metrics.vmaf` of the JSON file
   * the scorer wrote, or None when the scorer exits non-zero or the file does
   * not hold that field.
   */
  datatype Tools<S> = Tools(
    convert: (string, string) -> bool,
    vmaf: (string, string, string, string) -> Option<S>)

  /** One run of an external program, with the paths the script passes it. */
  datatype Invocation =
    | Convert(source: string, target: string)
    | Compare(exe: string, reference: string, distorted: string, output: string)

  /** One line of the CSV report: Image 1, Image 2, VMAF Score. */
  datatype Row<S> = Row(image1: string, image2: string, score: S)

  datatype Outcome<S> =
    | InvalidName          // a kept file name has no digit
    | NotEnoughImages      // fewer than two images: clean exit, no report
    | ToolFailed           // an external program failed: the run aborts, no report
    | Completed(rows: seq<Row<S>>)

  // ---------------------------------------------------------------------
  // Paths

  /** The position of the last '.' in a name (`str.rfind('.')`), if any. */
  function LastDot(name: string): (r: Option<nat>)
    ensures r.None? ==> forall k :: 0 <= k < |name| ==> name[k] != '.'
    ensures r.Some? ==> r.value < |name| && name[r.value] == '.'
    ensures r.Some? ==> forall k :: r.value < k < |name| ==> name[k] != '.'
  {
    if name == [] then None
    else if name[|name| - 1] == '.' then Some(|name| - 1)
    else LastDot(name[..|name| - 1])
  }

  /**
   * `Path(name).stem` for a bare file name: the name without its final
   * suffix, where a suffix starts at the last dot provided that dot is
   * neither the first nor the last character.
   */
  function Stem(name: string): (stem: string)
    ensures |stem| <= |name| && stem == name[..|stem|]
    ensures |stem| < |name| ==>
      && 0 < |stem| < |name| - 1 && name[|stem|] == '.'
      && forall k :: |stem| < k < |name| ==> name[k] != '.'
    ensures forall i :: 0 < i < |name| - 1 && name[i] == '.' && (forall k :: i < k < |name| ==> name[k] != '.') ==>
      stem == name[..i]
  {
    match LastDot(name)
    case Some(i) => if 0 < i < |name| - 1 then name[..i] else name
    case None => name
  }

  function ImagePath(dir: string, image: string): string
  {
    dir + "/" + image
  }

  function YuvPath(image: string): string
  {
    YuvDir + "/" + Stem(image) + ".yuv"
  }

  /** The result file of pair `i`: `compare_{i-1}_{i}.json`. */
  function ResultPath(i: nat): string
    requires i >= 1
  {
    JsonDir + "/compare_" + DecimalString(i - 1) + "_" + DecimalString(i) + ".json"
  }

  /**
   * For a name ending in "." + ext, with a non-empty extension without dots
   * and something before the dot, the stem is the name without "." + ext.
   */
  lemma StemDropsExtension(image: string, ext: string)
    requires Lister.EndsWith(image, "." + ext)
    requires |ext| > 0 && forall k :: 0 <= k < |ext| ==> ext[k] != '.'
    requires |image| > |ext| + 1
    ensures Stem(image) == image[..|image| - |ext| - 1]
    ensures YuvPath(image) == YuvDir + "/" + image[..|image| - |ext| - 1] + ".yuv"
  {
    var d := |image| - |ext| - 1;
    assert image[d] == ("." + ext)[0] == '.';
    forall k | d < k < |image| ensures image[k] != '.' {
      assert image[k] == ("." + ext)[k - d] == ext[k - d - 1];
    }
    assert LastDot(image) == Some(d);
  }

  /** Two different images with the same extension get different YUV files. */
  lemma YuvPathsDistinct(a: string, b: string, ext: string)
    requires Lister.EndsWith(a, "." + ext) && Lister.EndsWith(b, "." + ext)
    requires |ext| > 0 && forall k :: 0 <= k < |ext| ==> ext[k] != '.'
    requires |a| > |ext| + 1 && |b| > |ext| + 1
    requires a != b
    ensures YuvPath(a) != YuvPath(b)
  {
    StemDropsExtension(a, ext);
    StemDropsExtension(b, ext);
    var sa, sb := a[..|a| - |ext| - 1], b[..|b| - |ext| - 1];
    assert a == sa + "." + ext;
    assert b == sb + "." + ext;
    var n := |YuvDir + "/"|;
    assert YuvPath(a)[n..|YuvPath(a)| - 4] == sa;
    assert YuvPath(b)[n..|YuvPath(b)| - 4] == sb;
  }

  /** Different digit strings followed by '_' give different strings. */
  lemma DigitPrefixesDiffer(p: string, x: string, y: string, u: string, v: string)
    requires AllDigits(x) && AllDigits(y) && x != y
    ensures p + x + "_" + u != p + y + "_" + v
  {
    var s, t := p + x + "_" + u, p + y + "_" + v;
    if |x| <= |y| && x == y[..|x|] {
      assert |x| < |y|;
      assert s[|p| + |x|] == '_' && t[|p| + |x|] == y[|x|];
    } else if |y| <= |x| && y == x[..|y|] {
      assert |y| < |x|;
      assert t[|p| + |y|] == '_' && s[|p| + |y|] == x[|y|];
    } else {
      var k :| 0 <= k < |x| && k < |y| && x[k] != y[k];
      assert s[|p| + k] == x[k] && t[|p| + k] == y[k];
    }
  }

  /** Different pairs write their results to different files. */
  lemma ResultPathsDistinct(i: nat, j: nat)
    requires 1 <= i && 1 <= j && i != j
    ensures ResultPath(i) != ResultPath(j)
  {
    DecimalStringInjective(i - 1, j - 1);
    DigitPrefixesDiffer(JsonDir + "/compare_", DecimalString(i - 1), DecimalString(j - 1),
      DecimalString(i) + ".json", DecimalString(j) + ".json");
    var p := JsonDir + "/compare_";
    assert ResultPath(i) == p + DecimalString(i - 1) + "_" + (DecimalString(i) + ".json");
    assert ResultPath(j) == p + DecimalString(j - 1) + "_" + (DecimalString(j) + ".json");
  }

  // ---------------------------------------------------------------------
  // The calls the script plans to make

  function YuvPaths(images: seq<string>): seq<string>
  {
    seq(|images|, k requires 0 <= k < |images| => YuvPath(images[k]))
  }

  /** One conversion per image, in list order. */
  function ConversionPlan(dir: string, images: seq<string>): seq<Invocation>
  {
    seq(|images|, k requires 0 <= k < |images| => Convert(ImagePath(dir, images[k]), YuvPath(images[k])))
  }

  function PairCount(n: nat): nat
  {
    if n < 2 then 0 else n - 1
  }

  /** One scoring per adjacent pair (k, k+1) of converted files, in increasing k. */
  function ComparisonPlan(exe: string, yuvFiles: seq<string>): seq<Invocation>
  {
    seq(PairCount(|yuvFiles|), k requires 0 <= k < PairCount(|yuvFiles|) =>
      Compare(exe, yuvFiles[k], yuvFiles[k + 1], ResultPath(k + 1)))
  }

  /** All conversions first, then all comparisons. */
  function Plan(dir: string, exe: string, images: seq<string>): seq<Invocation>
  {
    ConversionPlan(dir, images) + ComparisonPlan(exe, YuvPaths(images))
  }

  predicate Succeeds<S>(call: Invocation, tools: Tools<S>)
  {
    match call
    case Convert(source, target) => tools.convert(source, target)
    case Compare(exe, reference, distorted, output) => tools.vmaf(exe, reference, distorted, output).Some?
  }

  /**
   * `calls` is what carrying out `plan` performs when the first failing call
   * aborts the run (`subprocess.run(..., check=True)` raises): a prefix of
   * the plan whose calls all succeed except possibly the last; `ok` means the
   * whole plan ran and succeeded, otherwise the last call made failed.
   */
  ghost predicate StopsAtFirstFailure<S>(calls: seq<Invocation>, plan: seq<Invocation>, ok: bool, tools: Tools<S>)
  {
    && |calls| <= |plan| && calls == plan[..|calls|]
    && (forall k :: 0 <= k < |calls| - 1 ==> Succeeds(calls[k], tools))
    && (ok ==> calls == plan && forall k :: 0 <= k < |calls| ==> Succeeds(calls[k], tools))
    && (!ok ==> calls != [] && !Succeeds(calls[|calls| - 1], tools))
  }

  /** A run that got through one plan and then ran a second one ran their concatenation. */
  lemma StopsAtFirstFailureThen<S>(c1: seq<Invocation>, p1: seq<Invocation>, c2: seq<Invocation>, p2: seq<Invocation>, ok: bool, tools: Tools<S>)
    requires StopsAtFirstFailure(c1, p1, true, tools)
    requires StopsAtFirstFailure(c2, p2, ok, tools)
    ensures StopsAtFirstFailure(c1 + c2, p1 + p2, ok, tools)
  {
    assert (p1 + p2)[..|c1 + c2|] == c1 + c2;
    forall k | 0 <= k < |c1 + c2| - 1 ensures Succeeds((c1 + c2)[k], tools) {
      if k >= |c1| {
        assert (c1 + c2)[k] == c2[k - |c1|];
      }
    }
  }

  /** A run that failed during one plan also stopped at the first failure of a longer one. */
  lemma StopsAtFirstFailureBefore<S>(c1: seq<Invocation>, p1: seq<Invocation>, p2: seq<Invocation>, tools: Tools<S>)
    requires StopsAtFirstFailure(c1, p1, false, tools)
    ensures StopsAtFirstFailure(c1, p1 + p2, false, tools)
  {
    assert (p1 + p2)[..|c1|] == p1[..|c1|];
  }

  /** Every planned comparison writes to a result file of its own. */
  lemma ComparisonPlanOutputsDistinct(exe: string, yuvFiles: seq<string>)
    ensures forall a, b :: 0 <= a < b < |ComparisonPlan(exe, yuvFiles)| ==>
      ComparisonPlan(exe, yuvFiles)[a].output != ComparisonPlan(exe, yuvFiles)[b].output
  {
    forall a, b | 0 <= a < b < |ComparisonPlan(exe, yuvFiles)|
      ensures ComparisonPlan(exe, yuvFiles)[a].output != ComparisonPlan(exe, yuvFiles)[b].output
    {
      ResultPathsDistinct(a + 1, b + 1);
    }
  }

  /**
   * `rows` are the report rows of the first |rows| adjacent pairs: row k
   * names images k and k+1 and carries the score of yuvFiles k and k+1.
   */
  ghost predicate RowsOfPairs<S>(images: seq<string>, yuvFiles: seq<string>, exe: string, tools: Tools<S>, rows: seq<Row<S>>)
  {
    && |rows| < |yuvFiles| <= |images|
    && forall k :: 0 <= k < |rows| ==>
         && rows[k].image1 == images[k]
         && rows[k].image2 == images[k + 1]
         && tools.vmaf(exe, yuvFiles[k], yuvFiles[k + 1], ResultPath(k + 1)) == Some(rows[k].score)
  }

  /** The report rows of all adjacent pairs of the converted files. */
  ghost predicate AdjacentRows<S>(images: seq<string>, yuvFiles: seq<string>, exe: string, tools: Tools<S>, rows: seq<Row<S>>)
  {
    && |rows| == PairCount(|yuvFiles|)
    && (rows == [] || RowsOfPairs(images, yuvFiles, exe, tools, rows))
  }

  /** Extending a run by the next planned call keeps it a prefix of the plan. */
  lemma PrefixExtend(plan: seq<Invocation>, calls: seq<Invocation>, n: nat)
    requires n < |plan| && calls == plan[..n]
    ensures calls + [plan[n]] == plan[..n + 1]
  {
  }

  /** Appending the row of the next adjacent pair keeps the rows those of the first pairs. */
  lemma RowsOfPairsSnoc<S>(images: seq<string>, yuvFiles: seq<string>, exe: string, tools: Tools<S>, rows: seq<Row<S>>, score: S)
    requires |rows| + 1 < |yuvFiles| <= |images|
    requires rows == [] || RowsOfPairs(images, yuvFiles, exe, tools, rows)
    requires tools.vmaf(exe, yuvFiles[|rows|], yuvFiles[|rows| + 1], ResultPath(|rows| + 1)) == Some(score)
    ensures RowsOfPairs(images, yuvFiles, exe, tools, rows + [Row(images[|rows|], images[|rows| + 1], score)])
  {
  }

  // ---------------------------------------------------------------------
  // The loops of main

  /** Converts every image, in order, into the YUV working directory. */
  method ConvertAll<S>(dir: string, images: seq<string>, tools: Tools<S>)
    returns (yuvFiles: seq<string>, calls: seq<Invocation>, ok: bool)
    ensures StopsAtFirstFailure(calls, ConversionPlan(dir, images), ok, tools)
    ensures ok ==> yuvFiles == YuvPaths(images)
  {
    yuvFiles, calls, ok := [], [], true;
    for i := 0 to |images|
      invariant |yuvFiles| == |calls| == i
      invariant calls == ConversionPlan(dir, images)[..i]
      invariant yuvFiles == YuvPaths(images)[..i]
      invariant forall k :: 0 <= k < i ==> Succeeds(calls[k], tools)
    {
      var source, target := ImagePath(dir, images[i]), YuvPath(images[i]);
      calls := calls + [Convert(source, target)];
      if !tools.convert(source, target) {
        ok := false;
        return;
      }
      yuvFiles := yuvFiles + [target];
    }
    assert ConversionPlan(dir, images)[..|images|] == ConversionPlan(dir, images);
    assert YuvPaths(images)[..|images|] == YuvPaths(images);
  }

  /**
   * Scores every adjacent pair (i-1, i) of converted files for i = 1 .. n-1,
   * each into its own result file, and collects the report rows.
   */
  method CompareAdjacent<S>(images: seq<string>, yuvFiles: seq<string>, exe: string, tools: Tools<S>)
    returns (rows: seq<Row<S>>, calls: seq<Invocation>, ok: bool)
    requires |yuvFiles| <= |images|
    ensures StopsAtFirstFailure(calls, ComparisonPlan(exe, yuvFiles), ok, tools)
    ensures ok ==> AdjacentRows(images, yuvFiles, exe, tools, rows)
    ensures forall a, b :: 0 <= a < b < |calls| ==>
      calls[a].Compare? && calls[b].Compare? && calls[a].output != calls[b].output
  {
    rows, calls, ok := [], [], true;
    var i := 1;
    while i < |yuvFiles|
      invariant 1 <= i && (i > 1 ==> i <= |yuvFiles|)
      invariant |rows| == |calls| == i - 1 <= PairCount(|yuvFiles|)
      invariant calls == ComparisonPlan(exe, yuvFiles)[..i - 1]
      invariant forall k :: 0 <= k < i - 1 ==> Succeeds(calls[k], tools)
      invariant rows == [] || RowsOfPairs(images, yuvFiles, exe, tools, rows)
    {
      var output := ResultPath(i);
      assert ComparisonPlan(exe, yuvFiles)[i - 1] == Compare(exe, yuvFiles[i - 1], yuvFiles[i], output);
      PrefixExtend(ComparisonPlan(exe, yuvFiles), calls, i - 1);
      calls := calls + [Compare(exe, yuvFiles[i - 1], yuvFiles[i], output)];
      var score := tools.vmaf(exe, yuvFiles[i - 1], yuvFiles[i], output);
      if score.None? {
        ok := false;
        break;
      }
      RowsOfPairsSnoc(images, yuvFiles, exe, tools, rows, score.value);
      rows := rows + [Row(images[i - 1], images[i], score.value)];
      i := i + 1;
    }
    if ok {
      assert ComparisonPlan(exe, yuvFiles)[..PairCount(|yuvFiles|)] == ComparisonPlan(exe, yuvFiles);
    }
    ComparisonPlanOutputsDistinct(exe, yuvFiles);
  }

  /**
   * `main` after listing: with fewer than two images nothing is run; else
   * every image is converted and then every adjacent pair scored, stopping
   * at the first failing program, and a completed run yields one row per
   * adjacent pair.
   */
  method Run<S>(dir: string, images: seq<string>, exe: string, tools: Tools<S>)
    returns (outcome: Outcome<S>, calls: seq<Invocation>)
    ensures |images| < 2 <==> outcome == NotEnoughImages
    ensures |images| < 2 ==> calls == []
    ensures outcome != InvalidName
    ensures |images| >= 2 ==> StopsAtFirstFailure(calls, Plan(dir, exe, images), outcome.Completed?, tools)
    ensures outcome.Completed? ==> AdjacentRows(images, YuvPaths(images), exe, tools, outcome.rows)
    ensures outcome.Completed? ==>
      && |outcome.rows| == |images| - 1
      && outcome.rows[0].image1 == images[0]
      && outcome.rows[|images| - 2].image2 == images[|images| - 1]
      && forall k :: 0 <= k < |outcome.rows| - 1 ==> outcome.rows[k].image2 == outcome.rows[k + 1].image1
  {
    if |images| < 2 {
      return NotEnoughImages, [];
    }
    var yuvFiles, converted, ok := ConvertAll(dir, images, tools);
    if !ok {
      StopsAtFirstFailureBefore(converted, ConversionPlan(dir, images), ComparisonPlan(exe, YuvPaths(images)), tools);
      return ToolFailed, converted;
    }
    var rows, compared, scored := CompareAdjacent(images, yuvFiles, exe, tools);
    StopsAtFirstFailureThen(converted, ConversionPlan(dir, images), compared, ComparisonPlan(exe, yuvFiles), scored, tools);
    calls := converted + compared;
    outcome := if scored then Completed(rows) else ToolFailed;
  }

  /**
   * The whole script on a directory listing: list and sort the images, then
   * convert and compare them.  A kept name without a digit stops the script
   * before any program runs.
   */
  method CompareContiguousPics<S>(listing: seq<string>, ext: string, dir: string, exe: string, tools: Tools<S>)
    returns (outcome: Outcome<S>, calls: seq<Invocation>)
    ensures Lister.SortedImageList(listing, ext).Failure? <==> outcome == InvalidName
    ensures outcome == InvalidName ==> calls == []
    ensures Lister.SortedImageList(listing, ext).Success? ==>
      var images := Lister.SortedImageList(listing, ext).value;
      && (|images| < 2 <==> outcome == NotEnoughImages)
      && (|images| < 2 ==> calls == [])
      && (|images| >= 2 ==> StopsAtFirstFailure(calls, Plan(dir, exe, images), outcome.Completed?, tools))
      && (outcome.Completed? ==> AdjacentRows(images, YuvPaths(images), exe, tools, outcome.rows))
  {
    match Lister.SortedImageList(listing, ext)
    case Failure(_) =>
      return InvalidName, [];
    case Success(images) =>
      outcome, calls := Run(dir, images, exe, tools);
  }
}
