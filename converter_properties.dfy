/** What the alternate-file rules promise, proved about their specification
    functions in AlternatePathConverter. */
module ConverterProperties {
  import opened Wrappers
  import opened Text
  import opened AlternatePathConverter

  // ---------------------------------------------------------------------
  // convertPath
  // ---------------------------------------------------------------------

  /** convertPath throws exactly when the last component of the path (after
      a leading `./` is dropped) has no `.`, and the error carries the path
      as given, `./` included. */
  lemma ConversionFailsWithoutFile(inputPath: string, altType: AlternatePathType)
    ensures ConversionOf(inputPath, altType).Failure? <==> '.' !in Last(PathComponents(inputPath))
    ensures ConversionOf(inputPath, altType).Failure? ==> ConversionOf(inputPath, altType).error == InvalidPath(inputPath)
  {
  }

  /** A successful conversion reports the kind asked for and the path as
      given, and keeps a leading `./`. */
  lemma ConversionKeepsRequest(inputPath: string, altType: AlternatePathType)
    requires ConversionOf(inputPath, altType).Success?
    ensures ConversionOf(inputPath, altType).value.pathType == altType
    ensures ConversionOf(inputPath, altType).value.originalPath == inputPath
    ensures HasPrefix(inputPath, "./") ==> HasPrefix(ConversionOf(inputPath, altType).value.path, "./")
  {
  }

  // ---------------------------------------------------------------------
  // .test: lib <-> test
  // ---------------------------------------------------------------------

  /** A dotted file name becomes a test: its stem ends in `_test`, and a
      renamed file always gets the extension `exs`. */
  lemma TestFileNameIsTest(f: string)
    requires '.' in f
    ensures HasSuffix(Stem(TestFileName(f)), "_test")
    ensures !HasSuffix(Stem(f), "_test") ==> Ext(TestFileName(f)) == "exs"
  {
    StemExt(f);
    if !HasSuffix(Stem(f), "_test") {
      assert Stem(f) + "_test.exs" == (Stem(f) + "_test") + "." + "exs";
      StemOfDotted(Stem(f) + "_test", "exs");
    }
  }

  /** `<stem>.ex` has the test `<stem>_test.exs`. */
  lemma TestOfSourceFile(f: string, stem: string)
    requires '.' !in stem && !HasSuffix(stem, "_test")
    requires f == stem + ".ex"
    ensures TestFileName(f) == stem + "_test.exs"
  {
    assert f == stem + "." + "ex";
    StemOfDotted(stem, "ex");
  }

  lemma DropTestMarkerSuffix()
    ensures ReplaceAll("_test.exs", "_test.", ".") == ".exs"
  {
    assert "_test.exs"[..6] == "_test.";
    assert "_test.exs"[6..] == "exs";
  }

  lemma DropTestMarker(stem: string)
    requires '.' !in stem
    ensures ReplaceAll(stem + "_test.exs", "_test.", ".") == stem + ".exs"
  {
    assert "_test.exs" == "_test" + ".exs";
    NoMatchBefore(stem, "_test", ".exs", "_test.", 5);
    ReplaceAllSkip(stem, "_test.exs", "_test.", ".");
    DropTestMarkerSuffix();
  }

  lemma ScriptToSource(stem: string)
    requires '.' !in stem
    ensures ReplaceAll(stem + ".exs", ".exs", ".ex") == stem + ".ex"
  {
    assert ".exs" == "" + ".exs";
    NoMatchBefore(stem, "", ".exs", ".exs", 0);
    ReplaceAllSkip(stem, ".exs", ".exs", ".ex");
    assert ReplaceAll(".exs", ".exs", ".ex") == ".ex";
  }

  /** `<stem>_test.exs` has the source `<stem>.ex`. */
  lemma SourceOfTestFile(f: string, stem: string)
    requires '.' !in stem
    requires f == stem + "_test.exs"
    ensures SourceFileName(f) == stem + ".ex"
  {
    assert OccursAt(f, "_test.", |stem|);
    ContainsIff(f, "_test.");
    DropTestMarker(stem);
    ScriptToSource(stem);
  }

  /** Writing one element that is not the last leaves the last as it was. */
  lemma LastAfterUpdate(c: seq<string>, i: nat, x: string)
    requires i < |c| - 1
    ensures Last(c[i := x]) == Last(c)
  {
  }

  /** Writing the last element after some other one. */
  lemma WithLastAfter(c: seq<string>, i: nat, x: string, f: string)
    requires i < |c| - 1
    ensures WithLast(c[i := x], f) == c[i := x][|c| - 1 := f]
  {
  }

  /** The path with segment `i` renamed to `dir` and the file to `file`. */
  function Relocated(c: seq<string>, i: nat, dir: string, file: string): (r: seq<string>)
    requires i < |c| - 1
    ensures |r| == |c| && r[i] == dir && Last(r) == file
    ensures forall j :: 0 <= j < |c| - 1 && j != i ==> r[j] == c[j]
  {
    c[i := dir][|c| - 1 := file]
  }

  /** convertToTestPath when `lib` is not the last segment: that segment
      becomes `test` and only the file, renamed to `g`, changes besides. */
  lemma TestPathAt(c: seq<string>, i: nat, g: string)
    requires FirstIndexOf(c, "lib") == Some(i) && i < |c| - 1
    requires TestFileName(Last(c[i := "test"])) == g
    ensures TestPath(c) == Relocated(c, i, "test", g)
  {
    WithLastAfter(c, i, "test", g);
  }

  /** convertFromTestPath when `test` is not the last segment. */
  lemma FromTestPathAt(c: seq<string>, i: nat, g: string)
    requires FirstIndexOf(c, "test") == Some(i) && i < |c| - 1
    requires SourceFileName(Last(c[i := "lib"])) == g
    ensures FromTestPath(c) == Relocated(c, i, "lib", g)
  {
    WithLastAfter(c, i, "lib", g);
  }

  /** A source file `<stem>.ex` whose first `lib` is segment `i`. */
  predicate SourceUnderLib(c: seq<string>, i: nat, stem: string) {
    FirstIndexOf(c, "lib") == Some(i) && i < |c| - 1 &&
    '.' !in stem && !HasSuffix(stem, "_test") && Last(c) == stem + ".ex"
  }

  /** A test `<stem>_test.exs` in a path without `lib` whose first `test`
      is segment `i`. */
  predicate TestUnderTest(c: seq<string>, i: nat, stem: string) {
    "lib" !in c && FirstIndexOf(c, "test") == Some(i) && i < |c| - 1 &&
    '.' !in stem && !HasSuffix(stem, "_test") && Last(c) == stem + "_test.exs"
  }

  /** The `.test` kind on a source file `<stem>.ex` under the first `lib`:
      that segment becomes `test` and the file `<stem>_test.exs`. */
  lemma TestKindFromLib(c: seq<string>, i: nat, stem: string)
    requires SourceUnderLib(c, i, stem)
    ensures TestKindPath(c) == Relocated(c, i, "test", stem + "_test.exs")
  {
    LastAfterUpdate(c, i, "test");
    TestOfSourceFile(Last(c[i := "test"]), stem);
    TestPathAt(c, i, stem + "_test.exs");
  }

  /** The `.test` kind on a test `<stem>_test.exs` under the first `test`
      of a path without `lib`: back to `lib` and `<stem>.ex`. */
  lemma TestKindFromTest(c: seq<string>, i: nat, stem: string)
    requires TestUnderTest(c, i, stem)
    ensures TestKindPath(c) == Relocated(c, i, "lib", stem + ".ex")
  {
    LastAfterUpdate(c, i, "lib");
    SourceOfTestFile(Last(c[i := "lib"]), stem);
    FromTestPathAt(c, i, stem + ".ex");
  }

  /** Writing an element and the last one, then writing back what they
      were, gives the list back. */
  lemma RelocatedBack(c: seq<string>, i: nat, dir: string, file: string)
    requires i < |c| - 1
    ensures Relocated(Relocated(c, i, dir, file), i, c[i], Last(c)) == c
  {
  }

  /** When the only `lib` of a source file becomes `test`, the result is a
      test under `test`, and going back restores the path. */
  lemma LibBecomesTest(c: seq<string>, i: nat, stem: string)
    requires SourceUnderLib(c, i, stem)
    requires "lib" !in c[i + 1..] && "test" !in c
    ensures TestUnderTest(Relocated(c, i, "test", stem + "_test.exs"), i, stem)
    ensures Relocated(Relocated(c, i, "test", stem + "_test.exs"), i, "lib", stem + ".ex") == c
  {
    var r := Relocated(c, i, "test", stem + "_test.exs");
    forall j | 0 <= j < |r| ensures r[j] != "lib" {
      if j < i {
        assert r[j] == c[..i][j];
      } else if i < j < |c| - 1 {
        assert r[j] == c[i + 1..][j - i - 1];
      }
    }
    assert r[..i] == c[..i];
    FirstIndexOfIs(r, "test", i);
    RelocatedBack(c, i, "test", stem + "_test.exs");
  }

  /** When the first `test` of a test file becomes `lib`, the result is a
      source under `lib`, and going back restores the path. */
  lemma TestBecomesLib(c: seq<string>, i: nat, stem: string)
    requires TestUnderTest(c, i, stem)
    ensures SourceUnderLib(Relocated(c, i, "lib", stem + ".ex"), i, stem)
    ensures Relocated(Relocated(c, i, "lib", stem + ".ex"), i, "test", stem + "_test.exs") == c
  {
    var r := Relocated(c, i, "lib", stem + ".ex");
    assert r[..i] == c[..i];
    FirstIndexOfIs(r, "lib", i);
    RelocatedBack(c, i, "lib", stem + ".ex");
  }

  lemma KindInvolution(c: seq<string>, r: seq<string>)
    requires TestKindPath(c) == r && TestKindPath(r) == c
    ensures TestKindPath(TestKindPath(c)) == c
  {
  }

  /** `.test` turns a source file into its test and, applied to the result,
      back: for a single `lib`, no `test` and a plain `<stem>.ex` file. */
  lemma TestKindRoundTrip(c: seq<string>, i: nat, stem: string)
    requires SourceUnderLib(c, i, stem)
    requires "lib" !in c[i + 1..] && "test" !in c
    ensures TestKindPath(TestKindPath(c)) == c
  {
    TestKindFromLib(c, i, stem);
    LibBecomesTest(c, i, stem);
    TestKindFromTest(Relocated(c, i, "test", stem + "_test.exs"), i, stem);
    KindInvolution(c, Relocated(c, i, "test", stem + "_test.exs"));
  }

  /** And the other way round: a test `<stem>_test.exs` under the first
      `test` goes back to its source and then to the same test. */
  lemma TestKindRoundTripFromTest(c: seq<string>, i: nat, stem: string)
    requires TestUnderTest(c, i, stem)
    ensures TestKindPath(TestKindPath(c)) == c
  {
    TestKindFromTest(c, i, stem);
    TestBecomesLib(c, i, stem);
    TestKindFromLib(Relocated(c, i, "lib", stem + ".ex"), i, stem);
    KindInvolution(c, Relocated(c, i, "lib", stem + ".ex"));
  }

  /** convertToTestPath in general: only the first `lib` becomes `test`,
      the number of segments stays, and besides that only the file changes,
      to its test name. */
  lemma TestPathRelocates(c: seq<string>, i: nat)
    requires FirstIndexOf(c, "lib") == Some(i) && i < |c| - 1
    ensures TestPath(c) == Relocated(c, i, "test", TestFileName(Last(c)))
  {
    LastAfterUpdate(c, i, "test");
    TestPathAt(c, i, TestFileName(Last(c[i := "test"])));
  }

  // ---------------------------------------------------------------------
  // .controller
  // ---------------------------------------------------------------------

  /** What convertToControllerPath leaves behind: `lib` still first at
      `i`, followed by a segment in the web module, a `controllers`
      directory, and a last segment that, when dotted, has a stem ending in
      `_controller`. The web segment may itself be the last one (a path
      `lib/<file>`, whose file is renamed into the web module). */
  predicate ControllerShaped(r: seq<string>, i: nat) {
    i + 1 < |r| && r[i] == "lib" && "lib" !in r[..i] &&
    HasSuffix(r[i + 1], "_web") && "controllers" in r &&
    ('.' in Last(r) ==> HasSuffix(Stem(Last(r)), "_controller"))
  }

  lemma WebSuffix(app: string)
    ensures HasSuffix(app + "_web", "_web")
  {
    assert (app + "_web")[|app|..] == "_web";
  }

  /** The directories of ControllerShaped, whatever the file is. */
  predicate ControllerDirectoriesShaped(d: seq<string>, i: nat) {
    i + 1 < |d| && d[i] == "lib" && "lib" !in d[..i] &&
    HasSuffix(d[i + 1], "_web") && "controllers" in d
  }

  lemma ControllerDirectoriesShape(c: seq<string>, i: nat)
    requires FirstIndexOf(c, "lib") == Some(i) && i + 1 < |c|
    ensures ControllerDirectoriesShaped(ControllerDirectories(c, i), i)
  {
    WebSuffix(c[i + 1]);
    var w := if HasSuffix(c[i + 1], "_web") then c else c[i + 1 := c[i + 1] + "_web"];
    assert w[..i] == c[..i];
    if "controllers" !in w {
      InsertAtElements(w, i + 2, "controllers");
      InsertAtKeepsPrefix(w, i + 2, "controllers", i);
    }
  }

  lemma InsertAtKeepsPrefix(c: seq<string>, i: nat, x: string, k: nat)
    requires k <= i <= |c|
    ensures InsertAt(c, i, x)[..k] == c[..k]
  {
    assert InsertAt(c, i, x) == c[..i] + ([x] + c[i..]);
    assert c[..i][..k] == c[..k];
  }

  /** A `controllers` directory in the file position is not renamed. */
  lemma ControllersDirectoryKept()
    ensures MarkedFileName("controllers", [], "_controller") == "controllers"
  {
    assert "controllers"[1] != '.';
    assert forall k :: 0 <= k < |"controllers"| ==> "controllers"[k] != '.';
  }

  /** With no markers to strip, a dotted file always ends up with a stem
      ending in the marker. */
  lemma MarkedAsController(f: string)
    requires '.' in f
    ensures '.' in MarkedFileName(f, [], "_controller")
    ensures HasSuffix(Stem(MarkedFileName(f, [], "_controller")), "_controller")
  {
    StemExt(f);
    if !HasSuffix(Stem(f), "_controller") {
      var stem := Stem(f) + "_controller";
      assert HasSuffix(stem, "_controller") by {
        assert stem[|Stem(f)|..] == "_controller";
      }
      StemOfDotted(stem, Ext(f));
      assert (stem + "." + Ext(f))[|stem|] == '.';
    }
  }

  /** Marking a file whose name ends in `_web` keeps that ending: the
      marker goes before the first `.`, which comes before `_web`. */
  lemma MarkedKeepsWebSuffix(f: string)
    requires HasSuffix(f, "_web")
    ensures HasSuffix(MarkedFileName(f, [], "_controller"), "_web")
  {
    if '.' in f && !HasSuffix(Stem(f), "_controller") {
      StemExt(f);
      var s, e := Stem(f), Ext(f);
      assert |e| >= 4;
      assert e[|e| - 4..] == f[|f| - 4..];
      var g := s + "_controller" + "." + e;
      assert g[|g| - 4..] == e[|e| - 4..];
    }
  }

  lemma ControllerNameFixed(f: string)
    requires '.' in f ==> HasSuffix(Stem(f), "_controller")
    ensures MarkedFileName(f, [], "_controller") == f
  {
  }

  /** Renaming the file of shaped directories keeps the shape when the new
      name is a controller file, `controllers` is not lost with it, and a
      renamed web segment stays in the web module. */
  lemma ControllerRenamed(d: seq<string>, i: nat, g: string)
    requires ControllerDirectoriesShaped(d, i)
    requires '.' in g ==> HasSuffix(Stem(g), "_controller")
    requires Last(d) == "controllers" ==> g == "controllers"
    requires i + 1 == |d| - 1 ==> HasSuffix(g, "_web")
    ensures ControllerShaped(WithLast(d, g), i)
  {
    var r := WithLast(d, g);
    assert r[..i] == d[..i];
    var k :| 0 <= k < |d| && d[k] == "controllers";
    assert r[k] == "controllers";
  }

  lemma ControllerShape(c: seq<string>, i: nat)
    requires FirstIndexOf(c, "lib") == Some(i) && i + 1 < |c|
    ensures ControllerShaped(ControllerPath(c), i)
  {
    var d := ControllerDirectories(c, i);
    var g := MarkedFileName(Last(d), [], "_controller");
    ControllerPathStep(c, i);
    ControllerDirectoriesShape(c, i);
    ControllerFileRenamed(d, i);
    ControllerRenamed(d, i, g);
  }

  lemma ControllerPathStep(c: seq<string>, i: nat)
    requires FirstIndexOf(c, "lib") == Some(i) && i + 1 < |c|
    ensures ControllerPath(c)
         == WithLast(ControllerDirectories(c, i), MarkedFileName(Last(ControllerDirectories(c, i)), [], "_controller"))
  {
  }

  /** The controller rule's file name fits the shape of its directories. */
  lemma ControllerFileRenamed(d: seq<string>, i: nat)
    requires ControllerDirectoriesShaped(d, i)
    ensures var g := MarkedFileName(Last(d), [], "_controller");
      ('.' in g ==> HasSuffix(Stem(g), "_controller"))
      && (Last(d) == "controllers" ==> g == "controllers")
      && (i + 1 == |d| - 1 ==> HasSuffix(g, "_web"))
  {
    if '.' in Last(d) {
      MarkedAsController(Last(d));
    }
    if Last(d) == "controllers" {
      ControllersDirectoryKept();
    }
    if i + 1 == |d| - 1 {
      MarkedKeepsWebSuffix(Last(d));
    }
  }

  /** A path in that shape is left as it is by `.controller`. */
  lemma ControllerFixed(r: seq<string>, i: nat)
    requires ControllerShaped(r, i)
    ensures ControllerPath(r) == r
  {
    FirstIndexOfIs(r, "lib", i);
    ControllerNameFixed(Last(r));
    WithLastUnchanged(r);
  }

  /** Applying `.controller` twice is applying it once, for every path. */
  lemma ControllerIdempotent(c: seq<string>)
    ensures ControllerPath(ControllerPath(c)) == ControllerPath(c)
  {
    match FirstIndexOf(c, "lib")
    case None =>
    case Some(i) =>
      if i + 1 < |c| {
        ControllerShape(c, i);
        ControllerFixed(ControllerPath(c), i);
      }
  }

  // ---------------------------------------------------------------------
  // The directory-ensure step of the web kinds
  // ---------------------------------------------------------------------

  /** A directory that is already there is left alone. */
  lemma EnsureKeepsPresent(c: seq<string>, target: string, candidates: seq<string>)
    requires HasWebModule(c) && target in c
    ensures EnsureDirectory(c, target, candidates) == c
  {
  }

  /** Otherwise the first candidate present, in the kind's order, is
      renamed in place: the length does not change. */
  lemma {:induction false} PlaceDirectoryRenames(c: seq<string>, target: string, candidates: seq<string>, j: nat)
    requires HasWebModule(c)
    requires j < |candidates| && candidates[j] in c
    requires forall m :: 0 <= m < j ==> candidates[m] !in c
    ensures FirstIndexOf(c, candidates[j]).Some?
    ensures PlaceDirectory(c, target, candidates) == c[FirstIndexOf(c, candidates[j]).value := target]
    decreases j
  {
    if j > 0 {
      assert candidates[0] !in c;
      assert candidates[1..][j - 1] == candidates[j];
      forall m | 0 <= m < j - 1 ensures candidates[1..][m] !in c {
        assert candidates[1..][m] == candidates[m + 1];
      }
      PlaceDirectoryRenames(c, target, candidates[1..], j - 1);
    }
  }

  /** With no candidate present the target is inserted right after the
      first `_web` segment, which exists. */
  lemma {:induction false} PlaceDirectoryInserts(c: seq<string>, target: string, candidates: seq<string>)
    requires HasWebModule(c)
    requires forall m :: 0 <= m < |candidates| ==> candidates[m] !in c
    ensures PlaceDirectory(c, target, candidates) == InsertAt(c, FirstWebIndex(c).value + 1, target)
    decreases |candidates|
  {
    if |candidates| > 0 {
      assert candidates[0] !in c;
      forall m | 0 <= m < |candidates| - 1 ensures candidates[1..][m] !in c {
        assert candidates[1..][m] == candidates[m + 1];
      }
      PlaceDirectoryInserts(c, target, candidates[1..]);
    }
  }

  /** Whichever way, the target directory is there afterwards. */
  lemma {:induction false} PlaceDirectoryHasTarget(c: seq<string>, target: string, candidates: seq<string>)
    requires HasWebModule(c)
    ensures target in PlaceDirectory(c, target, candidates)
    decreases |candidates|
  {
    if |candidates| == 0 {
      var k := FirstWebIndex(c).value + 1;
      InsertAtElements(c, k, target);
    } else {
      match FirstIndexOf(c, candidates[0])
      case Some(k) =>
        assert c[k := target][k] == target;
      case None =>
        PlaceDirectoryHasTarget(c, target, candidates[1..]);
    }
  }

  lemma EnsureDirectoryHasTarget(c: seq<string>, target: string, candidates: seq<string>)
    requires HasWebModule(c)
    ensures target in EnsureDirectory(c, target, candidates)
  {
    if target !in c {
      PlaceDirectoryHasTarget(c, target, candidates);
    }
  }

  // ---------------------------------------------------------------------
  // .task
  // ---------------------------------------------------------------------

  /** Without `lib` the components are returned unchanged. */
  lemma TaskWithoutLib(c: seq<string>)
    requires "lib" !in c
    ensures TaskPath(c) == c
  {
  }

  /** With `lib` first at `i`, `mix/tasks` follows it afterwards, everything
      through `lib` is kept, and the path grows by two segments or none. */
  lemma TaskShape(c: seq<string>, i: nat)
    requires FirstIndexOf(c, "lib") == Some(i)
    ensures TaskPath(c)[..i + 1] == c[..i + 1]
    ensures InMixTasks(TaskPath(c), i)
    ensures |TaskPath(c)| == |c| || |TaskPath(c)| == |c| + 2
    ensures FirstIndexOf(TaskPath(c), "lib") == Some(i)
  {
    var r := TaskPath(c);
    if !InMixTasks(c, i) {
      assert r == c[..i + 1] + (["mix", "tasks"] + c[i + 1..]);
      assert r[..i + 1] == c[..i + 1];
      assert r[i + 1] == "mix" && r[i + 2] == "tasks";
    }
    assert r[..i] == c[..i] by {
      assert r[..i] == r[..i + 1][..i];
    }
    FirstIndexOfIs(r, "lib", i);
  }

  /** Applying `.task` twice is applying it once. */
  lemma TaskIdempotent(c: seq<string>)
    ensures TaskPath(TaskPath(c)) == TaskPath(c)
  {
    match FirstIndexOf(c, "lib")
    case None =>
    case Some(i) => TaskShape(c, i);
  }

  // ---------------------------------------------------------------------
  // .feature
  // ---------------------------------------------------------------------

  /** A `features` directory in the file position is not renamed. */
  lemma FeaturesDirectoryKept()
    ensures TestFileName("features") == "features"
    ensures NewFeatureFileName("features") == "features"
  {
    assert forall k :: 0 <= k < |"features"| ==> "features"[k] != '.';
  }

  lemma FeatureDirectoriesUnderTest(c: seq<string>, i: nat)
    requires FirstIndexOf(c, "test") == Some(i)
    ensures i + 1 < |FeatureDirectories(c)|
    ensures FeatureDirectories(c)[..i + 1] == c[..i + 1]
    ensures FeatureDirectories(c)[i + 1] == "features"
  {
    var d := FeatureDirectories(c);
    if !(i + 1 < |c| && c[i + 1] == "features") {
      assert d == c[..i + 1] + (["features"] + c[i + 1..]);
      assert d[..i + 1] == c[..i + 1];
    }
  }

  /** `.feature` on a path with `test` first at `i`: the first `test` stays
      where it was and `features` follows it. */
  lemma FeatureUnderTest(c: seq<string>, i: nat)
    requires FirstIndexOf(c, "test") == Some(i)
    ensures FirstIndexOf(FeaturePath(c), "test") == Some(i)
    ensures i + 1 < |FeaturePath(c)| && FeaturePath(c)[i + 1] == "features"
  {
    var d := FeatureDirectories(c);
    FeatureDirectoriesUnderTest(c, i);
    var r := FeaturePath(c);
    assert r == WithLast(d, TestFileName(Last(d)));
    if i + 1 == |d| - 1 {
      FeaturesDirectoryKept();
    }
    assert r[..i] == d[..i] by {
      assert d[..i] == d[..i + 1][..i];
    }
    assert r[..i] == c[..i] by {
      assert c[..i] == c[..i + 1][..i];
    }
    FirstIndexOfIs(r, "test", i);
  }

  /** `.feature` on a path without `test`: the first segment is overwritten
      by `test`, `features` is inserted after it and the rest shifts by one;
      the file, if it was not the overwritten segment, gets its test name. */
  lemma FeatureOutsideTest(c: seq<string>)
    requires |c| > 0 && "test" !in c
    ensures |FeaturePath(c)| == |c| + 1
    ensures FeaturePath(c)[0] == "test" && FeaturePath(c)[1] == "features"
    ensures forall j :: 2 <= j < |c| ==> FeaturePath(c)[j] == c[j - 1]
    ensures |c| > 1 ==> Last(FeaturePath(c)) == NewFeatureFileName(Last(c))
  {
    var d := FeatureDirectories(c);
    InsertAtElements(c[0 := "test"], 1, "features");
    if |c| == 1 {
      FeaturesDirectoryKept();
    }
  }

  /** A feature file moved in from outside `test` has a `_test` stem. */
  lemma NewFeatureFileNameIsTest(f: string)
    requires '.' in f
    ensures HasSuffix(Stem(NewFeatureFileName(f)), "_test")
  {
    StemExt(f);
    if !HasSuffix(Stem(f), "_test") {
      assert Stem(f) + "_test.exs" == (Stem(f) + "_test") + "." + "exs";
      StemOfDotted(Stem(f) + "_test", "exs");
    } else {
      assert Stem(f) + ".exs" == Stem(f) + "." + "exs";
      StemOfDotted(Stem(f), "exs");
    }
  }

  /** The file name a test or feature rule gives a dotted file has a stem
      ending in `_test`; an undotted name is left as it is. */
  lemma FeatureFileIsTest(f: string)
    ensures '.' in TestFileName(f) ==> HasSuffix(Stem(TestFileName(f)), "_test")
    ensures '.' in NewFeatureFileName(f) ==> HasSuffix(Stem(NewFeatureFileName(f)), "_test")
  {
    if '.' in f {
      TestFileNameIsTest(f);
      NewFeatureFileNameIsTest(f);
    }
  }

  /** Whatever the path, a dotted file `.feature` produces is a test file. */
  lemma FeatureFileShape(c: seq<string>)
    requires |c| > 0
    ensures '.' in Last(FeaturePath(c)) ==> HasSuffix(Stem(Last(FeaturePath(c))), "_test")
  {
    var d := FeatureDirectories(c);
    FeatureFileIsTest(Last(d));
  }

  // ---------------------------------------------------------------------
  // .view, applied twice
  // ---------------------------------------------------------------------

  /** A path under an application segment that is not the web module, with
      a `views` directory already in place. */
  predicate OutsideWebWithViews(c: seq<string>, i: nat) {
    FirstIndexOf(c, "lib") == Some(i) && i + 1 < |c| - 1 &&
    !HasSuffix(c[i + 1], "_web") && "views" in c
  }

  lemma EnterWebKeepsViews(c: seq<string>, i: nat)
    requires OutsideWebWithViews(c, i)
    ensures "views" in EnterWebModule(c, i)
  {
    var k :| 0 <= k < |c| && c[k] == "views";
    InsertAtElements(c, i + 2, c[i + 1] + "_web");
    if k < i + 2 {
      assert EnterWebModule(c, i)[k] == "views";
    } else {
      assert EnterWebModule(c, i)[k + 1] == "views";
    }
  }

  /** One `.view` step there: `<app>_web` is inserted after the application,
      which stays, and the path stays in that shape. */
  lemma ViewStep(c: seq<string>, i: nat)
    requires OutsideWebWithViews(c, i)
    ensures |ViewPath(c)| == |c| + 1
    ensures ViewPath(c)[i + 2] == c[i + 1] + "_web"
    ensures forall j :: i + 2 <= j < |c| - 1 ==> ViewPath(c)[j + 1] == c[j]
    ensures OutsideWebWithViews(ViewPath(c), i)
  {
    var e := EnterWebModule(c, i);
    InsertAtElements(c, i + 2, c[i + 1] + "_web");
    EnterWebKeepsViews(c, i);
    EnsureKeepsPresent(e, "views", ViewCandidates);
    var v := ViewPath(c);
    assert v == WithLast(e, MarkedFileName(Last(e), ViewStrips, "_view"));
    assert v[..i] == c[..i] by {
      assert forall j :: 0 <= j < i ==> v[j] == c[j];
    }
    FirstIndexOfIs(v, "lib", i);
    if Last(e) == "views" {
      ViewsDirectoryKept();
    }
    WithLastKeepsDirectory(e, MarkedFileName(Last(e), ViewStrips, "_view"), "views");
  }

  /** Renaming the file keeps a directory that is not the file, and one
      that is the file when the new name is the same. */
  lemma WithLastKeepsDirectory(e: seq<string>, g: string, dir: string)
    requires dir in e && (Last(e) == dir ==> g == dir)
    ensures dir in WithLast(e, g)
  {
    var k :| 0 <= k < |e| && e[k] == dir;
    assert WithLast(e, g)[k] == dir;
  }

  /** A `views` directory in the file position is not renamed. */
  lemma ViewsDirectoryKept()
    ensures MarkedFileName("views", ViewStrips, "_view") == "views"
  {
    assert forall n :: 0 <= n < |"views"| ==> "views"[n] != '.';
  }

  /** `.view` is not idempotent outside the web module: a second
      application nests `<app>_web` once more. */
  lemma ViewTwiceNests(c: seq<string>, i: nat)
    requires OutsideWebWithViews(c, i)
    ensures |ViewPath(ViewPath(c))| == |ViewPath(c)| + 1
    ensures ViewPath(ViewPath(c))[i + 2] == c[i + 1] + "_web"
    ensures ViewPath(ViewPath(c))[i + 3] == c[i + 1] + "_web"
  {
    ViewStep(c, i);
    ViewStep(ViewPath(c), i);
  }

  // ---------------------------------------------------------------------
  // .html file names
  // ---------------------------------------------------------------------

  lemma DropViewSuffix()
    ensures ReplaceAll("_view.ex", "_view.ex", "") == ""
  {
    assert "_view.ex"[..8] == "_view.ex";
    assert "_view.ex"[8..] == "";
  }

  /** A view `<stem>_view.ex` becomes the template `<stem>`: the whole of
      `_view.ex` is removed before `.ex` would be rewritten, so the template
      has no extension. */
  lemma ViewTemplateName(stem: string)
    requires '.' !in stem
    ensures TemplateFromViewName(stem + "_view.ex") == stem
  {
    var f := stem + "_view.ex";
    assert f[|stem| + 5] == '.';
    assert "_view.ex" == "_view" + ".ex";
    NoMatchBefore(stem, "_view", ".ex", "_view.ex", 5);
    ReplaceAllSkip(stem, "_view.ex", "_view.ex", "");
    DropViewSuffix();
    assert stem + "" == stem;
    if Contains(stem, ".ex") {
      ContainsHasChar(stem, ".ex", 0);
    }
  }

  lemma HeexSuffix()
    ensures ReplaceAll(".ex", ".ex", ".html.heex") == ".html.heex"
  {
    assert ".ex"[..3] == ".ex";
    assert ".ex"[3..] == "";
  }

  /** Any other `<stem>.ex` becomes the template `<stem>.html.heex`. */
  lemma TemplateOfSource(stem: string)
    requires '.' !in stem
    ensures TemplateFileName(stem + ".ex") == stem + ".html.heex"
  {
    assert (stem + ".ex")[|stem|] == '.';
    assert ".ex" == "" + ".ex";
    NoMatchBefore(stem, "", ".ex", ".ex", 0);
    ReplaceAllSkip(stem, ".ex", ".ex", ".html.heex");
    HeexSuffix();
  }

  /** `<name>_controller.ex` names the controller `<name>`. */
  lemma ControllerNameOfFile(name: string)
    requires '.' !in name
    ensures Contains(name + "_controller.ex", "_controller.")
    ensures ReplaceAll(name + "_controller.ex", "_controller.ex", "") == name
  {
    var f := name + "_controller.ex";
    assert OccursAt(f, "_controller.", |name|);
    ContainsIff(f, "_controller.");
    assert "_controller.ex" == "_controller" + ".ex";
    assert '.' !in name + "_controller";
    NoMatchBefore(name, "_controller", ".ex", "_controller.ex", 11);
    ReplaceAllSkip(name, "_controller.ex", "_controller.ex", "");
    assert "_controller.ex"[..14] == "_controller.ex" && "_controller.ex"[14..] == "";
    assert name + "" == name;
  }

  /** `.html` on a controller `<app>_web/controllers/<dirs>/<name>_controller.ex`
      gives `<app>_web/controllers/<name>_html/<dirs>/index.html.heex`: the
      controller's directory goes right after `controllers`, the file
      becomes `index.html.heex`, and every other segment is kept. */
  lemma HtmlOfController(pre: seq<string>, app: string, dirs: seq<string>, name: string)
    requires "lib" !in pre && "controllers" !in pre && '.' !in name
    ensures HtmlPath(ControllerParts(pre, app, dirs, name + "_controller.ex"))
         == pre + ["lib", app + "_web", "controllers", name + "_html"] + dirs + ["index.html.heex"]
  {
    var c := ControllerParts(pre, app, dirs, name + "_controller.ex");
    var i := |pre|;
    assert c[..i] == pre;
    FirstIndexOfIs(c, "lib", i);
    WebSuffix(app);
    assert EnterWebModule(c, i) == c;
    assert (app + "_web")[|app + "_web"| - 1] == 'b';
    assert c[..i + 2] == pre + ["lib", app + "_web"];
    FirstIndexOfIs(c, "controllers", i + 2);
    ControllerNameOfFile(name);
    var kept := pre + ["lib", app + "_web", "controllers"] + dirs;
    assert RemoveAt(c, |c| - 1) == kept;
    assert InsertAt(kept, i + 3, name + "_html") == pre + ["lib", app + "_web", "controllers", name + "_html"] + dirs;
  }

  /** `.html` on a view `<app>_web/views/<dirs>/<stem>_view.ex` gives the
      template `<app>_web/templates/<dirs>/<stem>`: `views` is renamed, the
      file loses `_view.ex`, and every other segment is kept. */
  lemma HtmlOfView(pre: seq<string>, app: string, dirs: seq<string>, stem: string)
    requires "lib" !in pre && "controllers" !in pre && "views" !in pre
    requires "controllers" !in dirs && '.' !in stem
    ensures HtmlPath(pre + ["lib", app + "_web", "views"] + dirs + [stem + "_view.ex"])
         == pre + ["lib", app + "_web", "templates"] + dirs + [stem]
  {
    var file := stem + "_view.ex";
    var c := pre + ["lib", app + "_web", "views"] + dirs + [file];
    var i := |pre|;
    assert c[..i] == pre;
    FirstIndexOfIs(c, "lib", i);
    WebSuffix(app);
    assert "controllers" !in c by {
      assert (app + "_web")[|app + "_web"| - 1] == 'b';
      assert file[|stem| + 5] == '.';
      NotInParts(pre, ["lib", app + "_web", "views"], dirs, [file], "controllers");
    }
    assert (app + "_web")[|app + "_web"| - 1] == 'b';
    assert c[..i + 2] == pre + ["lib", app + "_web"];
    FirstIndexOfIs(c, "views", i + 2);
    HtmlViewStep(c, i);
    ViewsRenamed(pre, app + "_web", dirs, file, stem);
  }

  /** HtmlPath on a path already in the web module, with `views` and no
      `controllers`. */
  lemma HtmlViewStep(c: seq<string>, i: nat)
    requires FirstIndexOf(c, "lib") == Some(i) && i + 1 < |c| && HasSuffix(c[i + 1], "_web")
    requires "controllers" !in c && "views" in c
    ensures HtmlPath(c) == HtmlFromView(c)
  {
    var w := EnterWebModule(c, i);
    assert w == c;
    assert HtmlPath(c) == HtmlLayout(w);
    LayoutOfView(w);
  }

  lemma LayoutOfView(w: seq<string>)
    requires HasWebModule(w) && "controllers" !in w && "views" in w
    ensures HtmlLayout(w) == HtmlFromView(w)
  {
  }

  lemma ViewsRenamed(pre: seq<string>, web: string, dirs: seq<string>, file: string, stem: string)
    requires '.' !in stem && file == stem + "_view.ex"
    requires FirstIndexOf(pre + ["lib", web, "views"] + dirs + [file], "views") == Some(|pre| + 2)
    ensures HtmlFromView(pre + ["lib", web, "views"] + dirs + [file]) == pre + ["lib", web, "templates"] + dirs + [stem]
  {
    var r := pre + ["lib", web, "templates"] + dirs + [file];
    assert (pre + ["lib", web, "views"] + dirs + [file])[|pre| + 2 := "templates"] == r;
    ViewTemplateName(stem);
    assert WithLast(r, stem) == pre + ["lib", web, "templates"] + dirs + [stem];
  }

  // ---------------------------------------------------------------------
  // A leading `./` the input did not have
  // ---------------------------------------------------------------------

  /** Dropping `_web` from `<app>_web` gives `<app>` when `app` has no
      underscore. */
  lemma DropWebSuffix(app: string)
    requires '_' !in app
    ensures ReplaceAll(app + "_web", "_web", "") == app
  {
    assert app + "_web" == app + ("" + "_web");
    NoMatchBefore(app, "", "_web", "_web", 0);
    ReplaceAllSkip(app, "_web", "_web", "");
    assert "_web"[..4] == "_web" && "_web"[4..] == "";
    assert app + "" == app;
  }

  /** An application name with no `_web` in it loses exactly the `_web`
      the controller rule adds. */
  lemma WebDropped(app: string)
    requires !Contains(app, "_web")
    ensures ReplaceAll(app + "_web", "_web", "") == app
    ensures !HasSuffix(app, "_web")
  {
    NoWebBefore(app);
    ReplaceAllSkip(app, "_web", "_web", "");
    assert "_web"[..4] == "_web" && "_web"[4..] == "";
    assert ReplaceAll("_web", "_web", "") == "";
    assert app + "" == app;
    if HasSuffix(app, "_web") {
      assert OccursAt(app, "_web", |app| - 4);
      ContainsIff(app, "_web");
    }
  }

  lemma NoWebBefore(app: string)
    requires !Contains(app, "_web")
    ensures forall i :: 0 <= i < |app| ==> !OccursAt(app + "_web", "_web", i)
  {
    var s := app + "_web";
    ContainsIff(app, "_web");
    forall i | 0 <= i < |app| ensures !OccursAt(s, "_web", i) {
      if i + 4 <= |app| {
        assert s[i..i + 4] == app[i..i + 4];
        assert !OccursAt(app, "_web", i);
      } else {
        assert s[i..i + 4][|app| - i] == s[|app|] == '_';
      }
    }
  }

  /** `<stem>_controller.<ext>` loses its marker under the model rule. */
  lemma ControllerFileDropped(stem: string, ext: string)
    requires '.' !in stem && '_' !in ext
    ensures ModelFileName(stem + "_controller." + ext) == stem + "." + ext
  {
    var f := stem + "_controller." + ext;
    ControllerMarkerFound(stem, ext);
    assert ModelFileName(f) == ReplaceAll(f, "_controller.", ".");
    ControllerMarkerReplaced(stem, ext);
  }

  lemma ControllerMarkerFound(stem: string, ext: string)
    ensures '.' in stem + "_controller." + ext
    ensures Contains(stem + "_controller." + ext, "_controller.")
  {
    var f := stem + "_controller." + ext;
    assert f[|stem| + 11] == '.';
    assert f[|stem|..|stem| + 12] == "_controller.";
    assert OccursAt(f, "_controller.", |stem|);
    ContainsIff(f, "_controller.");
  }

  lemma ControllerMarkerReplaced(stem: string, ext: string)
    requires '.' !in stem && '_' !in ext
    ensures ReplaceAll(stem + "_controller." + ext, "_controller.", ".") == stem + "." + ext
  {
    var tail := "_controller." + ext;
    assert '.' !in stem + "_controller";
    NoMatchBefore(stem, "_controller", "." + ext, "_controller.", 11);
    assert stem + ("_controller" + ("." + ext)) == stem + tail;
    ReplaceAllSkip(stem, tail, "_controller.", ".");
    TailDropped(ext);
    assert stem + tail == stem + "_controller." + ext;
    assert stem + ("." + ext) == stem + "." + ext;
  }

  lemma TailDropped(ext: string)
    requires '_' !in ext
    ensures ReplaceAll("_controller." + ext, "_controller.", ".") == "." + ext
  {
    var t := "_controller." + ext;
    assert t[..12] == "_controller.";
    assert t[12..] == ext;
    if Contains(ext, "_controller.") {
      ContainsHasChar(ext, "_controller.", 0);
    }
  }

  /** A source file `<stem>.<ext>` becomes `<stem>_controller.<ext>`. */
  lemma SourceFileMarked(stem: string, ext: string)
    requires '.' !in stem && !HasSuffix(stem, "_controller")
    ensures '.' in stem + "." + ext
    ensures MarkedFileName(stem + "." + ext, [], "_controller") == stem + "_controller." + ext
  {
    assert (stem + "." + ext)[|stem|] == '.';
    StemOfDotted(stem, ext);
  }

  /** A source path `<pre>/lib/<app>/<dirs>/<file>` and the controller path
      `<pre>/lib/<app>_web/controllers/<dirs>/<file>`. */
  function SourceParts(pre: seq<string>, app: string, dirs: seq<string>, file: string): seq<string> {
    pre + ["lib", app] + dirs + [file]
  }

  function ControllerParts(pre: seq<string>, app: string, dirs: seq<string>, file: string): seq<string> {
    pre + ["lib", app + "_web", "controllers"] + dirs + [file]
  }

  /** The canonical layout of a source file outside the web module: `lib`
      first after `pre`, no `controllers` directory, an application name
      without `_web`, and a `<stem>.<ext>` file whose stem has no role
      marker. */
  predicate CanonicalSource(pre: seq<string>, app: string, dirs: seq<string>, stem: string, ext: string) {
    "lib" !in pre && "controllers" !in pre && "controllers" !in dirs && app != "controllers"
    && !Contains(app, "_web") && '.' !in stem && !HasSuffix(stem, "_controller") && '_' !in ext
  }

  /** `.controller` moves a canonical source into the web module's
      `controllers` directory and marks the file. */
  lemma ControllerOfSource(pre: seq<string>, app: string, dirs: seq<string>, stem: string, ext: string)
    requires CanonicalSource(pre, app, dirs, stem, ext)
    ensures ControllerPath(SourceParts(pre, app, dirs, stem + "." + ext))
         == ControllerParts(pre, app, dirs, stem + "_controller." + ext)
  {
    var file := stem + "." + ext;
    var c := SourceParts(pre, app, dirs, file);
    assert c[..|pre|] == pre;
    FirstIndexOfIs(c, "lib", |pre|);
    SourceFileMarked(stem, ext);
    SourceDirectories(pre, app, dirs, file);
    var d := ControllerParts(pre, app, dirs, file);
    assert ControllerPath(c) == WithLast(d, MarkedFileName(file, [], "_controller"));
    assert WithLast(d, stem + "_controller." + ext) == ControllerParts(pre, app, dirs, stem + "_controller." + ext);
  }

  /** The directories step of ControllerOfSource: `_web` appended to the
      application, `controllers` inserted after it. */
  lemma SourceDirectories(pre: seq<string>, app: string, dirs: seq<string>, file: string)
    requires "controllers" !in pre && "controllers" !in dirs && app != "controllers"
    requires !Contains(app, "_web") && '.' in file
    ensures ControllerDirectories(SourceParts(pre, app, dirs, file), |pre|)
         == ControllerParts(pre, app, dirs, file)
  {
    var c := SourceParts(pre, app, dirs, file);
    var w := pre + ["lib", app + "_web"] + dirs + [file];
    WebDropped(app);
    AppMarked(pre, app, dirs, file);
    MarkedWithoutControllers(pre, app, dirs, file);
    ControllerDirectoriesStep(c, |pre|, w);
    ControllersInserted(pre, app, dirs, file);
  }

  lemma MarkedWithoutControllers(pre: seq<string>, app: string, dirs: seq<string>, file: string)
    requires "controllers" !in pre && "controllers" !in dirs && '.' in file
    ensures "controllers" !in pre + ["lib", app + "_web"] + dirs + [file]
  {
    assert (app + "_web")[|app + "_web"| - 1] == 'b';
    assert file != "controllers";
    NotInParts(pre, ["lib", app + "_web"], dirs, [file], "controllers");
  }

  /** ControllerDirectories on an application without `_web` once the
      marked path is known to lack `controllers`. */
  lemma ControllerDirectoriesStep(c: seq<string>, i: nat, w: seq<string>)
    requires i + 1 < |c| && !HasSuffix(c[i + 1], "_web")
    requires c[i + 1 := c[i + 1] + "_web"] == w && "controllers" !in w
    ensures ControllerDirectories(c, i) == InsertAt(w, i + 2, "controllers")
  {
  }

  lemma AppMarked(pre: seq<string>, app: string, dirs: seq<string>, file: string)
    ensures SourceParts(pre, app, dirs, file)[|pre| + 1] == app
    ensures SourceParts(pre, app, dirs, file)[|pre| + 1 := app + "_web"] == pre + ["lib", app + "_web"] + dirs + [file]
  {
  }

  lemma ControllersInserted(pre: seq<string>, app: string, dirs: seq<string>, file: string)
    ensures InsertAt(pre + ["lib", app + "_web"] + dirs + [file], |pre| + 2, "controllers") == ControllerParts(pre, app, dirs, file)
  {
    var w := pre + ["lib", app + "_web"] + dirs + [file];
    assert w[..|pre| + 2] == pre + ["lib", app + "_web"];
    assert w[|pre| + 2..] == dirs + [file];
  }

  lemma NotInParts(a: seq<string>, b: seq<string>, c: seq<string>, d: seq<string>, x: string)
    requires x !in a && x !in b && x !in c && x !in d
    ensures x !in a + b + c + d
  {
  }

  /** `.model` takes a controller path back to its canonical source: out
      of the web module and out of `controllers`, the marker dropped. */
  lemma ModelOfController(pre: seq<string>, app: string, dirs: seq<string>, stem: string, ext: string)
    requires "lib" !in pre && "controllers" !in pre && app != "controllers" && !Contains(app, "_web")
    requires '.' !in stem && '_' !in ext
    ensures ModelPath(ControllerParts(pre, app, dirs, stem + "_controller." + ext))
         == SourceParts(pre, app, dirs, stem + "." + ext)
  {
    var file := stem + "_controller." + ext;
    var c := ControllerParts(pre, app, dirs, file);
    assert c[..|pre|] == pre;
    FirstIndexOfIs(c, "lib", |pre|);
    ModelDirectoriesOfController(pre, app, dirs, file);
    var m := SourceParts(pre, app, dirs, file);
    assert ModelPath(c) == WithLast(m, ModelFileName(file));
    ControllerFileDropped(stem, ext);
    assert WithLast(m, stem + "." + ext) == SourceParts(pre, app, dirs, stem + "." + ext);
  }

  /** The directories step of ModelOfController: `_web` dropped from the
      application, the first `controllers` removed. */
  lemma ModelDirectoriesOfController(pre: seq<string>, app: string, dirs: seq<string>, file: string)
    requires "controllers" !in pre && app != "controllers" && !Contains(app, "_web")
    ensures ModelDirectories(ControllerParts(pre, app, dirs, file), |pre|) == SourceParts(pre, app, dirs, file)
  {
    var c := ControllerParts(pre, app, dirs, file);
    var renamed := pre + ["lib", app, "controllers"] + dirs + [file];
    WebSuffix(app);
    WebDropped(app);
    AppRenamed(pre, app + "_web", app, dirs, file);
    ControllersAfterApp(pre, app, dirs, file);
    ModelDirectoriesStep(c, |pre|, renamed, |pre| + 2);
    ControllersRemoved(pre, app, dirs, file);
  }

  /** ModelDirectories once its two lookups are known. */
  lemma ModelDirectoriesStep(c: seq<string>, i: nat, renamed: seq<string>, k: nat)
    requires i + 1 < |c| && HasSuffix(c[i + 1], "_web")
    requires c[i + 1 := ReplaceAll(c[i + 1], "_web", "")] == renamed
    requires FirstIndexOf(renamed, "controllers") == Some(k)
    ensures ModelDirectories(c, i) == RemoveAt(renamed, k)
  {
  }

  lemma AppRenamed(pre: seq<string>, x: string, y: string, dirs: seq<string>, file: string)
    ensures (pre + ["lib", x, "controllers"] + dirs + [file])[|pre| + 1 := y] == pre + ["lib", y, "controllers"] + dirs + [file]
  {
  }

  lemma ControllersRemoved(pre: seq<string>, app: string, dirs: seq<string>, file: string)
    ensures RemoveAt(pre + ["lib", app, "controllers"] + dirs + [file], |pre| + 2) == SourceParts(pre, app, dirs, file)
  {
    var renamed := pre + ["lib", app, "controllers"] + dirs + [file];
    assert renamed[..|pre| + 2] == pre + ["lib", app];
    assert renamed[|pre| + 3..] == dirs + [file];
  }

  lemma ControllersAfterApp(pre: seq<string>, app: string, dirs: seq<string>, file: string)
    requires "controllers" !in pre && app != "controllers"
    ensures FirstIndexOf(pre + ["lib", app, "controllers"] + dirs + [file], "controllers") == Some(|pre| + 2)
  {
    var renamed := pre + ["lib", app, "controllers"] + dirs + [file];
    assert renamed[..|pre| + 2] == pre + ["lib", app];
    FirstIndexOfIs(renamed, "controllers", |pre| + 2);
  }

  /** So `.model` undoes `.controller` on a canonical source. */
  lemma ModelUndoesController(pre: seq<string>, app: string, dirs: seq<string>, stem: string, ext: string)
    requires CanonicalSource(pre, app, dirs, stem, ext)
    ensures ModelPath(ControllerPath(SourceParts(pre, app, dirs, stem + "." + ext)))
         == SourceParts(pre, app, dirs, stem + "." + ext)
  {
    ControllerOfSource(pre, app, dirs, stem, ext);
    ModelOfController(pre, app, dirs, stem, ext);
  }

  /** The components of a path with a `.` segment behind a `controllers`
      directory, and the path itself. */
  function DotParts(app: string, f: string): seq<string> {
    ["controllers", ".", "lib", app + "_web", f]
  }

  function DotPath(app: string, f: string): string {
    Join(DotParts(app, f), "/")
  }

  lemma ModelDropsControllers(app: string, f: string)
    requires '_' !in app && '_' !in f
    ensures ModelPath(DotParts(app, f)) == [".", "lib", app, f]
  {
    var c := DotParts(app, f);
    FirstIndexOfIs(c, "lib", 2);
    assert HasSuffix(c[3], "_web") by {
      assert (app + "_web")[|app|..] == "_web";
    }
    DropWebSuffix(app);
    var renamed := c[3 := app];
    FirstIndexOfIs(renamed, "controllers", 0);
    assert RemoveAt(renamed, 0) == [".", "lib", app, f];
    if Contains(f, "_controller.") {
      ContainsHasChar(f, "_controller.", 0);
    }
  }

  lemma SplitDotPath(app: string, f: string)
    requires '/' !in app && '/' !in f
    ensures Split(DotPath(app, f), '/') == DotParts(app, f)
  {
    var parts := DotParts(app, f);
    assert '/' !in app + "_web";
    assert forall k :: 0 <= k < |parts| ==> '/' !in parts[k];
    SplitJoin(parts, '/');
  }

  /** convertPath on a path without a leading `./` that names a file. */
  lemma ConversionOfPlainPath(p: string, altType: AlternatePathType, c: seq<string>)
    requires !HasPrefix(p, "./") && Split(p, '/') == c && '.' in Last(c)
    ensures ConversionOf(p, altType) == Success(ConversionResult(Join(ConvertedComponents(c, altType), "/"), altType, p))
  {
    assert PathComponents(p) == c;
    var out := Join(ConvertedComponents(c, altType), "/");
    assert "" + out == out;
  }

  /** So the output of convertPath can start with `./` when the input does
      not: `controllers/./lib/<app>_web/<f>` becomes `./lib/<app>/<f>` under
      the model rule. A leading `./` is kept, but not only when the input
      had one. */
  lemma ConversionCanGainDotSlash(app: string, f: string)
    requires '_' !in app && '/' !in app && '.' in f && '_' !in f && '/' !in f
    ensures !HasPrefix(DotPath(app, f), "./")
    ensures ConversionOf(DotPath(app, f), Model).Success?
    ensures HasPrefix(ConversionOf(DotPath(app, f), Model).value.path, "./")
  {
    var p := DotPath(app, f);
    assert p[..2][0] == 'c';
    assert [".", "lib", app, f] == ["."] + ["lib", app, f];
    SplitDotPath(app, f);
    ConversionOfPlainPath(p, Model, DotParts(app, f));
    ModelDropsControllers(app, f);
    JoinFromDot(["lib", app, f]);
  }

  lemma JoinFromDot(rest: seq<string>)
    requires |rest| > 0
    ensures HasPrefix(Join(["."] + rest, "/"), "./")
  {
    var out := Join(["."] + rest, "/");
    assert (["."] + rest)[1..] == rest;
    assert out == "." + "/" + Join(rest, "/");
    assert out[..2] == "./";
  }
}
