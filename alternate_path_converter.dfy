/** The alternate-file engine: given a path inside a Phoenix/Elixir project
    and the kind of file wanted, rewrite the path's `/`-separated components
    to where that kind of file lives.

    Every rule works on a copy of the component list, editing it in place by
    index assignment, insertion and removal, exactly as the Swift code does
    on its `[String]`. Each rule method is proved equal to a specification
    function built from the shared helpers below; the properties of the rules
    are proved about those functions in ConverterProperties. */
module AlternatePathConverter {
  import opened Wrappers
  import opened Text

  /** The twelve kinds of alternate file. */
  datatype AlternatePathType =
    | Test | Controller | Model | View | Html | Live | Component
    | LiveComponent | Channel | Json | Task | Feature

  /** `unsupportedConversion` is part of the error type but never raised. */
  datatype ConversionError =
    | InvalidPath(path: string)
    | UnsupportedConversion(from: string, to: AlternatePathType)

  /** The Swift field `type` is named `pathType` here. */
  datatype ConversionResult = ConversionResult(path: string, pathType: AlternatePathType, originalPath: string)

  // ---------------------------------------------------------------------
  // Edits on a component list (Array.insert / Array.remove)
  // ---------------------------------------------------------------------

  /** `c` with `x` inserted at index `i`. */
  function InsertAt(c: seq<string>, i: nat, x: string): (r: seq<string>)
    requires i <= |c|
    ensures |r| == |c| + 1
  {
    c[..i] + [x] + c[i..]
  }

  lemma InsertAtElements(c: seq<string>, i: nat, x: string)
    requires i <= |c|
    ensures InsertAt(c, i, x)[i] == x
    ensures forall j :: 0 <= j < i ==> InsertAt(c, i, x)[j] == c[j]
    ensures forall j :: i < j <= |c| ==> InsertAt(c, i, x)[j] == c[j - 1]
  {
  }

  /** `c` without its element at index `i`. */
  function RemoveAt(c: seq<string>, i: nat): (r: seq<string>)
    requires i < |c|
    ensures |r| == |c| - 1
  {
    c[..i] + c[i + 1..]
  }

  lemma RemoveAtElements(c: seq<string>, i: nat)
    requires i < |c|
    ensures forall j :: 0 <= j < i ==> RemoveAt(c, i)[j] == c[j]
    ensures forall j :: i <= j < |c| - 1 ==> RemoveAt(c, i)[j] == c[j + 1]
  {
  }

  /** `c` with its last element replaced by `name`. */
  function WithLast(c: seq<string>, name: string): (r: seq<string>)
    requires |c| > 0
    ensures |r| == |c|
  {
    c[|c| - 1 := name]
  }

  function Last(c: seq<string>): string
    requires |c| > 0
  {
    c[|c| - 1]
  }

  /** Writing the last element back leaves the list as it was. */
  lemma WithLastUnchanged(c: seq<string>)
    requires |c| > 0
    ensures WithLast(c, Last(c)) == c
  {
  }

  predicate HasWebModule(c: seq<string>) {
    FirstWebIndex(c).Some?
  }

  // ---------------------------------------------------------------------
  // Steps shared by the web kinds
  // ---------------------------------------------------------------------

  /** The web kinds other than controller move into the web module by
      inserting `<app>_web` right after the application segment (which
      stays); a segment already ending in `_web` is kept as it is. */
  function EnterWebModule(c: seq<string>, libIndex: nat): (r: seq<string>)
    requires libIndex + 1 < |c|
    ensures HasWebModule(r)
  {
    if HasSuffix(c[libIndex + 1], "_web") then c
    else
      var webName := c[libIndex + 1] + "_web";
      assert HasSuffix(InsertAt(c, libIndex + 2, webName)[libIndex + 2], "_web");
      InsertAt(c, libIndex + 2, webName)
  }

  /** Make sure `target` is one of the directories: if it is missing, the
      first of `candidates` present is renamed to it, and with none present
      it is inserted right after the first `_web` segment. */
  function EnsureDirectory(c: seq<string>, target: string, candidates: seq<string>): seq<string>
    requires HasWebModule(c)
  {
    if target in c then c else PlaceDirectory(c, target, candidates)
  }

  function PlaceDirectory(c: seq<string>, target: string, candidates: seq<string>): seq<string>
    requires HasWebModule(c)
    decreases |candidates|
  {
    if |candidates| == 0 then InsertAt(c, FirstWebIndex(c).value + 1, target)
    else
      match FirstIndexOf(c, candidates[0])
      case Some(k) => c[k := target]
      case None => PlaceDirectory(c, target, candidates[1..])
  }

  /** Directories renamed to each kind's directory, in the order tried. */
  const ViewCandidates: seq<string> := ["controllers"]
  const LiveCandidates: seq<string> := ["views", "controllers"]
  const ComponentCandidates: seq<string> := ["controllers", "views"]
  const LiveComponentCandidates: seq<string> := ["views", "controllers", "components"]
  const ChannelCandidates: seq<string> := ["controllers", "views", "live"]

  // ---------------------------------------------------------------------
  // File names
  // ---------------------------------------------------------------------

  /** `"\(name)\(marker).\(ext)"` unless `name` already ends in `marker`. */
  function MarkedName(f: string, name: string, marker: string): string {
    if HasSuffix(name, marker) then f else name + marker + "." + Ext(f)
  }

  /** A test file: `<stem>_test.exs`, the original extension dropped. */
  function TestFileName(f: string): string {
    if '.' in f && !HasSuffix(Stem(f), "_test") then Stem(f) + "_test.exs" else f
  }

  /** Back from a test file: every `_test.` becomes `.`, then `.exs` becomes
      `.ex`. */
  function SourceFileName(f: string): string {
    if '.' in f && Contains(f, "_test.") then
      var n := ReplaceAll(f, "_test.", ".");
      if HasSuffix(n, ".exs") then ReplaceAll(n, ".exs", ".ex") else n
    else f
  }

  /** The stem with every occurrence of each marker removed, the markers
      taken in order: the chained `replacingOccurrences(of:with: "")`. */
  function StripAll(name: string, markers: seq<string>): string
    decreases |markers|
  {
    if |markers| == 0 then name else StripAll(ReplaceAll(name, markers[0], ""), markers[1..])
  }

  /** The file-name step of the rules that mark a file with their role: the
      stem loses the `strips` markers, then gets `marker` unless it already
      ends with it; the extension is kept. */
  function MarkedFileName(f: string, strips: seq<string>, marker: string): string {
    if '.' in f then MarkedName(f, StripAll(Stem(f), strips), marker) else f
  }

  /** Markers each rule removes from the stem before adding its own. */
  const ViewStrips: seq<string> := ["_controller"]
  const LiveStrips: seq<string> := ["_controller", "_view"]
  const ComponentStrips: seq<string> := ["_controller", "_view", "_component"]
  const LiveComponentStrips: seq<string> := ["_controller", "_view"]
  const ChannelStrips: seq<string> := ["_controller", "_view", "_live"]
  const JsonStrips: seq<string> := ["_controller", "_html"]

  function ModelFileName(f: string): string {
    if '.' in f && Contains(f, "_controller.") then ReplaceAll(f, "_controller.", ".") else f
  }

  /** A component file loses every role marker and gets none. */
  function ComponentFileName(f: string): string {
    if '.' in f then StripAll(Stem(f), ComponentStrips) + "." + Ext(f) else f
  }

  /** A template taken from a view: `_view.ex` is dropped, then `.ex`
      becomes `.html.heex`. */
  function TemplateFromViewName(f: string): string {
    if '.' in f then ReplaceAll(ReplaceAll(f, "_view.ex", ""), ".ex", ".html.heex") else f
  }

  function TemplateFileName(f: string): string {
    if '.' in f then ReplaceAll(f, ".ex", ".html.heex") else f
  }

  /** A feature test moved in from outside `test`. */
  function NewFeatureFileName(f: string): string {
    if '.' in f then
      if !HasSuffix(Stem(f), "_test") then Stem(f) + "_test.exs" else Stem(f) + ".exs"
    else f
  }

  // ---------------------------------------------------------------------
  // The rules, as functions of the component list
  // ---------------------------------------------------------------------

  /** convertToTestPath: the first `lib` becomes `test`, the file a test. */
  function TestPath(c: seq<string>): seq<string> {
    match FirstIndexOf(c, "lib")
    case None => c
    case Some(i) =>
      var r := c[i := "test"];
      WithLast(r, TestFileName(Last(r)))
  }

  /** convertFromTestPath: the first `test` becomes `lib`, the file its
      source. */
  function FromTestPath(c: seq<string>): seq<string> {
    match FirstIndexOf(c, "test")
    case None => c
    case Some(i) =>
      var r := c[i := "lib"];
      WithLast(r, SourceFileName(Last(r)))
  }

  /** The `.test` kind goes to the test of a `lib` path, else back from a
      `test` path. */
  function TestKindPath(c: seq<string>): seq<string> {
    if "lib" in c then TestPath(c)
    else if "test" in c then FromTestPath(c)
    else c
  }

  /** convertToControllerPath: the application segment itself is renamed to
      `<app>_web`, and `controllers` is inserted after it when missing. */
  function ControllerPath(c: seq<string>): seq<string> {
    match FirstIndexOf(c, "lib")
    case None => c
    case Some(i) =>
      if i + 1 >= |c| then c
      else
        var d := ControllerDirectories(c, i);
        WithLast(d, MarkedFileName(Last(d), [], "_controller"))
  }

  /** The controller rule's directories, before the file is renamed. */
  function ControllerDirectories(c: seq<string>, i: nat): (d: seq<string>)
    requires i + 1 < |c|
    ensures |d| > 0
  {
    var w := if HasSuffix(c[i + 1], "_web") then c else c[i + 1 := c[i + 1] + "_web"];
    if "controllers" in w then w else InsertAt(w, i + 2, "controllers")
  }

  /** convertToModelPath: out of the web module (every `_web` removed from
      the application name) and out of `controllers`. */
  function ModelPath(c: seq<string>): seq<string> {
    match FirstIndexOf(c, "lib")
    case None => c
    case Some(i) =>
      if i + 1 >= |c| then c
      else
        var m := ModelDirectories(c, i);
        WithLast(m, ModelFileName(Last(m)))
  }

  /** The model rule's directories, before the file is renamed. */
  function ModelDirectories(c: seq<string>, i: nat): (m: seq<string>)
    requires i + 1 < |c|
    ensures |m| > 0
  {
    if HasSuffix(c[i + 1], "_web") then
      var renamed := c[i + 1 := ReplaceAll(c[i + 1], "_web", "")];
      match FirstIndexOf(renamed, "controllers")
      case Some(k) => RemoveAt(renamed, k)
      case None => renamed
    else c
  }

  function ViewPath(c: seq<string>): seq<string> {
    match FirstIndexOf(c, "lib")
    case None => c
    case Some(i) =>
      if i + 1 >= |c| then c
      else
        var d := WebDirectories(c, i, "views", ViewCandidates);
        WithLast(d, MarkedFileName(Last(d), ViewStrips, "_view"))
  }

  /** A web rule's directories, before the file is renamed. */
  function WebDirectories(c: seq<string>, i: nat, target: string, candidates: seq<string>): seq<string>
    requires i + 1 < |c|
  {
    EnsureDirectory(EnterWebModule(c, i), target, candidates)
  }

  /** convertToHtmlPath after entering the web module: a controller file
      becomes `<name>_html/index.html.heex` beside it, a view becomes a
      template under `templates`, anything else goes to a new `templates`
      directory after the web module. */
  function HtmlLayout(w: seq<string>): seq<string>
    requires HasWebModule(w)
  {
    if "controllers" in w then HtmlFromController(w)
    else if "views" in w then HtmlFromView(w)
    else HtmlTemplate(w)
  }

  function HtmlFromController(w: seq<string>): seq<string>
    requires "controllers" in w
  {
    var k := FirstIndexOf(w, "controllers").value;
    if Contains(Last(w), "_controller.") then
      var controllerName := ReplaceAll(Last(w), "_controller.ex", "");
      ControllerIsNotFile(w, k);
      InsertAt(RemoveAt(w, |w| - 1), k + 1, controllerName + "_html") + ["index.html.heex"]
    else w
  }

  function HtmlFromView(w: seq<string>): seq<string>
    requires "views" in w
  {
    var r := w[FirstIndexOf(w, "views").value := "templates"];
    WithLast(r, TemplateFromViewName(Last(r)))
  }

  function HtmlTemplate(w: seq<string>): seq<string>
    requires HasWebModule(w)
  {
    var r := InsertAt(w, FirstWebIndex(w).value + 1, "templates");
    WithLast(r, TemplateFileName(Last(r)))
  }

  /** The `controllers` directory is never the controller file itself. */
  lemma ControllerIsNotFile(w: seq<string>, k: nat)
    requires k < |w| && w[k] == "controllers"
    requires Contains(Last(w), "_controller.")
    ensures k < |w| - 1
  {
    ContainsHasChar(Last(w), "_controller.", 11);
  }

  function HtmlPath(c: seq<string>): seq<string> {
    match FirstIndexOf(c, "lib")
    case None => c
    case Some(i) => if i + 1 >= |c| then c else HtmlLayout(EnterWebModule(c, i))
  }

  function LivePath(c: seq<string>): seq<string> {
    match FirstIndexOf(c, "lib")
    case None => c
    case Some(i) =>
      if i + 1 >= |c| then c
      else
        var d := WebDirectories(c, i, "live", LiveCandidates);
        WithLast(d, MarkedFileName(Last(d), LiveStrips, "_live"))
  }

  function ComponentPath(c: seq<string>): seq<string> {
    match FirstIndexOf(c, "lib")
    case None => c
    case Some(i) =>
      if i + 1 >= |c| then c
      else
        var d := WebDirectories(c, i, "components", ComponentCandidates);
        WithLast(d, ComponentFileName(Last(d)))
  }

  function LiveComponentPath(c: seq<string>): seq<string> {
    match FirstIndexOf(c, "lib")
    case None => c
    case Some(i) =>
      if i + 1 >= |c| then c
      else
        var d := WebDirectories(c, i, "live", LiveComponentCandidates);
        WithLast(d, MarkedFileName(Last(d), LiveComponentStrips, "_component"))
  }

  function ChannelPath(c: seq<string>): seq<string> {
    match FirstIndexOf(c, "lib")
    case None => c
    case Some(i) =>
      if i + 1 >= |c| then c
      else
        var d := WebDirectories(c, i, "channels", ChannelCandidates);
        WithLast(d, MarkedFileName(Last(d), ChannelStrips, "_channel"))
  }

  /** JSON views live in `controllers`, which is only ever inserted. */
  function JsonPath(c: seq<string>): seq<string> {
    match FirstIndexOf(c, "lib")
    case None => c
    case Some(i) =>
      if i + 1 >= |c| then c
      else
        var d := WebDirectories(c, i, "controllers", []);
        WithLast(d, MarkedFileName(Last(d), JsonStrips, "_json"))
  }

  /** `mix` and `tasks` directly follow `lib` at `libIndex`. */
  predicate InMixTasks(c: seq<string>, libIndex: nat) {
    libIndex + 2 < |c| && c[libIndex + 1] == "mix" && c[libIndex + 2] == "tasks"
  }

  /** convertToTaskPath: `mix/tasks` is spliced in right after the first
      `lib` unless it is already there. */
  function TaskPath(c: seq<string>): seq<string> {
    match FirstIndexOf(c, "lib")
    case None => c
    case Some(i) => if InMixTasks(c, i) then c else c[..i + 1] + ["mix", "tasks"] + c[i + 1..]
  }

  /** convertToFeaturePath: `features` right after the first `test`; a path
      outside `test` has its first segment overwritten by `test`. */
  function FeaturePath(c: seq<string>): seq<string>
    requires |c| > 0
  {
    var r := FeatureDirectories(c);
    WithLast(r, if "test" in c then TestFileName(Last(r)) else NewFeatureFileName(Last(r)))
  }

  /** The feature rule's directories, before the file is renamed. */
  function FeatureDirectories(c: seq<string>): (r: seq<string>)
    requires |c| > 0
    ensures |r| > 0
  {
    match FirstIndexOf(c, "test")
    case Some(i) => if i + 1 < |c| && c[i + 1] == "features" then c else c[..i + 1] + ["features"] + c[i + 1..]
    case None => InsertAt(c[0 := "test"], 1, "features")
  }

  /** The components convertPath produces for each kind. */
  function ConvertedComponents(c: seq<string>, altType: AlternatePathType): seq<string>
    requires |c| > 0
  {
    match altType
    case Test => TestKindPath(c)
    case Controller => ControllerPath(c)
    case Model => ModelPath(c)
    case View => ViewPath(c)
    case Html => HtmlPath(c)
    case Live => LivePath(c)
    case Component => ComponentPath(c)
    case LiveComponent => LiveComponentPath(c)
    case Channel => ChannelPath(c)
    case Json => JsonPath(c)
    case Task => TaskPath(c)
    case Feature => FeaturePath(c)
  }

  /** The path with a leading `./` removed. */
  function Normalized(inputPath: string): string {
    if HasPrefix(inputPath, "./") then inputPath[2..] else inputPath
  }

  /** The components of the normalized path. */
  function PathComponents(inputPath: string): (c: seq<string>)
    ensures |c| > 0
  {
    Split(Normalized(inputPath), '/')
  }

  /** The path names a file: its last component has a `.`. */
  predicate NamesFile(inputPath: string) {
    '.' in Last(PathComponents(inputPath))
  }

  /** What convertPath returns or throws. */
  function ConversionOf(inputPath: string, altType: AlternatePathType): Result<ConversionResult, ConversionError> {
    if !NamesFile(inputPath) then Failure(InvalidPath(inputPath))
    else
      var prefix := if HasPrefix(inputPath, "./") then "./" else "";
      var output := ConvertedComponents(PathComponents(inputPath), altType);
      Success(ConversionResult(prefix + Join(output, "/"), altType, inputPath))
  }

  // ---------------------------------------------------------------------
  // The rules as the converter runs them
  // ---------------------------------------------------------------------

  /** The step into the web module shared by the web kinds other than
      controller. */
  method EnterWeb(components: seq<string>, libIndex: nat) returns (result: seq<string>)
    requires libIndex + 1 < |components|
    ensures result == EnterWebModule(components, libIndex)
  {
    result := components;
    var appName := result[libIndex + 1];
    if !HasSuffix(appName, "_web") {
      var webModuleName := appName + "_web";
      result := InsertAt(result, libIndex + 2, webModuleName);
    }
  }

  method ConvertToTestPath(components: seq<string>) returns (result: seq<string>)
    ensures result == TestPath(components)
  {
    result := components;
    match FirstIndexOf(components, "lib") {
      case None =>
      case Some(libIndex) =>
        result := result[libIndex := "test"];
        WithLastUnchanged(result);
        var lastIndex := |result| - 1;
        if lastIndex >= 0 && '.' in result[lastIndex] {
          var parts := Split(result[lastIndex], '.');
          StemExt(result[lastIndex]);
          if |parts| > 1 {
            var name := parts[0];
            if !HasSuffix(name, "_test") {
              result := result[lastIndex := name + "_test.exs"];
            }
          }
        }
    }
  }

  method ConvertFromTestPath(components: seq<string>) returns (result: seq<string>)
    ensures result == FromTestPath(components)
  {
    result := components;
    match FirstIndexOf(components, "test") {
      case None =>
      case Some(testIndex) =>
        result := result[testIndex := "lib"];
        WithLastUnchanged(result);
        var lastIndex := |result| - 1;
        if lastIndex >= 0 && '.' in result[lastIndex] {
          var filename := result[lastIndex];
          if Contains(filename, "_test.") {
            var newFilename := ReplaceAll(filename, "_test.", ".");
            if HasSuffix(newFilename, ".exs") {
              newFilename := ReplaceAll(newFilename, ".exs", ".ex");
            }
            result := result[lastIndex := newFilename];
          }
        }
    }
  }

  /** The file step of the marking rules, on the last component. */
  method MarkLastFile(components: seq<string>, strips: seq<string>, marker: string) returns (result: seq<string>)
    requires |components| > 0
    ensures result == WithLast(components, MarkedFileName(Last(components), strips, marker))
  {
    result := components;
    WithLastUnchanged(result);
    var lastIndex := |result| - 1;
    if lastIndex >= 0 && '.' in result[lastIndex] {
      var parts := Split(result[lastIndex], '.');
      StemExt(result[lastIndex]);
      if |parts| > 1 {
        var name := StripAll(parts[0], strips);
        var ext := Join(parts[1..], ".");
        if !HasSuffix(name, marker) {
          result := result[lastIndex := name + marker + "." + ext];
        }
      }
    }
  }

  /** The component rule's file step: the stem loses every role marker. */
  method StripLastFile(components: seq<string>) returns (result: seq<string>)
    requires |components| > 0
    ensures result == WithLast(components, ComponentFileName(Last(components)))
  {
    result := components;
    WithLastUnchanged(result);
    var lastIndex := |result| - 1;
    if lastIndex >= 0 && '.' in result[lastIndex] {
      var parts := Split(result[lastIndex], '.');
      StemExt(result[lastIndex]);
      if |parts| > 1 {
        var name := StripAll(parts[0], ComponentStrips);
        var ext := Join(parts[1..], ".");
        result := result[lastIndex := name + "." + ext];
      }
    }
  }

  /** The application segment itself becomes the web module here, unlike
      in the other web kinds. */
  method ConvertToControllerPath(components: seq<string>) returns (result: seq<string>)
    ensures result == ControllerPath(components)
  {
    result := components;
    match FirstIndexOf(components, "lib") {
      case None =>
      case Some(libIndex) =>
        if libIndex + 1 < |result| {
          var appName := result[libIndex + 1];
          if !HasSuffix(appName, "_web") {
            result := result[libIndex + 1 := appName + "_web"];
          }
          if "controllers" !in result {
            result := InsertAt(result, libIndex + 2, "controllers");
          }
          assert result == ControllerDirectories(components, libIndex);
          result := MarkLastFile(result, [], "_controller");
        }
    }
  }

  method ConvertToViewPath(components: seq<string>) returns (result: seq<string>)
    ensures result == ViewPath(components)
  {
    result := components;
    match FirstIndexOf(components, "lib") {
      case None =>
      case Some(libIndex) =>
        if libIndex + 1 < |result| {
          result := EnterWeb(result, libIndex);
          if "views" !in result {
            match FirstIndexOf(result, "controllers") {
              case Some(controllerIndex) => result := result[controllerIndex := "views"];
              case None =>
                var webIndex := FirstWebIndex(result).value;
                result := InsertAt(result, webIndex + 1, "views");
            }
          }
          assert result == WebDirectories(components, libIndex, "views", ViewCandidates);
          result := MarkLastFile(result, ViewStrips, "_view");
        }
    }
  }

  method ConvertToLivePath(components: seq<string>) returns (result: seq<string>)
    ensures result == LivePath(components)
  {
    result := components;
    match FirstIndexOf(components, "lib") {
      case None =>
      case Some(libIndex) =>
        if libIndex + 1 < |result| {
          result := EnterWeb(result, libIndex);
          if "live" !in result {
            match FirstIndexOf(result, "views") {
              case Some(viewIndex) => result := result[viewIndex := "live"];
              case None =>
                match FirstIndexOf(result, "controllers") {
                  case Some(controllerIndex) => result := result[controllerIndex := "live"];
                  case None =>
                    var webIndex := FirstWebIndex(result).value;
                    result := InsertAt(result, webIndex + 1, "live");
                }
            }
          }
          assert result == WebDirectories(components, libIndex, "live", LiveCandidates);
          result := MarkLastFile(result, LiveStrips, "_live");
        }
    }
  }

  method ConvertToComponentPath(components: seq<string>) returns (result: seq<string>)
    ensures result == ComponentPath(components)
  {
    result := components;
    match FirstIndexOf(components, "lib") {
      case None =>
      case Some(libIndex) =>
        if libIndex + 1 < |result| {
          result := EnterWeb(result, libIndex);
          if "components" !in result {
            match FirstIndexOf(result, "controllers") {
              case Some(controllerIndex) => result := result[controllerIndex := "components"];
              case None =>
                match FirstIndexOf(result, "views") {
                  case Some(viewIndex) => result := result[viewIndex := "components"];
                  case None =>
                    var webIndex := FirstWebIndex(result).value;
                    result := InsertAt(result, webIndex + 1, "components");
                }
            }
          }
          assert result == WebDirectories(components, libIndex, "components", ComponentCandidates);
          result := StripLastFile(result);
        }
    }
  }

  method ConvertToLiveComponentPath(components: seq<string>) returns (result: seq<string>)
    ensures result == LiveComponentPath(components)
  {
    result := components;
    match FirstIndexOf(components, "lib") {
      case None =>
      case Some(libIndex) =>
        if libIndex + 1 < |result| {
          result := EnterWeb(result, libIndex);
          if "live" !in result {
            match FirstIndexOf(result, "views") {
              case Some(viewIndex) => result := result[viewIndex := "live"];
              case None =>
                match FirstIndexOf(result, "controllers") {
                  case Some(controllerIndex) => result := result[controllerIndex := "live"];
                  case None =>
                    match FirstIndexOf(result, "components") {
                      case Some(componentIndex) => result := result[componentIndex := "live"];
                      case None =>
                        var webIndex := FirstWebIndex(result).value;
                        result := InsertAt(result, webIndex + 1, "live");
                    }
                }
            }
          }
          assert result == WebDirectories(components, libIndex, "live", LiveComponentCandidates);
          result := MarkLastFile(result, LiveComponentStrips, "_component");
        }
    }
  }

  method ConvertToChannelPath(components: seq<string>) returns (result: seq<string>)
    ensures result == ChannelPath(components)
  {
    result := components;
    match FirstIndexOf(components, "lib") {
      case None =>
      case Some(libIndex) =>
        if libIndex + 1 < |result| {
          result := EnterWeb(result, libIndex);
          if "channels" !in result {
            match FirstIndexOf(result, "controllers") {
              case Some(controllerIndex) => result := result[controllerIndex := "channels"];
              case None =>
                match FirstIndexOf(result, "views") {
                  case Some(viewIndex) => result := result[viewIndex := "channels"];
                  case None =>
                    match FirstIndexOf(result, "live") {
                      case Some(liveIndex) => result := result[liveIndex := "channels"];
                      case None =>
                        var webIndex := FirstWebIndex(result).value;
                        result := InsertAt(result, webIndex + 1, "channels");
                    }
                }
            }
          }
          assert result == WebDirectories(components, libIndex, "channels", ChannelCandidates);
          result := MarkLastFile(result, ChannelStrips, "_channel");
        }
    }
  }

  method ConvertToJsonPath(components: seq<string>) returns (result: seq<string>)
    ensures result == JsonPath(components)
  {
    result := components;
    match FirstIndexOf(components, "lib") {
      case None =>
      case Some(libIndex) =>
        if libIndex + 1 < |result| {
          result := EnterWeb(result, libIndex);
          if "controllers" !in result {
            var webIndex := FirstWebIndex(result).value;
            result := InsertAt(result, webIndex + 1, "controllers");
          }
          assert result == WebDirectories(components, libIndex, "controllers", []);
          result := MarkLastFile(result, JsonStrips, "_json");
        }
    }
  }

  method ConvertToModelPath(components: seq<string>) returns (result: seq<string>)
    ensures result == ModelPath(components)
  {
    result := components;
    match FirstIndexOf(components, "lib") {
      case None =>
      case Some(libIndex) =>
        if libIndex + 1 < |result| {
          var appName := result[libIndex + 1];
          if HasSuffix(appName, "_web") {
            var mainModuleName := ReplaceAll(appName, "_web", "");
            result := result[libIndex + 1 := mainModuleName];
            match FirstIndexOf(result, "controllers") {
              case Some(controllerIndex) => result := RemoveAt(result, controllerIndex);
              case None =>
            }
          }
          assert result == ModelDirectories(components, libIndex);
          result := RenameModelFile(result);
        }
    }
  }

  /** The model rule's file step: `_controller.` becomes `.`. */
  method RenameModelFile(components: seq<string>) returns (result: seq<string>)
    requires |components| > 0
    ensures result == WithLast(components, ModelFileName(Last(components)))
  {
    result := components;
    WithLastUnchanged(result);
    var lastIndex := |result| - 1;
    if lastIndex >= 0 && '.' in result[lastIndex] {
      var filename := result[lastIndex];
      if Contains(filename, "_controller.") {
        result := result[lastIndex := ReplaceAll(filename, "_controller.", ".")];
      }
    }
  }

  method ConvertToHtmlPath(components: seq<string>) returns (result: seq<string>)
    ensures result == HtmlPath(components)
  {
    result := components;
    match FirstIndexOf(components, "lib") {
      case None =>
      case Some(libIndex) =>
        if libIndex + 1 < |result| {
          result := EnterWeb(result, libIndex);
          if "controllers" in result {
            result := HtmlBesideController(result);
          } else if "views" in result {
            result := HtmlReplacingView(result);
          } else {
            result := HtmlUnderTemplates(result);
          }
        }
    }
  }

  /** A controller file becomes `<name>_html/index.html.heex` next to it. */
  method HtmlBesideController(components: seq<string>) returns (result: seq<string>)
    requires "controllers" in components
    ensures result == HtmlFromController(components)
  {
    result := components;
    var controllerIndex := FirstIndexOf(result, "controllers").value;
    var lastIndex := |result| - 1;
    if lastIndex >= 0 && Contains(result[lastIndex], "_controller.") {
      var controllerName := ReplaceAll(result[lastIndex], "_controller.ex", "");
      ControllerIsNotFile(result, controllerIndex);
      result := RemoveAt(result, lastIndex);
      result := InsertAt(result, controllerIndex + 1, controllerName + "_html");
      result := result + ["index.html.heex"];
      assert result == InsertAt(RemoveAt(components, |components| - 1), controllerIndex + 1,
                                ReplaceAll(Last(components), "_controller.ex", "") + "_html") + ["index.html.heex"];
    }
  }

  /** `views` becomes `templates` and the view file a template. */
  method HtmlReplacingView(components: seq<string>) returns (result: seq<string>)
    requires "views" in components
    ensures result == HtmlFromView(components)
  {
    result := components;
    var viewIndex := FirstIndexOf(result, "views").value;
    result := result[viewIndex := "templates"];
    WithLastUnchanged(result);
    var lastIndex := |result| - 1;
    if lastIndex >= 0 && '.' in result[lastIndex] {
      var filename := ReplaceAll(ReplaceAll(result[lastIndex], "_view.ex", ""), ".ex", ".html.heex");
      result := result[lastIndex := filename];
    }
  }

  /** A `templates` directory is inserted after the web module. */
  method HtmlUnderTemplates(components: seq<string>) returns (result: seq<string>)
    requires HasWebModule(components)
    ensures result == HtmlTemplate(components)
  {
    result := components;
    var webIndex := FirstWebIndex(result).value;
    result := InsertAt(result, webIndex + 1, "templates");
    WithLastUnchanged(result);
    var lastIndex := |result| - 1;
    if lastIndex >= 0 && '.' in result[lastIndex] {
      result := result[lastIndex := ReplaceAll(result[lastIndex], ".ex", ".html.heex")];
    }
  }

  method ConvertToTaskPath(components: seq<string>) returns (result: seq<string>)
    ensures result == TaskPath(components)
  {
    result := components;
    match FirstIndexOf(components, "lib") {
      case None =>
      case Some(libIndex) =>
        var hasMix := false;
        var hasTasks := false;
        if libIndex + 1 < |result| && result[libIndex + 1] == "mix" {
          hasMix := true;
        }
        if hasMix && libIndex + 2 < |result| && result[libIndex + 2] == "tasks" {
          hasTasks := true;
        }
        if !hasMix || !hasTasks {
          var prefix := result[..libIndex + 1];
          var suffix := if |result| > libIndex + 1 then result[libIndex + 1..] else [];
          result := prefix + ["mix", "tasks"] + suffix;
        }
    }
  }

  /** Swift traps on `result[0]` of an empty list; convertPath never passes
      one. */
  method ConvertToFeaturePath(components: seq<string>) returns (result: seq<string>)
    requires |components| > 0
    ensures result == FeaturePath(components)
  {
    result := components;
    match FirstIndexOf(components, "test") {
      case Some(testIndex) =>
        var hasFeatures := false;
        if testIndex + 1 < |result| && result[testIndex + 1] == "features" {
          hasFeatures := true;
        }
        if !hasFeatures {
          var prefix := result[..testIndex + 1];
          var suffix := if |result| > testIndex + 1 then result[testIndex + 1..] else [];
          result := prefix + ["features"] + suffix;
        }
        assert result == FeatureDirectories(components);
        WithLastUnchanged(result);
        var lastIndex := |result| - 1;
        if lastIndex >= 0 && '.' in result[lastIndex] {
          var parts := Split(result[lastIndex], '.');
          StemExt(result[lastIndex]);
          if |parts| > 1 {
            var name := parts[0];
            if !HasSuffix(name, "_test") {
              result := result[lastIndex := name + "_test.exs"];
            }
          }
        }
      case None =>
        result := result[0 := "test"];
        result := InsertAt(result, 1, "features");
        assert result == FeatureDirectories(components);
        WithLastUnchanged(result);
        var lastIndex := |result| - 1;
        if lastIndex >= 0 && '.' in result[lastIndex] {
          var parts := Split(result[lastIndex], '.');
          StemExt(result[lastIndex]);
          if |parts| > 1 {
            var name := parts[0];
            if !HasSuffix(name, "_test") {
              result := result[lastIndex := name + "_test.exs"];
            } else {
              result := result[lastIndex := name + ".exs"];
            }
          }
        }
    }
  }

  /** convertPath: strip a leading `./`, refuse a path whose last component
      has no `.`, rewrite the components by the kind's rule and put the
      `./` back. */
  method ConvertPath(inputPath: string, altType: AlternatePathType) returns (r: Result<ConversionResult, ConversionError>)
    ensures r == ConversionOf(inputPath, altType)
  {
    var normalizedPath := if HasPrefix(inputPath, "./") then inputPath[2..] else inputPath;
    var pathComponents := Split(normalizedPath, '/');
    var outputComponents := pathComponents;
    if |pathComponents| == 0 || '.' !in pathComponents[|pathComponents| - 1] {
      return Failure(InvalidPath(inputPath));
    }
    var prefix := if HasPrefix(inputPath, "./") then "./" else "";
    outputComponents := ConvertComponents(pathComponents, altType);
    var resultPath := prefix + Join(outputComponents, "/");
    return Success(ConversionResult(resultPath, altType, inputPath));
  }

  /** The dispatch of convertPath over the twelve kinds. */
  method ConvertComponents(pathComponents: seq<string>, altType: AlternatePathType) returns (outputComponents: seq<string>)
    requires |pathComponents| > 0
    ensures outputComponents == ConvertedComponents(pathComponents, altType)
  {
    outputComponents := pathComponents;
    match altType {
      case Test =>
        if "lib" in pathComponents {
          outputComponents := ConvertToTestPath(pathComponents);
        } else if "test" in pathComponents {
          outputComponents := ConvertFromTestPath(pathComponents);
        }
      case Controller => outputComponents := ConvertToControllerPath(pathComponents);
      case Model => outputComponents := ConvertToModelPath(pathComponents);
      case View => outputComponents := ConvertToViewPath(pathComponents);
      case Html => outputComponents := ConvertToHtmlPath(pathComponents);
      case Live => outputComponents := ConvertToLivePath(pathComponents);
      case Component => outputComponents := ConvertToComponentPath(pathComponents);
      case LiveComponent => outputComponents := ConvertToLiveComponentPath(pathComponents);
      case Channel => outputComponents := ConvertToChannelPath(pathComponents);
      case Json => outputComponents := ConvertToJsonPath(pathComponents);
      case Task => outputComponents := ConvertToTaskPath(pathComponents);
      case Feature => outputComponents := ConvertToFeaturePath(pathComponents);
    }
  }
}
