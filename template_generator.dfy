// Stub text for a new Elixir file: the application and module name read
// off the path, and one template per kind of file.

module TemplateGenerator {
  import opened Wrappers
  import opened Text
  import opened AlternatePathConverter

  /** What goes into a stub. `moduleSuffix` is carried but never read. */
  datatype Configuration = Configuration(moduleSuffix: bool, includeUse: bool, includeModuleDoc: bool)

  const DefaultConfiguration: Configuration := Configuration(true, true, false)

  // ---------------------------------------------------------------------
  // extractModuleInfo
  // ---------------------------------------------------------------------

  /** File-name suffixes removed from the module name, in the order tried. */
  const TemplateSuffixes: seq<string> := ["_controller", "_view", "_component", "_channel", "_live", "_html", "_json", "_test"]

  /** The application name: the segment after `lib`/`test`, without a
      trailing `_web`, passed through `capitalize` (Foundation's
      `String.capitalized`, which the model leaves uninterpreted). */
  function AppNameOf(rawAppName: string, capitalize: string -> string): string {
    if HasSuffix(rawAppName, "_web") then capitalize(rawAppName[..|rawAppName| - 4]) else capitalize(rawAppName)
  }

  /** Each suffix in turn is dropped when the name, as left by the earlier
      suffixes, ends with it. */
  function StripSuffixes(name: string, suffixes: seq<string>): (r: string)
    ensures HasPrefix(name, r)
    decreases |suffixes|
  {
    if |suffixes| == 0 then name
    else
      var next := if HasSuffix(name, suffixes[0]) then name[..|name| - |suffixes[0]|] else name;
      var r := StripSuffixes(next, suffixes[1..]);
      assert name[..|r|] == next[..|r|];
      r
  }

  /** A '_'-separated part with its first character upper-cased and the
      rest kept as written. */
  function UpperFirst(part: string): string {
    if |part| == 0 then "" else [UpperChar(part[0])] + part[1..]
  }

  function UpperFirstAll(parts: seq<string>): (r: seq<string>)
    ensures |r| == |parts|
    ensures forall i :: 0 <= i < |parts| ==> r[i] == UpperFirst(parts[i])
  {
    seq(|parts|, i requires 0 <= i < |parts| => UpperFirst(parts[i]))
  }

  /** toCapitalizedCamelCase: split at '_', upper-case the first character
      of every part, join without separator. */
  function ToCapitalizedCamelCase(input: string): string {
    Join(UpperFirstAll(Split(input, '_')), "")
  }

  /** The (application, module) pair extractModuleInfo computes. */
  function ModuleInfo(path: string, capitalize: string -> string): (string, string) {
    var components := Split(path, '/');
    match FirstRootIndex(components)
    case None => ("", "")
    case Some(i) => if i + 1 >= |components| then ("", "") else InfoAfterRoot(components, i, capitalize)
  }

  /** The pair once the `lib`/`test` segment is found at `i`, with a
      segment after it. */
  function InfoAfterRoot(components: seq<string>, i: nat, capitalize: string -> string): (string, string)
    requires i + 1 < |components|
  {
    var appName := AppNameOf(components[i + 1], capitalize);
    var filename := components[|components| - 1];
    if '.' in filename then (appName, ToCapitalizedCamelCase(StripSuffixes(Stem(filename), TemplateSuffixes)))
    else if |components| > i + 2 then (appName, ToCapitalizedCamelCase(filename))
    else (appName, "")
  }

  lemma InfoAfterRootDotted(components: seq<string>, i: nat, capitalize: string -> string)
    requires i + 1 < |components| && '.' in components[|components| - 1]
    ensures InfoAfterRoot(components, i, capitalize)
         == (AppNameOf(components[i + 1], capitalize), ToCapitalizedCamelCase(StripSuffixes(Stem(components[|components| - 1]), TemplateSuffixes)))
  {
  }

  /** The suffix loop of extractModuleInfo. */
  method DropSuffixes(name: string, suffixes: seq<string>) returns (moduleName: string)
    ensures moduleName == StripSuffixes(name, suffixes)
  {
    moduleName := name;
    for k := 0 to |suffixes|
      invariant StripSuffixes(moduleName, suffixes[k..]) == StripSuffixes(name, suffixes)
    {
      assert suffixes[k..][1..] == suffixes[k + 1..];
      var suffix := suffixes[k];
      if HasSuffix(moduleName, suffix) {
        moduleName := moduleName[..|moduleName| - |suffix|];
      }
    }
    assert suffixes[|suffixes|..] == [];
  }

  method ExtractModuleInfo(path: string, capitalize: string -> string) returns (appName: string, moduleName: string)
    ensures (appName, moduleName) == ModuleInfo(path, capitalize)
  {
    var components := Split(path, '/');
    var libOrTestIndex: nat;
    match FirstRootIndex(components) {
      case None => return "", "";
      case Some(i) => libOrTestIndex := i;
    }
    if libOrTestIndex + 1 >= |components| {
      return "", "";
    }
    appName, moduleName := NamesAfterRoot(components, libOrTestIndex, capitalize);
  }

  /** The rest of extractModuleInfo once the `lib`/`test` segment is found:
      the application from the next segment, the module from the file
      name. */
  method NamesAfterRoot(components: seq<string>, libOrTestIndex: nat, capitalize: string -> string)
    returns (appName: string, moduleName: string)
    requires libOrTestIndex + 1 < |components|
    ensures (appName, moduleName) == InfoAfterRoot(components, libOrTestIndex, capitalize)
  {
    var rawAppName := components[libOrTestIndex + 1];
    appName := AppNameOf(rawAppName, capitalize);

    var filename := components[|components| - 1];
    if '.' in filename {
      // A name with a dot always splits into more than one part, so the
      // source's `nameComponents.count > 1` test always passes.
      var nameComponents := Split(filename, '.');
      moduleName := DropSuffixes(nameComponents[0], TemplateSuffixes);
      moduleName := ToCapitalizedCamelCase(moduleName);
      InfoAfterRootDotted(components, libOrTestIndex, capitalize);
      return;
    }
    if |components| > libOrTestIndex + 2 {
      return appName, ToCapitalizedCamelCase(filename);
    }
    moduleName := "";
  }

  // ---------------------------------------------------------------------
  // The stubs
  // ---------------------------------------------------------------------

  /** `defmodule <header> do`, the body, then `end` on its own line. */
  function Stub(header: string, body: string): string {
    "defmodule " + header + " do\n" + body + "\nend"
  }

  /** The `@moduledoc` block, present when the configuration asks for it. */
  function ModuleDocBlock(config: Configuration, kindWord: string, moduleName: string): string {
    if config.includeModuleDoc then "@moduledoc \"\"\"\n" + kindWord + " for " + moduleName + "\n\"\"\"\n" else ""
  }

  /** The `use` lines, present when the configuration asks for them. */
  function UseBlock(config: Configuration, lines: string): string {
    if config.includeUse then lines else ""
  }

  /** `  use <App>Web, <role>` on a line of its own. */
  function WebUse(appName: string, role: string): string {
    "  use " + appName + "Web, " + role + "\n"
  }

  function ControllerTemplate(config: Configuration, appName: string, moduleName: string): string {
    Stub(appName + "Web." + moduleName + "Controller",
         ModuleDocBlock(config, "Controller", moduleName) + UseBlock(config, WebUse(appName, ":controller")))
  }

  function ModelTemplate(config: Configuration, appName: string, moduleName: string): string {
    Stub(appName + "." + moduleName,
         ModuleDocBlock(config, "Schema", moduleName) + UseBlock(config, "  use Ecto.Schema\n  import Ecto.Changeset\n"))
  }

  function ViewTemplate(config: Configuration, appName: string, moduleName: string): string {
    Stub(appName + "Web." + moduleName + "View",
         ModuleDocBlock(config, "View", moduleName) + UseBlock(config, WebUse(appName, ":view")))
  }

  function ComponentTemplate(config: Configuration, appName: string, moduleName: string): string {
    Stub(appName + "Web." + moduleName,
         ModuleDocBlock(config, "Component", moduleName) + UseBlock(config, "  use Phoenix.Component\n"))
  }

  function LiveViewTemplate(config: Configuration, appName: string, moduleName: string): string {
    Stub(appName + "Web." + moduleName + "Live",
         ModuleDocBlock(config, "LiveView", moduleName) + UseBlock(config, WebUse(appName, ":live_view")))
  }

  function LiveComponentTemplate(config: Configuration, appName: string, moduleName: string): string {
    Stub(appName + "Web." + moduleName + "Component",
         ModuleDocBlock(config, "LiveComponent", moduleName) + UseBlock(config, WebUse(appName, ":live_component")))
  }

  /** The `embed_templates` line of the HTML stub. */
  function EmbedLine(moduleName: string): string {
    "  embed_templates \"" + Lower(moduleName) + "_html/*\"\n"
  }

  function HtmlTemplate(config: Configuration, appName: string, moduleName: string): string {
    Stub(appName + "Web." + moduleName + "HTML",
         ModuleDocBlock(config, "HTML", moduleName) + UseBlock(config, WebUse(appName, ":html") + "\n" + EmbedLine(moduleName)))
  }

  function JsonTemplate(config: Configuration, appName: string, moduleName: string): string {
    Stub(appName + "Web." + moduleName + "JSON", ModuleDocBlock(config, "JSON", moduleName))
  }

  function ChannelTemplate(config: Configuration, appName: string, moduleName: string): string {
    Stub(appName + "Web." + moduleName + "Channel",
         ModuleDocBlock(config, "Channel", moduleName) + UseBlock(config, WebUse(appName, ":channel")))
  }

  /** The Mix task stub: its module lives under `Mix.Tasks`, whatever the
      application. */
  function TaskTemplate(config: Configuration, moduleName: string): string {
    Stub("Mix.Tasks." + moduleName,
         "  use Mix.Task\n\n  @shortdoc \"" + moduleName + " task\"\n"
         + ModuleDocBlock(config, "Mix task", moduleName)
         + "\n  @impl true\n  @doc false\n  def run(argv) do\n    \n  end")
  }

  function FeatureTemplate(appName: string, moduleName: string): string {
    Stub(appName + "Web." + moduleName + "Test", "  use " + appName + "Web.FeatureCase, async: true")
  }

  // ---------------------------------------------------------------------
  // generateTestTemplate
  // ---------------------------------------------------------------------

  /** Which test case a test path asks for: the first of the directories
      `/controllers/`, `/channels/`, `/live/`, `/components/`,
      `/features/` that the path contains. */
  datatype TestKind = ControllerTest | ChannelTest | LiveTest | ComponentTest | FeatureTest | PlainTest

  function TestKindOf(path: string): TestKind {
    if Contains(path, "/controllers/") then ControllerTest
    else if Contains(path, "/channels/") then ChannelTest
    else if Contains(path, "/live/") then LiveTest
    else if Contains(path, "/components/") then ComponentTest
    else if Contains(path, "/features/") then FeatureTest
    else PlainTest
  }

  /** The `use` line before `, async: true` is appended. */
  function TestUse(appName: string, kind: TestKind): string {
    match kind
    case ControllerTest => "  use " + appName + "Web.ConnCase"
    case ChannelTest => "  use " + appName + "Web.ChannelCase"
    case LiveTest => "  use " + appName + "Web.ConnCase"
    case ComponentTest => "  use " + appName + "Web.ConnCase"
    case FeatureTest => "  use " + appName + "Web.FeatureCase"
    case PlainTest => "  use ExUnit.Case"
  }

  /** The lines after the `use` line: the module under test, or the
      LiveView test helpers. */
  function TestAlias(appName: string, moduleName: string, kind: TestKind, path: string): string {
    match kind
    case ControllerTest => "\n\n  alias " + appName + "Web." + moduleName + "Controller"
    case ChannelTest => "\n\n  alias " + appName + "Web." + moduleName + "Channel"
    case LiveTest =>
      if Contains(path, "_component_test") then "\n\n  import Phoenix.LiveViewTest" + "\n  alias " + appName + "Web." + moduleName + "Component"
      else "\n\n  import Phoenix.LiveViewTest" + "\n  alias " + appName + "Web." + moduleName + "Live"
    case ComponentTest => "\n\n  alias " + appName + "Web." + moduleName
    case FeatureTest => ""
    case PlainTest => "\n\n  alias " + appName + "." + moduleName
  }

  function TestTemplate(appName: string, moduleName: string, path: string): string {
    var kind := TestKindOf(path);
    Stub(appName + "Web." + moduleName + "Test", TestUse(appName, kind) + ", async: true" + TestAlias(appName, moduleName, kind, path))
  }

  method GenerateTestTemplate(appName: string, moduleName: string, path: string) returns (text: string)
    ensures text == TestTemplate(appName, moduleName, path)
  {
    var isControllerTest := Contains(path, "/controllers/");
    var isChannelTest := Contains(path, "/channels/");
    var isLiveTest := Contains(path, "/live/");
    var isComponentTest := Contains(path, "/components/");
    var isFeatureTest := Contains(path, "/features/");
    ghost var kind := TestKindOf(path);

    var useStatement := "  use ExUnit.Case";
    var aliasStatement := "";

    if isControllerTest {
      useStatement := "  use " + appName + "Web.ConnCase";
      aliasStatement := "\n\n  alias " + appName + "Web." + moduleName + "Controller";
    } else if isChannelTest {
      useStatement := "  use " + appName + "Web.ChannelCase";
      aliasStatement := "\n\n  alias " + appName + "Web." + moduleName + "Channel";
    } else if isLiveTest {
      useStatement := "  use " + appName + "Web.ConnCase";
      aliasStatement := "\n\n  import Phoenix.LiveViewTest";
      if Contains(path, "_component_test") {
        aliasStatement := aliasStatement + "\n  alias " + appName + "Web." + moduleName + "Component";
      } else {
        aliasStatement := aliasStatement + "\n  alias " + appName + "Web." + moduleName + "Live";
      }
    } else if isComponentTest {
      useStatement := "  use " + appName + "Web.ConnCase";
      aliasStatement := "\n\n  alias " + appName + "Web." + moduleName;
    } else if isFeatureTest {
      useStatement := "  use " + appName + "Web.FeatureCase";
    } else {
      aliasStatement := "\n\n  alias " + appName + "." + moduleName;
    }
    assert useStatement == TestUse(appName, kind);
    assert aliasStatement == TestAlias(appName, moduleName, kind, path);

    useStatement := useStatement + ", async: true";
    text := Stub(appName + "Web." + moduleName + "Test", useStatement + aliasStatement);
  }

  // ---------------------------------------------------------------------
  // generateTemplate
  // ---------------------------------------------------------------------

  /** The stub for `path` as a file of kind `kind`. */
  function Template(config: Configuration, capitalize: string -> string, path: string, kind: AlternatePathType): string {
    var (appName, moduleName) := ModuleInfo(path, capitalize);
    KindTemplate(config, kind, appName, moduleName, path)
  }

  /** The switch over the kind once the names are known. */
  function KindTemplate(config: Configuration, kind: AlternatePathType, appName: string, moduleName: string, path: string): string {
    match kind
    case Controller => ControllerTemplate(config, appName, moduleName)
    case Model => ModelTemplate(config, appName, moduleName)
    case View => ViewTemplate(config, appName, moduleName)
    case Test => TestTemplate(appName, moduleName, path)
    case Component => ComponentTemplate(config, appName, moduleName)
    case Live => LiveViewTemplate(config, appName, moduleName)
    case LiveComponent => LiveComponentTemplate(config, appName, moduleName)
    case Html => HtmlTemplate(config, appName, moduleName)
    case Json => JsonTemplate(config, appName, moduleName)
    case Channel => ChannelTemplate(config, appName, moduleName)
    case Task => TaskTemplate(config, moduleName)
    case Feature => FeatureTemplate(appName, moduleName)
  }

  method GenerateTemplate(config: Configuration, capitalize: string -> string, path: string, kind: AlternatePathType)
    returns (text: string)
    ensures text == Template(config, capitalize, path, kind)
  {
    var appName, moduleName := ExtractModuleInfo(path, capitalize);
    match kind {
      case Controller => text := ControllerTemplate(config, appName, moduleName);
      case Model => text := ModelTemplate(config, appName, moduleName);
      case View => text := ViewTemplate(config, appName, moduleName);
      case Test => text := GenerateTestTemplate(appName, moduleName, path);
      case Component => text := ComponentTemplate(config, appName, moduleName);
      case Live => text := LiveViewTemplate(config, appName, moduleName);
      case LiveComponent => text := LiveComponentTemplate(config, appName, moduleName);
      case Html => text := HtmlTemplate(config, appName, moduleName);
      case Json => text := JsonTemplate(config, appName, moduleName);
      case Channel => text := ChannelTemplate(config, appName, moduleName);
      case Task => text := TaskTemplate(config, moduleName);
      case Feature => text := FeatureTemplate(appName, moduleName);
    }
  }
}
