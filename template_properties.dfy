/** Properties of the template generator: how the module name is read off a
    path, and what every stub contains for each configuration. */
module TemplateProperties {
  import opened Wrappers
  import opened Text
  import opened AlternatePathConverter
  import opened PathTransformer
  import opened TransformerProperties
  import opened TemplateGenerator

  // ---------------------------------------------------------------------
  // The suffix loop
  // ---------------------------------------------------------------------

  /** A name ending in none of the suffixes is left as it is. */
  lemma {:induction false} StripNothing(name: string, suffixes: seq<string>)
    requires forall j :: 0 <= j < |suffixes| ==> !HasSuffix(name, suffixes[j])
    ensures StripSuffixes(name, suffixes) == name
    decreases |suffixes|
  {
    if |suffixes| > 0 {
      StripNothing(name, suffixes[1..]);
    }
  }

  /** One suffix is removed when no earlier suffix matches first and the
      rest does not end in a later one. */
  lemma {:induction false} StripOne(base: string, suffixes: seq<string>, k: nat)
    requires k < |suffixes|
    requires forall j :: 0 <= j < k ==> !HasSuffix(base + suffixes[k], suffixes[j])
    requires forall j :: k < j < |suffixes| ==> !HasSuffix(base, suffixes[j])
    ensures StripSuffixes(base + suffixes[k], suffixes) == base
    decreases k
  {
    if k == 0 {
      var name := base + suffixes[0];
      assert HasSuffix(name, suffixes[0]) by {
        assert name[|name| - |suffixes[0]|..] == suffixes[0];
      }
      assert name[..|name| - |suffixes[0]|] == base;
      StripNothing(base, suffixes[1..]);
    } else {
      StripOne(base, suffixes[1..], k - 1);
    }
  }

  /** Two suffixes are removed when they appear in list order read from the
      end: the later-listed one written first. */
  lemma {:induction false} StripTwo(base: string, suffixes: seq<string>, k: nat, m: nat)
    requires k < m < |suffixes|
    requires forall j :: 0 <= j < k ==> !HasSuffix(base + suffixes[m] + suffixes[k], suffixes[j])
    requires forall j :: k < j < m ==> !HasSuffix(base + suffixes[m], suffixes[j])
    requires forall j :: m < j < |suffixes| ==> !HasSuffix(base, suffixes[j])
    ensures StripSuffixes(base + suffixes[m] + suffixes[k], suffixes) == base
    decreases k
  {
    if k == 0 {
      var name := base + suffixes[m] + suffixes[0];
      assert HasSuffix(name, suffixes[0]) by {
        assert name[|name| - |suffixes[0]|..] == suffixes[0];
      }
      assert name[..|name| - |suffixes[0]|] == base + suffixes[m];
      StripOne(base, suffixes[1..], m - 1);
    } else {
      StripTwo(base, suffixes[1..], k - 1, m - 1);
    }
  }

  /** Ends in none of the file-name suffixes the generator removes. */
  predicate NoTemplateSuffix(s: string) {
    forall j :: 0 <= j < |TemplateSuffixes| ==> !HasSuffix(s, TemplateSuffixes[j])
  }

  /** `<name>_controller` gives `<name>`. */
  lemma StripController(base: string)
    requires NoTemplateSuffix(base)
    ensures StripSuffixes(base + "_controller", TemplateSuffixes) == base
  {
    StripOne(base, TemplateSuffixes, 0);
  }

  /** `<name>_live_component` loses both suffixes, the component one first. */
  lemma StripLiveComponent(base: string)
    requires NoTemplateSuffix(base)
    ensures StripSuffixes(base + "_live" + "_component", TemplateSuffixes) == base
  {
    var name := base + "_live" + "_component";
    LastLetterExcludes(name, "_controller");
    LastLetterExcludes(name, "_view");
    LastLetterExcludes(base + "_live", "_channel");
    StripTwo(base, TemplateSuffixes, 2, 4);
  }

  // ---------------------------------------------------------------------
  // toCapitalizedCamelCase
  // ---------------------------------------------------------------------

  /** A word without '_' gets its first letter upper-cased and keeps the
      case of the rest. */
  lemma CamelOfWord(w: string)
    requires '_' !in w && |w| > 0
    ensures ToCapitalizedCamelCase(w) == [UpperChar(w[0])] + w[1..]
  {
    SplitNoSeparator(w, '_');
  }

  /** Unlike toPascalCase, the rest of the word is not lower-cased: an
      upper-case letter after the first tells the two apart. */
  lemma CamelKeepsInnerCapitals(w: string, k: nat)
    requires '_' !in w && 1 <= k < |w| && IsUpper(w[k])
    ensures ToCapitalizedCamelCase(w) != ToPascalCase(w)
  {
    CamelOfWord(w);
    PascalOfWord(w);
    assert ToCapitalizedCamelCase(w)[k] == w[k];
    assert ToPascalCase(w)[k] == Lower(w[1..])[k - 1] == LowerChar(w[k]);
  }

  /** On a snake_case name of lower-case words the result is the words
      capitalised and run together, as toPascalCase gives. */
  lemma CamelOfSnake(ws: seq<string>)
    requires LowerWords(ws)
    ensures ToCapitalizedCamelCase(Snake(ws)) == Capitals(ws)
    ensures ToCapitalizedCamelCase(Snake(ws)) == ToPascalCase(Snake(ws))
  {
    forall i | 0 <= i < |ws| ensures '_' !in ws[i] && UpperFirst(ws[i]) == CapitalizeWord(ws[i]) {
      var w := ws[i];
      assert forall k :: 0 <= k < |w| ==> IsLower(w[k]);
      LowerOfNoUpper(w[1..]);
    }
    SplitJoin(ws, '_');
    assert UpperFirstAll(ws) == CapitalizeAll(ws);
    PascalOfSnake(ws);
  }

  // ---------------------------------------------------------------------
  // extractModuleInfo
  // ---------------------------------------------------------------------

  /** The module name does not depend on how the application name is
      capitalised. */
  lemma ModuleNameIgnoresCapitalize(path: string, c1: string -> string, c2: string -> string)
    ensures ModuleInfo(path, c1).1 == ModuleInfo(path, c2).1
  {
  }

  /** A path with no `lib` or `test` segment gives two empty names. */
  lemma ModuleInfoWithoutRoot(path: string, capitalize: string -> string)
    requires "lib" !in Split(path, '/') && "test" !in Split(path, '/')
    ensures ModuleInfo(path, capitalize) == ("", "")
  {
  }

  /** A `_web` application directory names the application without it. */
  lemma AppNameOfWeb(app: string, capitalize: string -> string)
    ensures AppNameOf(app + "_web", capitalize) == capitalize(app)
  {
    assert HasSuffix(app + "_web", "_web") by {
      assert (app + "_web")[|app|..] == "_web";
    }
    assert (app + "_web")[..|app|] == app;
  }

  /** The names read off `lib/<app>/controllers/<name>_controller.ex`. */
  lemma ControllerPathInfo(app: string, name: seq<string>, capitalize: string -> string)
    requires '/' !in app && LowerWords(name) && NoTemplateSuffix(Snake(name))
    ensures ModuleInfo(Join(["lib", app, "controllers", Snake(name) + "_controller.ex"], "/"), capitalize)
         == (AppNameOf(app, capitalize), Capitals(name))
  {
    var file := Snake(name) + "_controller.ex";
    var c := ["lib", app, "controllers", file];
    NameHasNoSeparators(name);
    ControllerStem(Snake(name));
    SplitJoin(c, '/');
    InfoAfterRootDotted(c, 0, capitalize);
    StripController(Snake(name));
    CamelOfSnake(name);
  }

  lemma ControllerStem(stem: string)
    requires '/' !in stem && '.' !in stem
    ensures '/' !in stem + "_controller.ex" && '.' in stem + "_controller.ex"
    ensures Stem(stem + "_controller.ex") == stem + "_controller"
  {
    var s := stem + "_controller";
    assert stem + "_controller.ex" == s + "." + "ex";
    assert '.' !in "_controller";
    NotInConcat(stem, "_controller", '.');
    StemOfDotted(s, "ex");
  }

  /** The module name the generator puts after `<App>Web.` in a controller
      stub is the one the path transformer reads off the same path, less
      the `Controller` suffix. */
  lemma ControllerNameAgrees(app: seq<string>, name: seq<string>, capitalize: string -> string)
    requires LowerWords(app) && LowerWords(name) && app != ["web"] && Snake(app) != "controllers"
    requires NoTemplateSuffix(Snake(name))
    ensures var path := Join(["lib", Snake(app), "controllers", Snake(name) + "_controller.ex"], "/");
      ModuleNameOf(path) == Join([Capitals(app), ModuleInfo(path, capitalize).1 + "Controller"], ".")
  {
    NameHasNoSeparators(app);
    ControllerPathInfo(Snake(app), name, capitalize);
    ControllerRoundTrip(app, name);
  }

  // ---------------------------------------------------------------------
  // Text facts used for the stubs
  // ---------------------------------------------------------------------

  lemma ContainsAt(s: string, sub: string, i: nat)
    requires OccursAt(s, sub, i)
    ensures Contains(s, sub)
  {
    ContainsIff(s, sub);
  }

  /** A piece of a concatenation is contained in it. */
  lemma ContainsMiddle(a: string, b: string, c: string)
    ensures Contains(a + b + c, b)
  {
    assert (a + b + c)[|a|..|a| + |b|] == b;
    ContainsAt(a + b + c, b, |a|);
  }

  /** What contains a string contains its prefixes. */
  lemma ContainsPrefix(s: string, sub: string, p: string)
    requires Contains(s, sub) && HasPrefix(sub, p)
    ensures Contains(s, p)
  {
    ContainsIff(s, sub);
    var i :| OccursAt(s, sub, i);
    assert s[i..i + |p|] == sub[..|p|];
    ContainsAt(s, p, i);
  }

  lemma PrefixOfConcat(a: string, b: string, p: string)
    requires HasPrefix(a, p)
    ensures HasPrefix(a + b, p)
  {
    assert (a + b)[..|p|] == a[..|p|];
  }

  /** A string holding a character that `s` lacks is not contained in `s`. */
  lemma MissingCharNotContained(s: string, sub: string, k: nat)
    requires k < |sub| && sub[k] !in s
    ensures !Contains(s, sub)
  {
    if Contains(s, sub) {
      ContainsHasChar(s, sub, k);
    }
  }

  /** No two spaces in a row. */
  predicate NoDoubleSpace(s: string) {
    forall i, j :: 0 <= i < |s| && 0 <= j < |s| && j == i + 1 ==> s[i] != ' ' || s[j] != ' '
  }

  predicate EndsClear(s: string) {
    |s| == 0 || s[|s| - 1] != ' '
  }

  predicate StartsClear(s: string) {
    |s| == 0 || s[0] != ' '
  }

  lemma SpaceFree(s: string)
    requires ' ' !in s
    ensures NoDoubleSpace(s) && EndsClear(s) && StartsClear(s)
  {
  }

  /** Gluing two such strings keeps it, unless a space meets a space. */
  lemma NoDoubleSpaceConcat(a: string, b: string)
    requires NoDoubleSpace(a) && NoDoubleSpace(b) && (EndsClear(a) || StartsClear(b))
    ensures NoDoubleSpace(a + b)
    ensures EndsClear(b) && (|b| > 0 || EndsClear(a)) ==> EndsClear(a + b)
  {
    var s := a + b;
    forall i, j | 0 <= i < |s| && 0 <= j < |s| && j == i + 1 ensures s[i] != ' ' || s[j] != ' ' {
      if j < |a| {
        assert s[i] == a[i] && s[j] == a[j];
      } else if i >= |a| {
        assert s[i] == b[i - |a|] && s[j] == b[j - |a|];
      } else {
        assert s[i] == a[|a| - 1] && s[j] == b[0];
      }
    }
  }

  /** Without two spaces in a row there is no `  use ` line. */
  lemma NoUseLine(s: string)
    requires NoDoubleSpace(s)
    ensures !Contains(s, "  use ")
  {
    ContainsIff(s, "  use ");
    forall i ensures !OccursAt(s, "  use ", i) {
      if 0 <= i && i + 6 <= |s| {
        var j := i + 1;
        assert s[i] != ' ' || s[j] != ' ';
        assert s[i..i + 6][0] == s[i] && s[i..i + 6][1] == s[j];
      }
    }
  }

  /** Free of spaces and of '@'. */
  predicate Plain(s: string) {
    ' ' !in s && '@' !in s
  }

  lemma PlainConcat(a: string, b: string)
    requires Plain(a) && Plain(b)
    ensures Plain(a + b)
  {
  }

  // ---------------------------------------------------------------------
  // The stub frame and its two optional blocks
  // ---------------------------------------------------------------------

  /** `t` is `defmodule <header> do`, some lines, then `end`. */
  predicate DefinesModule(t: string, header: string) {
    HasPrefix(t, "defmodule " + header + " do\n") && HasSuffix(t, "\nend")
  }

  /** Every stub opens with `defmodule <header> do` and closes with `end`. */
  lemma StubFrame(header: string, body: string)
    ensures DefinesModule(Stub(header, body), header)
  {
    var s := Stub(header, body);
    assert s[..|"defmodule " + header + " do\n"|] == "defmodule " + header + " do\n";
    assert s[|s| - 4..] == "\nend";
  }

  lemma DocLiterals()
    ensures NoDoubleSpace("@moduledoc \"\"\"\n") && EndsClear("@moduledoc \"\"\"\n")
    ensures NoDoubleSpace(" for ") && StartsClear("\n\"\"\"\n") && ' ' !in "\n\"\"\"\n"
    ensures HasPrefix("@moduledoc \"\"\"\n", "@moduledoc")
    ensures '@' !in " for " && '@' !in "\n\"\"\"\n"
  {
  }

  lemma FrameLiterals()
    ensures NoDoubleSpace("defmodule ") && NoDoubleSpace(" do\n") && EndsClear(" do\n")
    ensures ' ' !in "\nend" && StartsClear("\nend")
    ensures '@' !in "defmodule " && '@' !in " do\n" && '@' !in "\nend"
  {
  }

  /** The `@moduledoc` block has no two spaces in a row and does not end in
      a space. */
  lemma DocBlockSpacing(config: Configuration, word: string, name: string)
    requires ' ' !in word && ' ' !in name
    ensures NoDoubleSpace(ModuleDocBlock(config, word, name)) && EndsClear(ModuleDocBlock(config, word, name))
  {
    if config.includeModuleDoc {
      DocLiterals();
      SpaceFree(word);
      SpaceFree(name);
      SpaceFree("\n\"\"\"\n");
      var a := "@moduledoc \"\"\"\n";
      NoDoubleSpaceConcat(a, word);
      NoDoubleSpaceConcat(a + word, " for ");
      NoDoubleSpaceConcat(a + word + " for ", name);
      NoDoubleSpaceConcat(a + word + " for " + name, "\n\"\"\"\n");
    }
  }

  /** Without the use block, a stub whose names hold no spaces has no two
      spaces in a row. */
  lemma StubSpacing(header: string, body: string)
    requires |header| > 0 && ' ' !in header
    requires NoDoubleSpace(body) && EndsClear(body)
    ensures NoDoubleSpace(Stub(header, body))
  {
    FrameLiterals();
    SpaceFree(header);
    SpaceFree("\nend");
    NoDoubleSpaceConcat("defmodule ", header);
    NoDoubleSpaceConcat("defmodule " + header, " do\n");
    NoDoubleSpaceConcat("defmodule " + header + " do\n", body);
    NoDoubleSpaceConcat("defmodule " + header + " do\n" + body, "\nend");
  }

  /** The `use` lines appear exactly when the configuration asks for them. */
  lemma StubUse(config: Configuration, header: string, word: string, name: string, use: string)
    requires |header| > 0 && ' ' !in header && ' ' !in word && ' ' !in name
    requires HasPrefix(use, "  use ")
    ensures var t := Stub(header, ModuleDocBlock(config, word, name) + UseBlock(config, use));
      (config.includeUse ==> Contains(t, use)) && (config.includeUse <==> Contains(t, "  use "))
  {
    var doc := ModuleDocBlock(config, word, name);
    var t := Stub(header, doc + UseBlock(config, use));
    if config.includeUse {
      assert t == "defmodule " + header + " do\n" + doc + use + "\nend";
      ContainsMiddle("defmodule " + header + " do\n" + doc, use, "\nend");
      ContainsPrefix(t, use, "  use ");
    } else {
      assert doc + UseBlock(config, use) == doc;
      DocBlockSpacing(config, word, name);
      StubSpacing(header, doc);
      NoUseLine(t);
    }
  }

  /** The `@moduledoc` block appears exactly when the configuration asks for
      it, and then names the kind of module and the module. */
  lemma StubDoc(config: Configuration, header: string, word: string, name: string, rest: string)
    requires '@' !in header && '@' !in word && '@' !in name && '@' !in rest
    ensures var t := Stub(header, ModuleDocBlock(config, word, name) + rest);
      (config.includeModuleDoc <==> Contains(t, "@moduledoc"))
      && (config.includeModuleDoc ==> Contains(t, word + " for " + name))
  {
    if config.includeModuleDoc {
      StubWithDoc(header, "@moduledoc \"\"\"\n" + word + " for " + name + "\n\"\"\"\n", word, name, rest);
    } else {
      StubWithoutDoc(header, rest);
    }
  }

  lemma StubWithDoc(header: string, doc: string, word: string, name: string, rest: string)
    requires doc == "@moduledoc \"\"\"\n" + word + " for " + name + "\n\"\"\"\n"
    ensures Contains(Stub(header, doc + rest), "@moduledoc")
    ensures Contains(Stub(header, doc + rest), word + " for " + name)
  {
    DocBlockNames(word, name);
    ContainsWithin(doc, "@moduledoc", "", rest);
    ContainsWithin(doc, word + " for " + name, "", rest);
    assert "" + doc + rest == doc + rest;
    ContainsWithin(doc + rest, "@moduledoc", "defmodule " + header + " do\n", "\nend");
    ContainsWithin(doc + rest, word + " for " + name, "defmodule " + header + " do\n", "\nend");
  }

  lemma StubWithoutDoc(header: string, rest: string)
    requires '@' !in header && '@' !in rest
    ensures !Contains(Stub(header, "" + rest), "@moduledoc")
  {
    FrameLiterals();
    assert Stub(header, "" + rest) == "defmodule " + header + " do\n" + rest + "\nend";
    MissingCharNotContained(Stub(header, "" + rest), "@moduledoc", 0);
  }

  /** What a piece contains, the whole contains. */
  lemma ContainsWithin(s: string, sub: string, a: string, c: string)
    requires Contains(s, sub)
    ensures Contains(a + s + c, sub)
  {
    ContainsIff(s, sub);
    var i :| OccursAt(s, sub, i);
    assert (a + s + c)[|a| + i..|a| + i + |sub|] == s[i..i + |sub|];
    ContainsAt(a + s + c, sub, |a| + i);
  }

  /** The `@moduledoc` block opens with `@moduledoc` and holds
      `<kind> for <module>`. */
  lemma DocBlockNames(word: string, name: string)
    ensures var doc := "@moduledoc \"\"\"\n" + word + " for " + name + "\n\"\"\"\n";
      Contains(doc, "@moduledoc") && Contains(doc, word + " for " + name)
  {
    var a := "@moduledoc \"\"\"\n";
    var doc := a + word + " for " + name + "\n\"\"\"\n";
    DocLiterals();
    PrefixOfConcat(a, word + " for " + name + "\n\"\"\"\n", "@moduledoc");
    assert doc == a + (word + " for " + name + "\n\"\"\"\n");
    assert doc == a + (word + " for " + name) + "\n\"\"\"\n";
    ContainsMiddle(a, word + " for " + name, "\n\"\"\"\n");
  }

  // ---------------------------------------------------------------------
  // The stub of each kind
  // ---------------------------------------------------------------------

  /** The suffix a stub's module name carries for each kind of file. */
  function KindSuffix(kind: AlternatePathType): string {
    match kind
    case Controller => "Controller"
    case View => "View"
    case Live => "Live"
    case LiveComponent => "Component"
    case Html => "HTML"
    case Json => "JSON"
    case Channel => "Channel"
    case Test => "Test"
    case Feature => "Test"
    case _ => ""
  }

  /** The module a stub defines: schemas sit directly under the
      application, Mix tasks under `Mix.Tasks`, everything else under the
      application's `Web` namespace with the kind's suffix. */
  function ModuleHeader(appName: string, moduleName: string, kind: AlternatePathType): string {
    if kind == Task then "Mix.Tasks." + moduleName
    else if kind == Model then appName + "." + moduleName
    else appName + "Web." + moduleName + KindSuffix(kind)
  }

  /** Every stub is `defmodule <module> do ... end` for the module its kind
      calls for. */
  lemma TemplateHeader(config: Configuration, capitalize: string -> string, path: string, kind: AlternatePathType)
    ensures var (appName, moduleName) := ModuleInfo(path, capitalize);
      var t := Template(config, capitalize, path, kind);
      DefinesModule(t, ModuleHeader(appName, moduleName, kind))
  {
    var (app, name) := ModuleInfo(path, capitalize);
    KindHeader(config, kind, app, name, path);
  }

  lemma KindHeader(config: Configuration, kind: AlternatePathType, app: string, name: string, path: string)
    ensures var t := KindTemplate(config, kind, app, name, path);
      DefinesModule(t, ModuleHeader(app, name, kind))
  {
    if kind.Model? || kind.Test? || kind.Component? || kind.Task? || kind.Feature? {
      OtherHeader(config, kind, app, name, path);
    } else {
      SuffixedHeader(config, kind, app, name, path);
    }
  }

  /** The kinds whose module is `<App>Web.<Name><Suffix>` with a stub built
      from the two optional blocks. */
  lemma SuffixedHeader(config: Configuration, kind: AlternatePathType, app: string, name: string, path: string)
    requires !(kind.Model? || kind.Test? || kind.Component? || kind.Task? || kind.Feature?)
    ensures var t := KindTemplate(config, kind, app, name, path);
      DefinesModule(t, app + "Web." + name + KindSuffix(kind))
  {
    match kind {
      case Controller => StubFrame(app + "Web." + name + "Controller", ModuleDocBlock(config, "Controller", name) + UseBlock(config, WebUse(app, ":controller")));
      case View => StubFrame(app + "Web." + name + "View", ModuleDocBlock(config, "View", name) + UseBlock(config, WebUse(app, ":view")));
      case Live => StubFrame(app + "Web." + name + "Live", ModuleDocBlock(config, "LiveView", name) + UseBlock(config, WebUse(app, ":live_view")));
      case LiveComponent => StubFrame(app + "Web." + name + "Component", ModuleDocBlock(config, "LiveComponent", name) + UseBlock(config, WebUse(app, ":live_component")));
      case Html => StubFrame(app + "Web." + name + "HTML", ModuleDocBlock(config, "HTML", name) + UseBlock(config, WebUse(app, ":html") + "\n" + EmbedLine(name)));
      case Json => StubFrame(app + "Web." + name + "JSON", ModuleDocBlock(config, "JSON", name));
      case Channel => StubFrame(app + "Web." + name + "Channel", ModuleDocBlock(config, "Channel", name) + UseBlock(config, WebUse(app, ":channel")));
    }
  }

  lemma OtherHeader(config: Configuration, kind: AlternatePathType, app: string, name: string, path: string)
    requires kind.Model? || kind.Test? || kind.Component? || kind.Task? || kind.Feature?
    ensures var t := KindTemplate(config, kind, app, name, path);
      DefinesModule(t, ModuleHeader(app, name, kind))
  {
    match kind {
      case Model => StubFrame(app + "." + name, ModuleDocBlock(config, "Schema", name) + UseBlock(config, "  use Ecto.Schema\n  import Ecto.Changeset\n"));
      case Test =>
        var k := TestKindOf(path);
        StubFrame(app + "Web." + name + "Test", TestUse(app, k) + ", async: true" + TestAlias(app, name, k, path));
      case Component =>
        assert app + "Web." + name + "" == app + "Web." + name;
        StubFrame(app + "Web." + name, ModuleDocBlock(config, "Component", name) + UseBlock(config, "  use Phoenix.Component\n"));
      case Task =>
        StubFrame("Mix.Tasks." + name, "  use Mix.Task\n\n  @shortdoc \"" + name + " task\"\n" + ModuleDocBlock(config, "Mix task", name)
                  + "\n  @impl true\n  @doc false\n  def run(argv) do\n    \n  end");
      case Feature => StubFrame(app + "Web." + name + "Test", "  use " + app + "Web.FeatureCase, async: true");
    }
  }

  // ---------------------------------------------------------------------
  // The optional blocks follow the configuration
  // ---------------------------------------------------------------------

  /** The `use` lines are there exactly when `includeUse` is set, the
      `@moduledoc` block exactly when `includeModuleDoc` is. */
  predicate BlocksFollow(t: string, config: Configuration) {
    (config.includeUse <==> Contains(t, "  use ")) && (config.includeModuleDoc <==> Contains(t, "@moduledoc"))
  }

  lemma WebLiterals()
    ensures Plain("Web.") && Plain(".") && |"Web."| > 0 && |"."| > 0
    ensures HasPrefix("  use ", "  use ") && '@' !in "  use " && '@' !in "Web, " && '@' !in "\n"
  {
  }

  lemma WebUseLine(app: string, role: string)
    requires '@' !in app && '@' !in role
    ensures HasPrefix(WebUse(app, role), "  use ") && '@' !in WebUse(app, role)
  {
    WebLiterals();
    PrefixOfConcat("  use ", app + "Web, " + role + "\n", "  use ");
    assert WebUse(app, role) == "  use " + (app + "Web, " + role + "\n");
  }

  /** A stub built from a header, the `@moduledoc` block and a `use` block. */
  lemma BlockStub(config: Configuration, header: string, word: string, name: string, use: string)
    requires |header| > 0 && Plain(header) && Plain(word) && Plain(name)
    requires HasPrefix(use, "  use ") && '@' !in use
    ensures BlocksFollow(Stub(header, ModuleDocBlock(config, word, name) + UseBlock(config, use)), config)
  {
    StubUse(config, header, word, name, use);
    StubDoc(config, header, word, name, UseBlock(config, use));
  }

  /** The stubs under `<App>Web` whose use line is `use <App>Web, <role>`. */
  lemma WebStubBlocks(config: Configuration, app: string, name: string, suffix: string, word: string, role: string)
    requires Plain(app) && Plain(name) && Plain(suffix) && Plain(word) && Plain(role)
    ensures BlocksFollow(Stub(app + "Web." + name + suffix, ModuleDocBlock(config, word, name) + UseBlock(config, WebUse(app, role))), config)
  {
    WebLiterals();
    PlainConcat(app, "Web.");
    PlainConcat(app + "Web.", name);
    PlainConcat(app + "Web." + name, suffix);
    WebUseLine(app, role);
    BlockStub(config, app + "Web." + name + suffix, word, name, WebUse(app, role));
  }

  lemma ControllerWords() ensures Plain("Controller") && Plain(":controller") {}
  lemma ViewWords() ensures Plain("View") && Plain(":view") {}
  lemma LiveWords() ensures Plain("Live") && Plain("LiveView") && Plain(":live_view") {}
  lemma LiveComponentWords() ensures Plain("Component") && Plain("LiveComponent") && Plain(":live_component") {}
  lemma ChannelWords() ensures Plain("Channel") && Plain(":channel") {}
  lemma HtmlWords() ensures Plain("HTML") && Plain(":html") {}
  lemma SchemaWords() ensures Plain("Schema") {}
  lemma JsonWords() ensures Plain("JSON") {}

  lemma ModelUseLine()
    ensures HasPrefix("  use Ecto.Schema\n  import Ecto.Changeset\n", "  use ")
    ensures '@' !in "  use Ecto.Schema\n  import Ecto.Changeset\n"
  {
    ModelUsePrefix();
  }

  lemma ModelUsePrefix()
    ensures HasPrefix("  use Ecto.Schema\n  import Ecto.Changeset\n", "  use ")
  {
    var lit := "  use Ecto.Schema\n  import Ecto.Changeset\n";
    assert lit[0] == ' ' && lit[1] == ' ' && lit[2] == 'u' && lit[3] == 's' && lit[4] == 'e' && lit[5] == ' ';
    assert lit[..6] == "  use ";
  }

  lemma ComponentUseLine()
    ensures HasPrefix("  use Phoenix.Component\n", "  use ") && '@' !in "  use Phoenix.Component\n"
  {
  }

  lemma ModelBlocks(config: Configuration, app: string, name: string)
    requires Plain(app) && Plain(name)
    ensures BlocksFollow(ModelTemplate(config, app, name), config)
  {
    WebLiterals();
    SchemaWords();
    ModelUseLine();
    var use := "  use Ecto.Schema\n  import Ecto.Changeset\n";
    PlainConcat(app, ".");
    PlainConcat(app + ".", name);
    BlockStub(config, app + "." + name, "Schema", name, use);
  }

  lemma ComponentBlocks(config: Configuration, app: string, name: string)
    requires Plain(app) && Plain(name)
    ensures BlocksFollow(ComponentTemplate(config, app, name), config)
  {
    WebLiterals();
    LiveComponentWords();
    ComponentUseLine();
    var use := "  use Phoenix.Component\n";
    PlainConcat(app, "Web.");
    PlainConcat(app + "Web.", name);
    BlockStub(config, app + "Web." + name, "Component", name, use);
  }

  /** Lower-casing does not introduce an '@'. */
  lemma LowerKeepsAt(s: string)
    requires '@' !in s
    ensures '@' !in Lower(s)
  {
    forall i | 0 <= i < |s| ensures Lower(s)[i] != '@' {
      assert !IsUpper('@');
    }
  }

  lemma EmbedLineShape(name: string)
    requires '@' !in name
    ensures '@' !in EmbedLine(name)
  {
    LowerKeepsAt(name);
    assert '@' !in "  embed_templates \"" && '@' !in "_html/*\"\n";
  }

  lemma HtmlBlocks(config: Configuration, app: string, name: string)
    requires Plain(app) && Plain(name)
    ensures BlocksFollow(TemplateGenerator.HtmlTemplate(config, app, name), config)
  {
    WebLiterals();
    HtmlWords();
    var use := WebUse(app, ":html") + "\n" + EmbedLine(name);
    WebUseLine(app, ":html");
    EmbedLineShape(name);
    PrefixOfConcat(WebUse(app, ":html"), "\n" + EmbedLine(name), "  use ");
    assert use == WebUse(app, ":html") + ("\n" + EmbedLine(name));
    PlainConcat(app, "Web.");
    PlainConcat(app + "Web.", name);
    PlainConcat(app + "Web." + name, "HTML");
    BlockStub(config, app + "Web." + name + "HTML", "HTML", name, use);
  }

  /** With the `use` lines switched on, the HTML stub points
      `embed_templates` at the lower-cased module name's `_html`
      directory. */
  lemma HtmlEmbedsTemplates(config: Configuration, app: string, name: string)
    requires config.includeUse
    ensures Contains(TemplateGenerator.HtmlTemplate(config, app, name), EmbedLine(name))
  {
    var doc := ModuleDocBlock(config, "HTML", name);
    var w := WebUse(app, ":html") + "\n";
    var e := EmbedLine(name);
    assert TemplateGenerator.HtmlTemplate(config, app, name) == Stub(app + "Web." + name + "HTML", doc + (w + e));
    ContainsMiddle(w, e, "");
    assert w + e + "" == w + e;
    ContainsWithin(w + e, e, doc, "");
    assert doc + (w + e) + "" == doc + (w + e);
    ContainsWithin(doc + (w + e), e, "defmodule " + (app + "Web." + name + "HTML") + " do\n", "\nend");
  }

  /** The JSON stub never has `use` lines; its `@moduledoc` block follows
      the configuration. */
  lemma JsonBlocks(config: Configuration, app: string, name: string)
    requires Plain(app) && Plain(name)
    ensures !Contains(JsonTemplate(config, app, name), "  use ")
    ensures config.includeModuleDoc <==> Contains(JsonTemplate(config, app, name), "@moduledoc")
  {
    WebLiterals();
    JsonWords();
    var header := app + "Web." + name + "JSON";
    var doc := ModuleDocBlock(config, "JSON", name);
    PlainConcat(app, "Web.");
    PlainConcat(app + "Web.", name);
    PlainConcat(app + "Web." + name, "JSON");
    DocBlockSpacing(config, "JSON", name);
    StubSpacing(header, doc);
    NoUseLine(JsonTemplate(config, app, name));
    StubDoc(config, header, "JSON", name, "");
    assert doc + "" == doc;
  }

  /** For every kind with both optional blocks, the stub has its `use` lines
      exactly when `includeUse` is set and its `@moduledoc` block exactly
      when `includeModuleDoc` is, provided the names hold no spaces and no
      '@'. */
  lemma TemplateBlocks(config: Configuration, capitalize: string -> string, path: string, kind: AlternatePathType)
    requires kind in {Controller, Model, View, Component, Live, LiveComponent, Html, Channel}
    requires Plain(ModuleInfo(path, capitalize).0) && Plain(ModuleInfo(path, capitalize).1)
    ensures BlocksFollow(Template(config, capitalize, path, kind), config)
  {
    var (app, name) := ModuleInfo(path, capitalize);
    KindBlocks(config, kind, app, name, path);
  }

  lemma KindBlocks(config: Configuration, kind: AlternatePathType, app: string, name: string, path: string)
    requires kind in {Controller, Model, View, Component, Live, LiveComponent, Html, Channel}
    requires Plain(app) && Plain(name)
    ensures BlocksFollow(KindTemplate(config, kind, app, name, path), config)
  {
    match kind {
      case Controller => ControllerWords(); WebStubBlocks(config, app, name, "Controller", "Controller", ":controller");
      case View => ViewWords(); WebStubBlocks(config, app, name, "View", "View", ":view");
      case Live => LiveWords(); WebStubBlocks(config, app, name, "Live", "LiveView", ":live_view");
      case LiveComponent => LiveComponentWords(); WebStubBlocks(config, app, name, "Component", "LiveComponent", ":live_component");
      case Channel => ChannelWords(); WebStubBlocks(config, app, name, "Channel", "Channel", ":channel");
      case Model => ModelBlocks(config, app, name);
      case Component => ComponentBlocks(config, app, name);
      case Html => HtmlBlocks(config, app, name);
    }
  }

  // ---------------------------------------------------------------------
  // What the configuration does not reach
  // ---------------------------------------------------------------------

  /** A stub depends on the configuration only through `includeUse` and
      `includeModuleDoc`: `moduleSuffix` changes nothing. */
  lemma OnlyBlocksMatter(c1: Configuration, c2: Configuration, capitalize: string -> string, path: string, kind: AlternatePathType)
    requires c1.includeUse == c2.includeUse && c1.includeModuleDoc == c2.includeModuleDoc
    ensures Template(c1, capitalize, path, kind) == Template(c2, capitalize, path, kind)
  {
    forall word, name ensures ModuleDocBlock(c1, word, name) == ModuleDocBlock(c2, word, name) {}
    forall lines ensures UseBlock(c1, lines) == UseBlock(c2, lines) {}
  }

  /** The JSON and Mix task stubs depend on the configuration only through
      `includeModuleDoc`. */
  lemma OnlyDocMatters(c1: Configuration, c2: Configuration, capitalize: string -> string, path: string, kind: AlternatePathType)
    requires kind in {Json, Task}
    requires c1.includeModuleDoc == c2.includeModuleDoc
    ensures Template(c1, capitalize, path, kind) == Template(c2, capitalize, path, kind)
  {
    var (app, name) := ModuleInfo(path, capitalize);
    assert forall word :: ModuleDocBlock(c1, word, name) == ModuleDocBlock(c2, word, name);
  }

  /** The test and feature stubs take no notice of the configuration. */
  lemma ConfigurationUnused(c1: Configuration, c2: Configuration, capitalize: string -> string, path: string, kind: AlternatePathType)
    requires kind in {Test, Feature}
    ensures Template(c1, capitalize, path, kind) == Template(c2, capitalize, path, kind)
  {
  }

  /** The Mix task stub does not depend on how the application name is
      capitalised. */
  lemma TaskIgnoresCapitalize(config: Configuration, c1: string -> string, c2: string -> string, path: string)
    ensures Template(config, c1, path, Task) == Template(config, c2, path, Task)
  {
    ModuleNameIgnoresCapitalize(path, c1, c2);
    TemplateUnfold(config, c1, path, Task);
    TemplateUnfold(config, c2, path, Task);
    TaskKind(config, ModuleInfo(path, c1).0, ModuleInfo(path, c1).1, path);
    TaskKind(config, ModuleInfo(path, c2).0, ModuleInfo(path, c2).1, path);
  }

  lemma TaskKind(config: Configuration, app: string, name: string, path: string)
    ensures KindTemplate(config, Task, app, name, path) == TaskTemplate(config, name)
  {
  }

  lemma TemplateUnfold(config: Configuration, capitalize: string -> string, path: string, kind: AlternatePathType)
    ensures Template(config, capitalize, path, kind)
         == KindTemplate(config, kind, ModuleInfo(path, capitalize).0, ModuleInfo(path, capitalize).1, path)
  {
  }

  /** The Mix task stub defines `Mix.Tasks.<Name>` with a `@shortdoc`
      naming the task. */
  lemma TaskStub(config: Configuration, capitalize: string -> string, path: string)
    ensures var name := ModuleInfo(path, capitalize).1;
      DefinesModule(Template(config, capitalize, path, Task), "Mix.Tasks." + name)
      && Contains(Template(config, capitalize, path, Task), "@shortdoc \"" + name + " task\"")
  {
    var (app, name) := ModuleInfo(path, capitalize);
    assert Template(config, capitalize, path, Task) == TaskTemplate(config, name);
    OtherHeader(config, Task, app, name, path);
    TaskShortDoc(config, name);
  }

  lemma TaskShortDoc(config: Configuration, name: string)
    ensures Contains(TaskTemplate(config, name), "@shortdoc \"" + name + " task\"")
  {
    var sd := "@shortdoc \"" + name + " task\"";
    var line := "  use Mix.Task\n\n  @shortdoc \"" + name + " task\"\n";
    var d := ModuleDocBlock(config, "Mix task", name);
    var e := "\n  @impl true\n  @doc false\n  def run(argv) do\n    \n  end";
    ShortDocLine(name);
    ContainsBefore(line, sd, d);
    ContainsBefore(line + d, sd, e);
    ContainsWithin(line + d + e, sd, "defmodule " + ("Mix.Tasks." + name) + " do\n", "\nend");
  }

  /** What a string contains, it still contains with more text after it. */
  lemma ContainsBefore(s: string, sub: string, c: string)
    requires Contains(s, sub)
    ensures Contains(s + c, sub)
  {
    ContainsWithin(s, sub, "", c);
    assert "" + s + c == s + c;
  }

  lemma ShortDocLine(name: string)
    ensures Contains("  use Mix.Task\n\n  @shortdoc \"" + name + " task\"\n", "@shortdoc \"" + name + " task\"")
  {
    var lead := "  use Mix.Task\n\n  ";
    assert "  use Mix.Task\n\n  @shortdoc \"" == lead + "@shortdoc \"";
    assert " task\"\n" == " task\"" + "\n";
    assert "  use Mix.Task\n\n  @shortdoc \"" + name + " task\"\n" == lead + ("@shortdoc \"" + name + " task\"") + "\n";
    ContainsMiddle(lead, "@shortdoc \"" + name + " task\"", "\n");
  }

  /** No `@` directly followed by `m`, and no `@` at the end where a
      following piece could supply the `m`: such text holds no
      `@moduledoc`. */
  predicate Untagged(s: string) {
    (forall i :: 0 <= i < |s| - 1 && s[i] == '@' ==> s[i + 1] != 'm')
    && (|s| == 0 || s[|s| - 1] != '@')
  }

  lemma UntaggedConcat(a: string, b: string)
    requires Untagged(a) && Untagged(b)
    ensures Untagged(a + b)
  {
    var s := a + b;
    forall i | 0 <= i < |s| - 1 && s[i] == '@' ensures s[i + 1] != 'm' {
      if i < |a| - 1 {
        assert s[i] == a[i] && s[i + 1] == a[i + 1];
      } else if i >= |a| {
        assert s[i] == b[i - |a|] && s[i + 1] == b[i - |a| + 1];
      }
    }
  }

  lemma AtFreeUntagged(s: string)
    requires '@' !in s
    ensures Untagged(s)
  {
  }

  /** An attribute such as `@shortdoc` other than `@moduledoc`. */
  lemma AttributeUntagged(w: string)
    requires |w| > 0 && w[0] != 'm' && '@' !in w
    ensures Untagged("@" + w)
  {
    assert ("@" + w)[1..] == w;
  }

  lemma UntaggedNoModuleDoc(s: string)
    requires Untagged(s)
    ensures !Contains(s, "@moduledoc")
  {
    ContainsIff(s, "@moduledoc");
    forall i | 0 <= i && i + |"@moduledoc"| <= |s| ensures !OccursAt(s, "@moduledoc", i) {
      assert s[i..i + 10][0] == s[i] && s[i..i + 10][1] == s[i + 1];
    }
  }

  /** The task stub's own lines carry `@shortdoc`, `@impl` and `@doc`, never
      `@moduledoc`. */
  lemma ShortDocUntagged(name: string)
    requires '@' !in name
    ensures Untagged("  use Mix.Task\n\n  @shortdoc \"" + name + " task\"\n")
  {
    var lead, attr := "  use Mix.Task\n\n  ", "shortdoc \"";
    assert lead + ("@" + attr) == "  use Mix.Task\n\n  @shortdoc \"";
    assert '@' !in lead && '@' !in attr && '@' !in " task\"\n";
    AtFreeUntagged(lead);
    AttributeUntagged(attr);
    UntaggedConcat(lead, "@" + attr);
    AtFreeUntagged(name);
    UntaggedConcat(lead + ("@" + attr), name);
    AtFreeUntagged(" task\"\n");
    UntaggedConcat(lead + ("@" + attr) + name, " task\"\n");
  }

  lemma RunUntagged()
    ensures Untagged("\n  @impl true\n  @doc false\n  def run(argv) do\n    \n  end")
  {
    RunPieces();
    AtFreeUntagged("\n  ");
    AttributeUntagged("impl true\n  ");
    AttributeUntagged("doc false\n  def run(argv) do\n    \n  end");
    UntaggedConcat("\n  ", "@impl true\n  ");
    UntaggedConcat("\n  @impl true\n  ", "@doc false\n  def run(argv) do\n    \n  end");
  }

  lemma RunPieces()
    ensures "\n  " + "@impl true\n  " == "\n  @impl true\n  "
    ensures "\n  @impl true\n  " + "@doc false\n  def run(argv) do\n    \n  end" == "\n  @impl true\n  @doc false\n  def run(argv) do\n    \n  end"
    ensures '@' !in "\n  " && '@' !in "impl true\n  " && '@' !in "doc false\n  def run(argv) do\n    \n  end"
    ensures "@" + "impl true\n  " == "@impl true\n  " && "@" + "doc false\n  def run(argv) do\n    \n  end" == "@doc false\n  def run(argv) do\n    \n  end"
  {
    RunJoins();
    RunAtFree();
    RunAttributes();
  }

  lemma RunJoins()
    ensures "\n  " + "@impl true\n  " == "\n  @impl true\n  "
    ensures "\n  @impl true\n  " + "@doc false\n  def run(argv) do\n    \n  end" == "\n  @impl true\n  @doc false\n  def run(argv) do\n    \n  end"
  {
  }

  lemma RunAtFree()
    ensures '@' !in "\n  " && '@' !in "impl true\n  " && '@' !in "doc false\n  def run(argv) do\n    \n  end"
  {
  }

  lemma RunAttributes()
    ensures "@" + "impl true\n  " == "@impl true\n  " && "@" + "doc false\n  def run(argv) do\n    \n  end" == "@doc false\n  def run(argv) do\n    \n  end"
  {
  }

  /** The Mix task stub has a `@moduledoc` block exactly when the
      configuration asks for one, although it always carries other
      attributes. */
  lemma TaskDoc(config: Configuration, name: string)
    requires '@' !in name
    ensures Contains(TaskTemplate(config, name), "@moduledoc") <==> config.includeModuleDoc
  {
    var line := "  use Mix.Task\n\n  @shortdoc \"" + name + " task\"\n";
    var d := ModuleDocBlock(config, "Mix task", name);
    var e := "\n  @impl true\n  @doc false\n  def run(argv) do\n    \n  end";
    var h := "defmodule " + ("Mix.Tasks." + name) + " do\n";
    assert TaskTemplate(config, name) == h + (line + d + e) + "\nend";
    if config.includeModuleDoc {
      DocBlockNames("Mix task", name);
      ContainsWithin(d, "@moduledoc", line, e);
      ContainsWithin(line + d + e, "@moduledoc", h, "\nend");
    } else {
      ShortDocUntagged(name);
      RunUntagged();
      FrameLiterals();
      assert line + d + e == line + e;
      UntaggedConcat(line, e);
      UntaggedConcat(h, line + e);
      UntaggedConcat(h + (line + e), "\nend");
      UntaggedNoModuleDoc(h + (line + e) + "\nend");
    }
  }

  // ---------------------------------------------------------------------
  // generateTestTemplate
  // ---------------------------------------------------------------------

  /** The first listed directory the path contains decides the test case. */
  lemma TestKindFirstMatch(path: string)
    ensures TestKindOf(path) == ControllerTest <==> Contains(path, "/controllers/")
    ensures TestKindOf(path) == ChannelTest <==> !Contains(path, "/controllers/") && Contains(path, "/channels/")
    ensures TestKindOf(path) == LiveTest
        <==> !Contains(path, "/controllers/") && !Contains(path, "/channels/") && Contains(path, "/live/")
    ensures TestKindOf(path) == ComponentTest
        <==> !Contains(path, "/controllers/") && !Contains(path, "/channels/") && !Contains(path, "/live/")
             && Contains(path, "/components/")
    ensures TestKindOf(path) == FeatureTest
        <==> !Contains(path, "/controllers/") && !Contains(path, "/channels/") && !Contains(path, "/live/")
             && !Contains(path, "/components/") && Contains(path, "/features/")
  {
  }

  /** The kind of stub whose module a test of each kind aliases. */
  function TestedKind(kind: TestKind, path: string): AlternatePathType {
    match kind
    case ControllerTest => Controller
    case ChannelTest => Channel
    case LiveTest => if Contains(path, "_component_test") then LiveComponent else Live
    case ComponentTest => Component
    case FeatureTest => Feature
    case PlainTest => Model
  }

  /** Every test stub declares its case template with `async: true`, and
      all but the feature test alias the module the matching stub
      defines. */
  lemma TestStub(app: string, name: string, path: string)
    ensures var kind := TestKindOf(path);
      Contains(TestTemplate(app, name, path), TestUse(app, kind) + ", async: true")
      && (kind != FeatureTest ==> Contains(TestTemplate(app, name, path), "  alias " + ModuleHeader(app, name, TestedKind(kind, path))))
  {
    var kind := TestKindOf(path);
    var u := TestUse(app, kind) + ", async: true";
    var a := TestAlias(app, name, kind, path);
    var frame := "defmodule " + (app + "Web." + name + "Test") + " do\n";
    assert TestTemplate(app, name, path) == frame + (u + a) + "\nend";
    ContainsMiddle("", u, a);
    assert "" + u + a == u + a;
    ContainsWithin(u + a, u, frame, "\nend");
    if kind != FeatureTest {
      AliasNames(app, name, kind, path);
      ContainsWithin(a, "  alias " + ModuleHeader(app, name, TestedKind(kind, path)), u, "");
      assert u + a + "" == u + a;
      ContainsWithin(u + a, "  alias " + ModuleHeader(app, name, TestedKind(kind, path)), frame, "\nend");
    }
  }

  lemma AliasNames(app: string, name: string, kind: TestKind, path: string)
    requires kind != FeatureTest
    ensures Contains(TestAlias(app, name, kind, path), "  alias " + ModuleHeader(app, name, TestedKind(kind, path)))
  {
    var h := ModuleHeader(app, name, TestedKind(kind, path));
    match kind {
      case LiveTest => LiveAlias(app, name, path, h);
      case ComponentTest =>
        assert h == app + "Web." + name by {
          assert app + "Web." + name + "" == app + "Web." + name;
        }
        AliasOfThree(app, "Web.", name);
      case ControllerTest => AliasOfFour(app, "Web.", name, "Controller");
      case ChannelTest => AliasOfFour(app, "Web.", name, "Channel");
      case PlainTest => AliasOfThree(app, ".", name);
    }
  }

  lemma AliasOfThree(x: string, y: string, z: string)
    ensures Contains("\n\n  alias " + x + y + z, "  alias " + (x + y + z))
  {
    assert "\n\n  alias " == "\n\n" + "  alias ";
    assert "\n\n  alias " + x + y + z == "\n\n" + ("  alias " + (x + y + z)) + "";
    ContainsMiddle("\n\n", "  alias " + (x + y + z), "");
  }

  lemma AliasOfFour(x: string, y: string, z: string, w: string)
    ensures Contains("\n\n  alias " + x + y + z + w, "  alias " + (x + y + z + w))
  {
    assert "\n\n  alias " == "\n\n" + "  alias ";
    assert "\n\n  alias " + x + y + z + w == "\n\n" + ("  alias " + (x + y + z + w)) + "";
    ContainsMiddle("\n\n", "  alias " + (x + y + z + w), "");
  }

  lemma LiveAlias(app: string, name: string, path: string, h: string)
    requires h == ModuleHeader(app, name, TestedKind(LiveTest, path))
    ensures Contains(TestAlias(app, name, LiveTest, path), "  alias " + h)
  {
    if Contains(path, "_component_test") {
      AliasAfterImport(app, "Web.", name, "Component");
    } else {
      AliasAfterImport(app, "Web.", name, "Live");
    }
  }

  lemma AliasAfterImport(x: string, y: string, z: string, w: string)
    ensures Contains("\n\n  import Phoenix.LiveViewTest" + "\n  alias " + x + y + z + w, "  alias " + (x + y + z + w))
  {
    var lead := "\n\n  import Phoenix.LiveViewTest";
    assert "\n  alias " == "\n" + "  alias ";
    assert lead + "\n  alias " + x + y + z + w == lead + "\n" + ("  alias " + (x + y + z + w)) + "";
    ContainsMiddle(lead + "\n", "  alias " + (x + y + z + w), "");
  }
}
