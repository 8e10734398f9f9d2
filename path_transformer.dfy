/** Case conversions between snake_case, camelCase and PascalCase, and the
    mapping between file paths and dotted Elixir module names
    (`PathTransformer` in FawkesLib). */
module PathTransformer {
  import opened Wrappers
  import opened Text

  // ---------------------------------------------------------------------
  // toSnakeCase
  // ---------------------------------------------------------------------

  predicate IsLowerOrDigit(ch: char) { IsLower(ch) || IsDigit(ch) }

  /** A "hump": a lower-case letter or digit immediately followed by an
      upper-case letter, the pattern `([a-z0-9])([A-Z])`. */
  predicate HumpAt(s: string, i: int) {
    0 <= i && i + 1 < |s| && IsLowerOrDigit(s[i]) && IsUpper(s[i + 1])
  }

  /** The regular-expression replacement of `([a-z0-9])([A-Z])` by `$1_$2`:
      the string is scanned left to right and, after a match, scanning
      resumes behind the matched pair. */
  function ReplaceHumps(s: string): string
    decreases |s|
  {
    if |s| < 2 then s
    else if IsLowerOrDigit(s[0]) && IsUpper(s[1]) then [s[0], '_', s[1]] + ReplaceHumps(s[2..])
    else [s[0]] + ReplaceHumps(s[1..])
  }

  /** Declarative reading of the same rewrite: every character is kept, and
      an '_' follows each character that starts a hump. */
  function MarkBoundaries(s: string): string
    decreases |s|
  {
    if |s| == 0 then ""
    else [s[0]] + (if HumpAt(s, 0) then "_" else "") + MarkBoundaries(s[1..])
  }

  lemma ReplaceHumpStep(s: string)
    requires HumpAt(s, 0)
    ensures ReplaceHumps(s) == [s[0], '_', s[1]] + ReplaceHumps(s[2..])
  {
  }

  lemma MarkHumpStep(s: string)
    requires HumpAt(s, 0)
    ensures MarkBoundaries(s) == [s[0], '_', s[1]] + MarkBoundaries(s[2..])
  {
    var t := s[1..];
    assert t[0] == s[1] && t[1..] == s[2..];
    assert !HumpAt(t, 0);
    assert MarkBoundaries(t) == [s[1]] + MarkBoundaries(s[2..]);
    assert MarkBoundaries(s) == [s[0]] + "_" + MarkBoundaries(t);
  }

  lemma ReplaceNoHumpStep(s: string)
    requires |s| > 0 && !HumpAt(s, 0)
    ensures ReplaceHumps(s) == [s[0]] + ReplaceHumps(s[1..])
  {
    if |s| == 1 {
      assert s[1..] == [];
    }
  }

  lemma MarkNoHumpStep(s: string)
    requires |s| > 0 && !HumpAt(s, 0)
    ensures MarkBoundaries(s) == [s[0]] + MarkBoundaries(s[1..])
  {
  }

  /** Matches of the pattern cannot overlap (the second character of a match
      is upper case, so it never starts another one), hence the scanning
      replacement inserts an '_' at every hump. */
  lemma {:induction false} HumpMatchesDoNotOverlap(s: string)
    ensures ReplaceHumps(s) == MarkBoundaries(s)
    decreases |s|
  {
    if HumpAt(s, 0) {
      HumpMatchesDoNotOverlap(s[2..]);
      ReplaceHumpStep(s);
      MarkHumpStep(s);
    } else if |s| > 0 {
      HumpMatchesDoNotOverlap(s[1..]);
      ReplaceNoHumpStep(s);
      MarkNoHumpStep(s);
    }
  }

  /** Boundaries of a concatenation: the pieces' boundaries, plus one at the
      seam when the seam is a hump. */
  lemma {:induction false} MarkBoundariesAppend(a: string, b: string)
    requires |a| > 0 && |b| > 0
    ensures MarkBoundaries(a + b)
         == MarkBoundaries(a) + (if IsLowerOrDigit(a[|a| - 1]) && IsUpper(b[0]) then "_" else "") + MarkBoundaries(b)
    decreases |a|
  {
    var s := a + b;
    assert s[1..] == a[1..] + b;
    if |a| == 1 {
      assert MarkBoundaries(a) == [a[0]];
    } else {
      MarkBoundariesAppend(a[1..], b);
      assert HumpAt(s, 0) == HumpAt(a, 0);
    }
  }

  /** Where there is no hump, nothing is inserted. */
  lemma {:induction false} NoHumpNoBoundaries(s: string)
    requires forall i :: !HumpAt(s, i)
    ensures MarkBoundaries(s) == s
    decreases |s|
  {
    if |s| > 0 {
      forall i ensures !HumpAt(s[1..], i) {
        assert HumpAt(s[1..], i) ==> HumpAt(s, i + 1);
      }
      NoHumpNoBoundaries(s[1..]);
      assert !HumpAt(s, 0);
      assert [s[0]] + s[1..] == s;
    }
  }

  lemma NoUpperHasNoBoundaries(s: string)
    requires NoUpper(s)
    ensures MarkBoundaries(s) == s
  {
    forall i ensures !HumpAt(s, i) {
      if 0 <= i && i + 1 < |s| {
        assert !IsUpper(s[i + 1]);
      }
    }
    NoHumpNoBoundaries(s);
  }

  function ToSnakeCase(input: string): (r: string)
    ensures input == "" ==> r == ""
    ensures NoUpper(r)
  {
    if input == "" then "" else Lower(ReplaceHumps(input))
  }

  /** toSnakeCase inserts '_' exactly at the humps, then lower-cases. */
  lemma ToSnakeCaseMarksHumps(input: string)
    ensures ToSnakeCase(input) == Lower(MarkBoundaries(input))
  {
    HumpMatchesDoNotOverlap(input);
  }

  lemma ToSnakeCaseIdempotent(input: string)
    ensures ToSnakeCase(ToSnakeCase(input)) == ToSnakeCase(input)
  {
    var once := ToSnakeCase(input);
    if once != "" {
      HumpMatchesDoNotOverlap(once);
      NoUpperHasNoBoundaries(once);
      LowerOfNoUpper(once);
    }
  }

  /** Acronyms collapse: an upper-case run followed by a word of lower-case
      letters gets no '_' at all (`APIRequest` becomes `apirequest`). */
  lemma ToSnakeCaseAcronym(acronym: string, word: string)
    requires forall i :: 0 <= i < |acronym| ==> IsUpper(acronym[i])
    requires forall i :: 1 <= i < |word| ==> IsLower(word[i])
    ensures ToSnakeCase(acronym + word) == Lower(acronym + word)
  {
    var s := acronym + word;
    forall i ensures !HumpAt(s, i) {
      if 0 <= i < |acronym| {
        assert IsUpper(s[i]);
      } else if |acronym| <= i && i + 1 < |s| {
        assert s[i + 1] == word[i + 1 - |acronym|];
      }
    }
    HumpMatchesDoNotOverlap(s);
    NoHumpNoBoundaries(s);
  }

  // ---------------------------------------------------------------------
  // toCamelCase, toPascalCase, toElixirModule
  // ---------------------------------------------------------------------

  /** The letters of '_'-separated words, read left to right: each '_' is
      dropped, the letter that starts a word is upper-cased when `atStart`
      holds, and every other letter is lower-cased. */
  function CapitalizeWords(s: string, atStart: bool): string
    decreases |s|
  {
    if |s| == 0 then ""
    else if s[0] == '_' then CapitalizeWords(s[1..], true)
    else [Initial(s[0], atStart)] + CapitalizeWords(s[1..], false)
  }

  /** A letter as written at the start of a word (`atStart`) or inside one. */
  function Initial(ch: char, atStart: bool): char {
    if atStart then UpperChar(ch) else LowerChar(ch)
  }

  function ToPascalCase(input: string): string {
    CapitalizeWords(input, true)
  }

  function ToCamelCase(input: string): string {
    CapitalizeWords(input, false)
  }

  function ToElixirModule(input: string): (r: string)
    ensures r == ToPascalCase(input)
  {
    ToPascalCase(input)
  }

  /** `part.prefix(1).uppercased() + part.dropFirst().lowercased()` */
  function CapitalizeWord(part: string): string {
    if |part| == 0 then "" else [UpperChar(part[0])] + Lower(part[1..])
  }

  function CapitalizeAll(parts: seq<string>): (r: seq<string>)
    ensures |r| == |parts|
    ensures forall i :: 0 <= i < |parts| ==> r[i] == CapitalizeWord(parts[i])
    decreases |parts|
  {
    if |parts| == 0 then [] else [CapitalizeWord(parts[0])] + CapitalizeAll(parts[1..])
  }

  /** toPascalCase as the library writes it: split at '_', capitalise every
      part, join without separator. */
  function PascalByParts(input: string): string {
    Join(CapitalizeAll(Split(input, '_')), "")
  }

  /** toCamelCase as the library writes it: the first part lower-cased, the
      others capitalised, joined without separator. */
  function CamelByParts(input: string): string {
    var parts := Split(input, '_');
    Join([Lower(parts[0])] + CapitalizeAll(parts[1..]), "")
  }

  lemma JoinCons(x: string, xs: seq<string>)
    ensures Join([x] + xs, "") == x + Join(xs, "")
  {
    ConcatAppend([x], xs);
  }

  /** The scanner agrees with split / map / join: the first part is
      capitalised or lower-cased as `atStart` says, every later part is
      capitalised. */
  /** How the first part of a '_'-separated name is written. */
  function FirstPartCase(part: string, atStart: bool): string {
    if atStart then CapitalizeWord(part) else Lower(part)
  }

  lemma FirstPartCaseCons(ch: char, part: string, atStart: bool)
    ensures FirstPartCase([ch] + part, atStart)
         == [Initial(ch, atStart)] + Lower(part)
  {
    var w := [ch] + part;
    assert w[1..] == part;
    if !atStart {
      assert Lower(w) == [LowerChar(ch)] + Lower(part);
    }
  }

  /** The split / map / join reading, with the first part written as
      `atStart` says. */
  function ByParts(s: string, atStart: bool): string {
    var parts := Split(s, '_');
    FirstPartCase(parts[0], atStart) + Join(CapitalizeAll(parts[1..]), "")
  }

  lemma ByPartsSeparatorStep(s: string, atStart: bool)
    requires |s| > 0 && s[0] == '_'
    ensures ByParts(s, atStart) == ByParts(s[1..], true)
  {
    var rest := Split(s[1..], '_');
    SplitSeparatorStep(s, '_');
    assert Split(s, '_')[1..] == rest;
    assert CapitalizeAll(rest) == [CapitalizeWord(rest[0])] + CapitalizeAll(rest[1..]);
    JoinCons(CapitalizeWord(rest[0]), CapitalizeAll(rest[1..]));
  }

  lemma ByPartsLetterStep(s: string, atStart: bool)
    requires |s| > 0 && s[0] != '_'
    ensures ByParts(s, atStart) == [Initial(s[0], atStart)] + ByParts(s[1..], false)
  {
    var rest := Split(s[1..], '_');
    var parts := Split(s, '_');
    var tail := Join(CapitalizeAll(rest[1..]), "");
    SplitLetterStep(s, '_');
    assert parts[0] == [s[0]] + rest[0];
    assert parts[1..] == rest[1..];
    var ch := Initial(s[0], atStart);
    assert ByParts(s, atStart) == FirstPartCase([s[0]] + rest[0], atStart) + tail;
    FirstPartCaseCons(s[0], rest[0], atStart);
    assert ByParts(s[1..], false) == Lower(rest[0]) + tail;
    assert ([ch] + Lower(rest[0])) + tail == [ch] + (Lower(rest[0]) + tail);
  }

  lemma CapitalizeWordsSeparatorStep(s: string, atStart: bool)
    requires |s| > 0 && s[0] == '_'
    ensures CapitalizeWords(s, atStart) == CapitalizeWords(s[1..], true)
  {
  }

  lemma CapitalizeWordsLetterStep(s: string, atStart: bool)
    requires |s| > 0 && s[0] != '_'
    ensures CapitalizeWords(s, atStart) == [Initial(s[0], atStart)] + CapitalizeWords(s[1..], false)
  {
  }

  /** The scanner agrees with split / map / join. */
  lemma {:induction false} CapitalizeWordsByParts(s: string, atStart: bool)
    ensures CapitalizeWords(s, atStart) == ByParts(s, atStart)
    decreases |s|
  {
    if |s| == 0 {
      assert Split(s, '_') == [""];
    } else if s[0] == '_' {
      CapitalizeWordsByParts(s[1..], true);
      CapitalizeWordsSeparatorStep(s, atStart);
      ByPartsSeparatorStep(s, atStart);
    } else {
      CapitalizeWordsByParts(s[1..], false);
      CapitalizeWordsLetterStep(s, atStart);
      ByPartsLetterStep(s, atStart);
    }
  }

  lemma PascalMatchesParts(input: string)
    ensures ToPascalCase(input) == PascalByParts(input)
  {
    var parts := Split(input, '_');
    CapitalizeWordsByParts(input, true);
    assert CapitalizeAll(parts) == [CapitalizeWord(parts[0])] + CapitalizeAll(parts[1..]);
    JoinCons(CapitalizeWord(parts[0]), CapitalizeAll(parts[1..]));
  }

  lemma CamelMatchesParts(input: string)
    ensures ToCamelCase(input) == CamelByParts(input)
  {
    var parts := Split(input, '_');
    CapitalizeWordsByParts(input, false);
    JoinCons(Lower(parts[0]), CapitalizeAll(parts[1..]));
  }

  /** A '_' ends a word: what follows is scanned as a fresh word. */
  lemma {:induction false} CapitalizeWordsConcat(a: string, b: string, atStart: bool)
    ensures CapitalizeWords(a + "_" + b, atStart) == CapitalizeWords(a, atStart) + CapitalizeWords(b, true)
    decreases |a|
  {
    var s := a + "_" + b;
    if |a| == 0 {
      assert s[1..] == b;
    } else {
      assert s[1..] == a[1..] + "_" + b;
      CapitalizeWordsConcat(a[1..], b, a[0] == '_');
      CapitalizeWordsConcat(a[1..], b, false);
      CapitalizeWordsConcat(a[1..], b, true);
    }
  }

  lemma {:induction false} CapitalizeWordsHasNoUnderscore(s: string, atStart: bool)
    ensures '_' !in CapitalizeWords(s, atStart)
    decreases |s|
  {
    if |s| > 0 {
      CapitalizeWordsHasNoUnderscore(s[1..], true);
      CapitalizeWordsHasNoUnderscore(s[1..], false);
    }
  }

  lemma PascalHasNoUnderscore(input: string)
    ensures '_' !in ToPascalCase(input)
  {
    CapitalizeWordsHasNoUnderscore(input, true);
  }

  lemma CamelHasNoUnderscore(input: string)
    ensures '_' !in ToCamelCase(input)
  {
    CapitalizeWordsHasNoUnderscore(input, false);
  }

  lemma PascalOfWord(word: string)
    requires '_' !in word
    ensures ToPascalCase(word) == CapitalizeWord(word)
  {
    SplitNoSeparator(word, '_');
    CapitalizeWordsByParts(word, true);
  }

  lemma CamelOfWord(word: string)
    requires '_' !in word
    ensures ToCamelCase(word) == Lower(word)
  {
    SplitNoSeparator(word, '_');
    CapitalizeWordsByParts(word, false);
  }

  /** toPascalCase maps a '_' to the seam between two capitalised words. */
  lemma PascalConcat(a: string, b: string)
    ensures ToPascalCase(a + "_" + b) == ToPascalCase(a) + ToPascalCase(b)
  {
    CapitalizeWordsConcat(a, b, true);
  }

  /** toCamelCase keeps the first word lower case and capitalises the rest
      like toPascalCase. */
  lemma CamelConcat(a: string, b: string)
    ensures ToCamelCase(a + "_" + b) == ToCamelCase(a) + ToPascalCase(b)
  {
    CapitalizeWordsConcat(a, b, false);
  }

  // ---------------------------------------------------------------------
  // pathToModuleName
  // ---------------------------------------------------------------------

  /** Directories that name no module of their own. */
  const SkippedDirectories: seq<string> := ["controllers", "views", "channels", "live", "components"]

  /** File-name suffixes recognised by pathToModuleName, in the order tried. */
  const ModuleSuffixes: seq<string> := ["_controller", "_view", "_channel", "_component", "_live", "_html", "_json"]

  /** The first module word, from the segment after the root directory. */
  function AppWord(appName: string): string {
    if HasSuffix(appName, "_web") then ToPascalCase(appName[..|appName| - 4]) + "Web"
    else ToPascalCase(appName)
  }

  /** The intermediate module words: the Pascal form of every directory not
      in `skipped`, in order. */
  function DirectoryWords(dirs: seq<string>, skipped: seq<string>): (r: seq<string>)
    ensures |r| <= |dirs|
    decreases |dirs|
  {
    if |dirs| == 0 then []
    else
      var last := dirs[|dirs| - 1];
      DirectoryWords(dirs[..|dirs| - 1], skipped) + (if last in skipped then [] else [ToPascalCase(last)])
  }

  lemma DirectoryWordsSnoc(dirs: seq<string>, dir: string, skipped: seq<string>)
    ensures DirectoryWords(dirs + [dir], skipped)
         == DirectoryWords(dirs, skipped) + (if dir in skipped then [] else [ToPascalCase(dir)])
  {
    assert (dirs + [dir])[..|dirs|] == dirs;
  }

  /** The module words for path segments `c` whose root directory is at
      `root`. */
  function ModuleWords(c: seq<string>, root: nat): seq<string>
    requires root + 1 < |c|
  {
    var middle := if |c| > root + 2 then DirectoryWords(c[root + 2..|c| - 1], SkippedDirectories) else [];
    var file := if '.' in c[|c| - 1] then [ToPascalCase(Stem(c[|c| - 1]))] else [];
    [AppWord(c[root + 1])] + middle + file
  }

  lemma ModuleWordsParts(c: seq<string>, root: nat)
    requires root + 1 < |c|
    ensures ModuleWords(c, root)
         == [AppWord(c[root + 1])]
            + (if |c| > root + 2 then DirectoryWords(c[root + 2..|c| - 1], SkippedDirectories) else [])
            + (if '.' in c[|c| - 1] then [ToPascalCase(Stem(c[|c| - 1]))] else [])
  {
  }

  /** The module name pathToModuleName computes. */
  function ModuleNameOf(path: string): string {
    var c := Split(path, '/');
    match FirstRootIndex(c)
    case None => ""
    case Some(root) => if root + 1 >= |c| then "" else Join(ModuleWords(c, root), ".")
  }

  /** The suffix scan of pathToModuleName: the first of `suffixes` the name
      ends with, and the name without it. */
  method StripModuleSuffix(name: string, suffixes: seq<string>) returns (baseName: string, suffix: string)
    requires forall j :: 0 <= j < |suffixes| ==> |suffixes[j]| > 0 && suffixes[j][0] == '_'
    ensures suffix == "" ==> baseName == name && forall j :: 0 <= j < |suffixes| ==> !HasSuffix(name, suffixes[j])
    ensures suffix != "" ==> exists k :: 0 <= k < |suffixes| && suffix == suffixes[k]
                                && forall j :: 0 <= j < k ==> !HasSuffix(name, suffixes[j])
    ensures name == baseName + suffix
    ensures suffix == "" || suffix[0] == '_'
  {
    baseName, suffix := name, "";
    for k := 0 to |suffixes|
      invariant suffix == "" && baseName == name
      invariant forall j :: 0 <= j < k ==> !HasSuffix(name, suffixes[j])
    {
      if HasSuffix(name, suffixes[k]) {
        baseName := name[..|name| - |suffixes[k]|];
        suffix := suffixes[k];
        assert name == baseName + suffix;
        return;
      }
    }
  }

  /** Stripping a suffix that starts with '_' and gluing its Pascal form
      back onto the base's gives the Pascal form of the whole name: the
      suffix list of pathToModuleName never changes the last module word. */
  lemma SuffixGlueIsPascal(baseName: string, suffix: string)
    requires |suffix| > 0 && suffix[0] == '_'
    ensures ToPascalCase(baseName) + ToPascalCase(suffix[1..]) == ToPascalCase(baseName + suffix)
  {
    assert baseName + suffix == baseName + "_" + suffix[1..];
    PascalConcat(baseName, suffix[1..]);
  }

  /** The middle-segment loop of pathToModuleName: the Pascal form of
      every segment of `components[from..to]` outside `skipped` is appended
      to `parts`. */
  method AppendDirectoryWords(parts: seq<string>, components: seq<string>, from: nat, to: nat, skipped: seq<string>)
    returns (r: seq<string>)
    requires from <= to <= |components|
    ensures r == parts + DirectoryWords(components[from..to], skipped)
  {
    r := parts;
    var i := from;
    while i < to
      invariant from <= i <= to
      invariant r == parts + DirectoryWords(components[from..i], skipped)
    {
      assert components[from..i + 1] == components[from..i] + [components[i]];
      DirectoryWordsSnoc(components[from..i], components[i], skipped);
      if components[i] !in skipped {
        r := r + [ToPascalCase(components[i])];
      }
      i := i + 1;
    }
  }

  /** The file-name step of pathToModuleName: the stem's base goes in as a
      new word, and the Pascal form of a stripped suffix is glued onto it. */
  method AppendFileWord(parts: seq<string>, filename: string, suffixes: seq<string>) returns (r: seq<string>)
    requires forall j :: 0 <= j < |suffixes| ==> |suffixes[j]| > 0 && suffixes[j][0] == '_'
    ensures r == parts + [ToPascalCase(Stem(filename))]
  {
    var baseName, suffix := StripModuleSuffix(Split(filename, '.')[0], suffixes);
    r := parts + [ToPascalCase(baseName)];
    if suffix != "" {
      r := r[|r| - 1 := r[|r| - 1] + ToPascalCase(suffix[1..])];
      SuffixGlueIsPascal(baseName, suffix);
    }
  }

  method PathToModuleName(path: string) returns (moduleName: string)
    ensures moduleName == ModuleNameOf(path)
    ensures FirstRootIndex(Split(path, '/')).None? ==> moduleName == ""
  {
    var components := Split(path, '/');
    var rootIndex: nat;
    match FirstRootIndex(components) {
      case None => return "";
      case Some(r) => rootIndex := r;
    }
    if rootIndex + 1 >= |components| {
      return "";
    }
    var moduleParts := CollectModuleWords(components, rootIndex);
    moduleName := Join(moduleParts, ".");
  }

  /** The application word: a `_web` application is the Pascal-case name
      before the suffix followed by `Web`. */
  method ApplicationWord(appName: string) returns (word: string)
    ensures word == AppWord(appName)
  {
    if HasSuffix(appName, "_web") {
      word := ToPascalCase(appName[..|appName| - 4]) + "Web";
    } else {
      word := ToPascalCase(appName);
    }
  }

  /** The words pathToModuleName collects after the root directory. */
  method CollectModuleWords(components: seq<string>, rootIndex: nat) returns (moduleParts: seq<string>)
    requires rootIndex + 1 < |components|
    ensures moduleParts == ModuleWords(components, rootIndex)
  {
    var appWord := ApplicationWord(components[rootIndex + 1]);
    moduleParts := [appWord];
    ghost var middle: seq<string> := [];
    if |components| > rootIndex + 2 {
      middle := DirectoryWords(components[rootIndex + 2..|components| - 1], SkippedDirectories);
      moduleParts := AppendDirectoryWords(moduleParts, components, rootIndex + 2, |components| - 1, SkippedDirectories);
    }
    assert moduleParts == [appWord] + middle;

    var filename := components[|components| - 1];
    if '.' in filename {
      moduleParts := AppendFileWord(moduleParts, filename, ModuleSuffixes);
    }
    ModuleWordsParts(components, rootIndex);
  }

  // ---------------------------------------------------------------------
  // moduleNameToPath
  // ---------------------------------------------------------------------

  /** Module-name suffixes and the directory each one lives in, in the order
      tried. */
  const SuffixDirectories: seq<(string, string)> := [
    ("Controller", "controllers"),
    ("View", "views"),
    ("Channel", "channels"),
    ("Component", "components"),
    ("Live", "live"),
    ("HTML", "controllers"),
    ("JSON", "controllers")
  ]

  /** The first pattern whose suffix `word` ends with. */
  function FirstPattern(word: string, patterns: seq<(string, string)>): (r: Option<(string, string)>)
    ensures r.None? <==> forall j :: 0 <= j < |patterns| ==> !HasSuffix(word, patterns[j].0)
    ensures r.Some? ==> exists j :: 0 <= j < |patterns| && patterns[j] == r.value
                          && (forall i :: 0 <= i < j ==> !HasSuffix(word, patterns[i].0))
    ensures r.Some? ==> HasSuffix(word, r.value.0)
    decreases |patterns|
  {
    if |patterns| == 0 then None
    else if HasSuffix(word, patterns[0].0) then Some(patterns[0])
    else
      var r := FirstPattern(word, patterns[1..]);
      if r.Some? then
        ghost var j :| 0 <= j < |patterns| - 1 && patterns[1..][j] == r.value
                       && (forall i :: 0 <= i < j ==> !HasSuffix(word, patterns[1..][i].0));
        assert patterns[j + 1] == r.value;
        r
      else r
  }

  /** The directory segment for the first module word. */
  function AppDirectory(appWord: string): string {
    if HasSuffix(appWord, "Web") then ToSnakeCase(appWord[..|appWord| - 3]) + "_web"
    else ToSnakeCase(appWord)
  }

  function SnakeAll(words: seq<string>): (r: seq<string>)
    ensures |r| == |words|
    ensures forall i :: 0 <= i < |words| ==> r[i] == ToSnakeCase(words[i])
  {
    seq(|words|, i requires 0 <= i < |words| => ToSnakeCase(words[i]))
  }

  /** The directory segments for the module words: the root, the
      application, then every intermediate word in snake case. */
  function BaseDirectories(words: seq<string>, rootDir: string): (r: seq<string>)
    requires |words| >= 1
    ensures |r| >= 2 && r[0] == rootDir
  {
    [rootDir, AppDirectory(words[0])] + (if |words| > 2 then SnakeAll(words[1..|words| - 1]) else [])
  }

  /** The segments after the last module word is placed: its suffix's
      directory is inserted after the application when not yet present, and
      the file name is the snake-case base, the lower-cased suffix and the
      extension. */
  function LeafSegments(dirs: seq<string>, last: string, fileExtension: string): seq<string>
    requires |dirs| >= 2
  {
    LeafFor(dirs, last, fileExtension, FirstPattern(last, SuffixDirectories))
  }

  /** LeafSegments once the suffix pattern of `last` (if any) is known. */
  function LeafFor(dirs: seq<string>, last: string, fileExtension: string, pattern: Option<(string, string)>): seq<string>
    requires |dirs| >= 2
    requires pattern.Some? ==> |pattern.value.0| <= |last|
  {
    match pattern
    case None => dirs + [ToSnakeCase(last) + "." + fileExtension]
    case Some((suffix, dir)) =>
      var placed := if dir in dirs then dirs else dirs[..2] + [dir] + dirs[2..];
      placed + [ToSnakeCase(last[..|last| - |suffix|]) + "_" + Lower(suffix) + "." + fileExtension]
  }

  /** The path segments moduleNameToPath computes. */
  function ModulePathSegments(moduleName: string, rootDir: string, fileExtension: string): (r: seq<string>)
    ensures |r| >= 2 && r[0] == rootDir
  {
    WordSegments(Split(moduleName, '.'), rootDir, fileExtension)
  }

  /** The path segments for the module's words. */
  function WordSegments(words: seq<string>, rootDir: string, fileExtension: string): (r: seq<string>)
    requires |words| >= 1
    ensures |r| >= 2 && r[0] == rootDir
  {
    var dirs := BaseDirectories(words, rootDir);
    if |words| == 1 then dirs else LeafSegments(dirs, words[|words| - 1], fileExtension)
  }

  /** The path moduleNameToPath computes. */
  function ModulePathOf(moduleName: string, rootDir: string, fileExtension: string): string {
    Join(ModulePathSegments(moduleName, rootDir, fileExtension), "/")
  }

  lemma {:induction false} JoinStartsWithFirst(parts: seq<string>, sep: string)
    requires |parts| >= 1
    ensures HasPrefix(Join(parts, sep), parts[0])
    decreases |parts|
  {
    if |parts| > 1 {
      assert Join(parts, sep) == parts[0] + (sep + Join(parts[1..], sep));
    }
  }

  /** The suffix scan of moduleNameToPath: the first entry of
      SuffixDirectories the word ends with gives its directory and the
      file-name suffix. */
  method MatchSuffixPattern(word: string) returns (baseComponent: string, suffixDir: Option<string>, fileSuffix: string)
    ensures FirstPattern(word, SuffixDirectories).None? ==> baseComponent == word && suffixDir == None && fileSuffix == ""
    ensures FirstPattern(word, SuffixDirectories).Some? ==>
              var (suffix, dir) := FirstPattern(word, SuffixDirectories).value;
              word == baseComponent + suffix && suffixDir == Some(dir) && fileSuffix == "_" + Lower(suffix)
  {
    baseComponent, suffixDir, fileSuffix := word, None, "";
    for k := 0 to |SuffixDirectories|
      invariant baseComponent == word && suffixDir == None && fileSuffix == ""
      invariant forall j :: 0 <= j < k ==> !HasSuffix(word, SuffixDirectories[j].0)
    {
      var (suffix, directory) := SuffixDirectories[k];
      if HasSuffix(word, suffix) {
        baseComponent := word[..|word| - |suffix|];
        suffixDir := Some(directory);
        fileSuffix := "_" + Lower(suffix);
        assert word == baseComponent + suffix;
        return;
      }
    }
  }

  /** The intermediate-word loop of moduleNameToPath: every word goes in as
      a directory, in snake case. */
  method AppendSnakeWords(parts: seq<string>, words: seq<string>) returns (r: seq<string>)
    ensures r == parts + SnakeAll(words)
  {
    r := parts;
    for i := 0 to |words|
      invariant r == parts + SnakeAll(words[..i])
    {
      assert words[..i + 1] == words[..i] + [words[i]];
      r := r + [ToSnakeCase(words[i])];
    }
    assert words[..|words|] == words;
  }

  /** LeafSegments in terms of what the suffix scan returns. */
  lemma LeafSegmentsOfScan(dirs: seq<string>, last: string, fileExtension: string,
                           baseComponent: string, suffixDir: Option<string>, fileSuffix: string)
    requires |dirs| >= 2
    requires FirstPattern(last, SuffixDirectories).None? ==> baseComponent == last && suffixDir == None && fileSuffix == ""
    requires FirstPattern(last, SuffixDirectories).Some? ==>
               var (suffix, dir) := FirstPattern(last, SuffixDirectories).value;
               last == baseComponent + suffix && suffixDir == Some(dir) && fileSuffix == "_" + Lower(suffix)
    ensures LeafSegments(dirs, last, fileExtension)
         == (if suffixDir.Some? && suffixDir.value !in dirs then dirs[..2] + [suffixDir.value] + dirs[2..] else dirs)
            + [ToSnakeCase(baseComponent) + fileSuffix + "." + fileExtension]
  {
    var pattern := FirstPattern(last, SuffixDirectories);
    if pattern.Some? {
      var (suffix, dir) := pattern.value;
      LeafForMatched(dirs, last, fileExtension, suffix, dir, baseComponent);
    } else {
      assert ToSnakeCase(baseComponent) + fileSuffix == ToSnakeCase(last);
    }
  }

  lemma LeafForMatched(dirs: seq<string>, last: string, fileExtension: string,
                       suffix: string, dir: string, baseComponent: string)
    requires |dirs| >= 2
    requires last == baseComponent + suffix
    ensures LeafFor(dirs, last, fileExtension, Some((suffix, dir)))
         == (if dir !in dirs then dirs[..2] + [dir] + dirs[2..] else dirs)
            + [ToSnakeCase(baseComponent) + ("_" + Lower(suffix)) + "." + fileExtension]
  {
    var stem := ToSnakeCase(baseComponent);
    assert baseComponent == last[..|last| - |suffix|];
    assert stem + ("_" + Lower(suffix)) == stem + "_" + Lower(suffix);
  }

  /** The leaf step of moduleNameToPath: the suffix's directory is inserted
      after the application when missing, then the file name is appended. */
  method PlaceLeaf(dirs: seq<string>, lastComponent: string, fileExtension: string) returns (r: seq<string>)
    requires |dirs| >= 2
    ensures r == LeafSegments(dirs, lastComponent, fileExtension)
  {
    r := dirs;
    var baseComponent, suffixDir, fileSuffix := MatchSuffixPattern(lastComponent);
    if suffixDir.Some? && suffixDir.value !in r {
      r := r[..2] + [suffixDir.value] + r[2..];
    }
    var filename := ToSnakeCase(baseComponent) + fileSuffix + "." + fileExtension;
    r := r + [filename];
    LeafSegmentsOfScan(dirs, lastComponent, fileExtension, baseComponent, suffixDir, fileSuffix);
  }

  method ModuleNameToPath(moduleName: string, rootDir: string, fileExtension: string) returns (path: string)
    ensures path == ModulePathOf(moduleName, rootDir, fileExtension)
  {
    var moduleComponents := Split(moduleName, '.');
    var pathComponents: seq<string> := [rootDir];

    if HasSuffix(moduleComponents[0], "Web") {
      var appName := moduleComponents[0][..|moduleComponents[0]| - 3];
      pathComponents := pathComponents + [ToSnakeCase(appName) + "_web"];
    } else {
      pathComponents := pathComponents + [ToSnakeCase(moduleComponents[0])];
    }
    assert pathComponents == [rootDir, AppDirectory(moduleComponents[0])];

    if |moduleComponents| > 2 {
      pathComponents := AppendSnakeWords(pathComponents, moduleComponents[1..|moduleComponents| - 1]);
    }
    assert pathComponents == BaseDirectories(moduleComponents, rootDir);

    if |moduleComponents| > 1 {
      pathComponents := PlaceLeaf(pathComponents, moduleComponents[|moduleComponents| - 1], fileExtension);
    }
    path := Join(pathComponents, "/");
  }

  /** Every path moduleNameToPath builds starts with the root directory. */
  lemma ModulePathStartsWithRoot(moduleName: string, rootDir: string, fileExtension: string)
    ensures HasPrefix(ModulePathOf(moduleName, rootDir, fileExtension), rootDir)
  {
    JoinStartsWithFirst(ModulePathSegments(moduleName, rootDir, fileExtension), "/");
  }
}
