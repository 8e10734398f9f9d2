/** What the path transformer promises, proved about its specification
    functions in PathTransformer: the case conversions undo each other on
    snake_case names, and paths and module names map back and forth for the
    usual Phoenix layouts. */
module TransformerProperties {
  import opened Wrappers
  import opened Text
  import opened PathTransformer

  // ---------------------------------------------------------------------
  // snake_case names as words
  // ---------------------------------------------------------------------

  /** A word of a snake_case name: two or more lower-case ASCII letters (a
      one-letter word would lose its '_' on the way back: `a_b` gives `AB`,
      which gives `ab`). */
  predicate LowerWord(w: string) {
    |w| >= 2 && forall k :: 0 <= k < |w| ==> IsLower(w[k])
  }

  predicate LowerWords(ws: seq<string>) {
    |ws| > 0 && forall i :: 0 <= i < |ws| ==> LowerWord(ws[i])
  }

  /** The snake_case name of the words. */
  function Snake(ws: seq<string>): string {
    Join(ws, "_")
  }

  /** The PascalCase name of the words. */
  function Capitals(ws: seq<string>): string {
    Join(CapitalizeAll(ws), "")
  }

  lemma SnakeCons(w: string, ws: seq<string>)
    requires |ws| > 0
    ensures Snake([w] + ws) == w + "_" + Snake(ws)
  {
    assert ([w] + ws)[1..] == ws;
  }

  lemma CapitalsCons(w: string, ws: seq<string>)
    ensures Capitals([w] + ws) == CapitalizeWord(w) + Capitals(ws)
  {
    assert CapitalizeAll([w] + ws) == [CapitalizeWord(w)] + CapitalizeAll(ws);
    JoinCons(CapitalizeWord(w), CapitalizeAll(ws));
  }

  lemma {:induction false} SnakeSnoc(ws: seq<string>, w: string)
    requires |ws| > 0
    ensures Snake(ws + [w]) == Snake(ws) + "_" + w
    decreases |ws|
  {
    if |ws| == 1 {
      var parts := ws + [w];
      assert parts[0] == ws[0] && parts[1..] == [w];
      assert Join(parts, "_") == parts[0] + "_" + Join(parts[1..], "_");
      assert Snake(ws) == ws[0];
    } else {
      assert ws + [w] == [ws[0]] + (ws[1..] + [w]);
      SnakeCons(ws[0], ws[1..] + [w]);
      SnakeSnoc(ws[1..], w);
      assert ws == [ws[0]] + ws[1..];
      SnakeCons(ws[0], ws[1..]);
    }
  }

  lemma CapitalsSnoc(ws: seq<string>, w: string)
    ensures Capitals(ws + [w]) == Capitals(ws) + CapitalizeWord(w)
  {
    assert CapitalizeAll(ws + [w]) == CapitalizeAll(ws) + [CapitalizeWord(w)];
    ConcatAppend(CapitalizeAll(ws), [CapitalizeWord(w)]);
  }

  lemma LowerWordsTail(ws: seq<string>)
    requires LowerWords(ws) && |ws| > 1
    ensures LowerWords(ws[1..]) && LowerWords(ws[..|ws| - 1])
  {
    assert forall i :: 0 <= i < |ws| - 1 ==> ws[1..][i] == ws[i + 1];
  }

  // ---------------------------------------------------------------------
  // toPascalCase and toSnakeCase undo each other on such names
  // ---------------------------------------------------------------------

  lemma {:induction false} PascalOfSnake(ws: seq<string>)
    requires LowerWords(ws)
    ensures ToPascalCase(Snake(ws)) == Capitals(ws)
    decreases |ws|
  {
    var w := ws[0];
    assert '_' !in w by {
      assert forall k :: 0 <= k < |w| ==> IsLower(w[k]);
    }
    PascalOfWord(w);
    if |ws| == 1 {
      assert Capitals(ws) == CapitalizeWord(w);
    } else {
      LowerWordsTail(ws);
      assert ws == [w] + ws[1..];
      SnakeCons(w, ws[1..]);
      PascalConcat(w, Snake(ws[1..]));
      PascalOfSnake(ws[1..]);
      CapitalsCons(w, ws[1..]);
    }
  }

  /** A capitalised word: its first letter upper case, the others the
      word's own lower-case letters. */
  lemma CapitalizedWord(w: string)
    requires LowerWord(w)
    ensures |CapitalizeWord(w)| == |w| && IsUpper(CapitalizeWord(w)[0])
    ensures forall k :: 1 <= k < |w| ==> CapitalizeWord(w)[k] == w[k] && IsLower(w[k])
    ensures Lower(CapitalizeWord(w)) == w
    ensures MarkBoundaries(CapitalizeWord(w)) == CapitalizeWord(w)
  {
    var c := CapitalizeWord(w);
    assert IsLower(w[0]);
    LowerOfNoUpper(w[1..]);
    assert Lower(c) == [LowerChar(UpperChar(w[0]))] + Lower(w[1..]);
    assert w == [w[0]] + w[1..];
    forall i ensures !HumpAt(c, i) {
      if 0 <= i && i + 1 < |c| {
        assert c[i + 1] == w[i + 1];
      }
    }
    NoHumpNoBoundaries(c);
  }

  lemma CapitalsStart(ws: seq<string>)
    requires LowerWords(ws)
    ensures |Capitals(ws)| > 0 && IsUpper(Capitals(ws)[0])
  {
    assert ws == [ws[0]] + ws[1..];
    CapitalsCons(ws[0], ws[1..]);
    CapitalizedWord(ws[0]);
  }

  /** Between a word ending in a lower-case letter and one starting with an
      upper-case letter, toSnakeCase marks the seam. */
  lemma SeamMarked(c: string, b: string)
    requires |c| > 0 && |b| > 0 && MarkBoundaries(c) == c
    requires IsLower(c[|c| - 1]) && IsUpper(b[0])
    ensures Lower(MarkBoundaries(c + b)) == Lower(c) + "_" + Lower(MarkBoundaries(b))
  {
    MarkBoundariesAppend(c, b);
    LowerAppend(c + "_", MarkBoundaries(b));
    LowerAppend(c, "_");
  }

  lemma {:induction false} SnakeOfCapitalsMarks(ws: seq<string>)
    requires LowerWords(ws)
    ensures Lower(MarkBoundaries(Capitals(ws))) == Snake(ws)
    decreases |ws|
  {
    var w := ws[0];
    var c := CapitalizeWord(w);
    CapitalizedWord(w);
    if |ws| == 1 {
      assert Capitals(ws) == c;
    } else {
      var rest := ws[1..];
      LowerWordsTail(ws);
      assert ws == [w] + rest;
      CapitalsCons(w, rest);
      CapitalsStart(rest);
      assert c[|c| - 1] == w[|w| - 1];
      SeamMarked(c, Capitals(rest));
      SnakeOfCapitalsMarks(rest);
      SnakeCons(w, rest);
    }
  }

  /** toSnakeCase undoes toPascalCase on a snake_case name. */
  lemma SnakeOfCapitals(ws: seq<string>)
    requires LowerWords(ws)
    ensures ToSnakeCase(Capitals(ws)) == Snake(ws)
  {
    ToSnakeCaseMarksHumps(Capitals(ws));
    SnakeOfCapitalsMarks(ws);
  }

  // ---------------------------------------------------------------------
  // The application segment
  // ---------------------------------------------------------------------

  lemma WebWord()
    ensures CapitalizeWord("web") == "Web" && LowerWord("web")
  {
    assert UpperChar('w') == 'W';
  }

  lemma CapitalsEnd(ws: seq<string>)
    requires LowerWords(ws)
    ensures |Capitals(ws)| >= 2 && IsLower(Capitals(ws)[|Capitals(ws)| - 1])
  {
    var w := ws[|ws| - 1];
    assert ws == ws[..|ws| - 1] + [w];
    CapitalsSnoc(ws[..|ws| - 1], w);
    CapitalizedWord(w);
  }

  /** The snake name ends in `_web` only when its last word is `web`. */
  lemma SnakeEndsWeb(ws: seq<string>)
    requires LowerWords(ws)
    ensures HasSuffix(Snake(ws), "_web") ==> |ws| > 1 && ws[|ws| - 1] == "web"
  {
    var w := ws[|ws| - 1];
    var s := Snake(ws);
    assert IsLower(w[0]) && IsLower(w[|w| - 1]);
    if |ws| == 1 {
      assert s == w;
      if |w| >= 4 {
        assert s[|s| - 4] == w[|w| - 4] && IsLower(w[|w| - 4]);
      }
    } else {
      var init := ws[..|ws| - 1];
      assert ws == init + [w];
      SnakeSnoc(init, w);
      if |w| >= 4 {
        assert s[|s| - 4] == w[|w| - 4] && IsLower(w[|w| - 4]);
      } else if |w| == 3 {
        assert s[|s| - 4..] == "_" + w;
        assert ("_" + w)[1..] == w && "_web"[1..] == "web";
      } else {
        assert s[|s| - 3] == '_';
      }
    }
  }

  /** A suffix no longer than the second part is the second part's. */
  lemma SuffixWithin(a: string, b: string, p: string)
    requires |p| <= |b|
    ensures HasSuffix(a + b, p) <==> HasSuffix(b, p)
  {
    assert (a + b)[|a + b| - |p|..] == b[|b| - |p|..];
  }

  lemma CapitalizedWeb(w: string)
    requires LowerWord(w)
    ensures HasSuffix(CapitalizeWord(w), "Web") ==> w == "web"
  {
    var c := CapitalizeWord(w);
    CapitalizedWord(w);
    if |w| >= 4 {
      assert c[|c| - 3] == w[|w| - 3] && IsLower(w[|w| - 3]);
    } else if |w| == 3 {
      assert c[0] == UpperChar(w[0]) && IsLower(w[0]);
      assert HasSuffix(c, "Web") ==> c == "Web";
      assert c == "Web" ==> w[0] == 'w' && w[1] == 'e' && w[2] == 'b';
    }
  }

  /** The Pascal name ends in `Web` only when its last word is `web`. */
  lemma CapitalsEndsWeb(ws: seq<string>)
    requires LowerWords(ws)
    ensures HasSuffix(Capitals(ws), "Web") ==> ws[|ws| - 1] == "web"
  {
    var w := ws[|ws| - 1];
    var init := ws[..|ws| - 1];
    var c := CapitalizeWord(w);
    assert ws == init + [w];
    CapitalsSnoc(init, w);
    CapitalizedWord(w);
    if |w| >= 3 {
      SuffixWithin(Capitals(init), c, "Web");
      CapitalizedWeb(w);
    } else if |init| > 0 {
      LowerWordsTail(ws);
      CapitalsEnd(init);
      var s := Capitals(ws);
      assert s[|s| - 3] == Capitals(init)[|Capitals(init)| - 1];
    }
  }

  /** pathToModuleName's first word: the application segment in Pascal
      case, `_web` becoming `Web`. */
  lemma AppWordOfSnake(ws: seq<string>)
    requires LowerWords(ws)
    ensures AppWord(Snake(ws)) == Capitals(ws)
  {
    SnakeEndsWeb(ws);
    if HasSuffix(Snake(ws), "_web") {
      var init := ws[..|ws| - 1];
      assert ws == init + ["web"];
      LowerWordsTail(ws);
      SnakeSnoc(init, "web");
      assert Snake(ws)[..|Snake(ws)| - 4] == Snake(init);
      PascalOfSnake(init);
      CapitalsSnoc(init, "web");
      WebWord();
    } else {
      PascalOfSnake(ws);
    }
  }

  /** moduleNameToPath's first segment: the application word in snake case,
      `Web` becoming `_web`. The one name it cannot give back is `web`
      itself, whose Pascal form `Web` becomes `_web`. */
  lemma AppDirectoryOfCapitals(ws: seq<string>)
    requires LowerWords(ws) && ws != ["web"]
    ensures AppDirectory(Capitals(ws)) == Snake(ws)
  {
    CapitalsEndsWeb(ws);
    if |ws| == 1 {
      assert ws == [ws[0]];
    }
    if HasSuffix(Capitals(ws), "Web") && |ws| > 1 {
      var init := ws[..|ws| - 1];
      assert ws == init + ["web"];
      LowerWordsTail(ws);
      CapitalsSnoc(init, "web");
      WebWord();
      assert Capitals(ws)[..|Capitals(ws)| - 3] == Capitals(init);
      SnakeOfCapitals(init);
      SnakeSnoc(init, "web");
    } else {
      SnakeOfCapitals(ws);
    }
  }

  // ---------------------------------------------------------------------
  // Paths and module names
  // ---------------------------------------------------------------------

  /** Neither form of a name contains a path or module separator. */
  lemma NameHasNoSeparators(ws: seq<string>)
    requires LowerWords(ws)
    ensures '/' !in Snake(ws) && '.' !in Snake(ws)
    ensures '/' !in Capitals(ws) && '.' !in Capitals(ws)
  {
    forall i | 0 <= i < |ws| ensures '/' !in ws[i] && '.' !in ws[i] {
      assert forall k :: 0 <= k < |ws[i]| ==> IsLower(ws[i][k]);
    }
    JoinExcludes(ws, "_", '/');
    JoinExcludes(ws, "_", '.');
    var caps := CapitalizeAll(ws);
    forall i | 0 <= i < |caps| ensures '/' !in caps[i] && '.' !in caps[i] {
      CapitalizedWord(ws[i]);
      assert forall k :: 0 <= k < |caps[i]| ==> IsUpper(caps[i][k]) || IsLower(caps[i][k]) by {
        forall k | 0 <= k < |caps[i]| ensures IsUpper(caps[i][k]) || IsLower(caps[i][k]) {
          if k > 0 {
            assert caps[i][k] == ws[i][k];
          }
        }
      }
    }
    JoinExcludes(caps, "", '/');
    JoinExcludes(caps, "", '.');
  }

  /** pathToModuleName on a path under `lib`: its module words joined by
      dots. */
  lemma ModuleNameOfLibPath(c: seq<string>)
    requires |c| >= 3 && c[0] == "lib"
    requires forall i :: 0 <= i < |c| ==> '/' !in c[i]
    ensures ModuleNameOf(Join(c, "/")) == Join(ModuleWords(c, 0), ".")
  {
    SplitJoin(c, '/');
  }

  /** moduleNameToPath on dot-joined words. */
  lemma ModulePathOfWords(words: seq<string>, rootDir: string, fileExtension: string)
    requires |words| >= 1
    requires forall i :: 0 <= i < |words| ==> '.' !in words[i]
    ensures ModulePathOf(Join(words, "."), rootDir, fileExtension) == Join(WordSegments(words, rootDir, fileExtension), "/")
  {
    SplitJoin(words, '.');
  }

  /** The module word of a file `<name>.<ext>`. */
  lemma FileWord(ws: seq<string>, ext: string)
    requires LowerWords(ws)
    ensures ToPascalCase(Stem(Snake(ws) + "." + ext)) == Capitals(ws)
  {
    NameHasNoSeparators(ws);
    StemOfDotted(Snake(ws), ext);
    PascalOfSnake(ws);
  }

  /** `lib/<app>/<name>.ex` and `<App>.<Name>` map to each other when the
      name has none of the recognised suffixes (`MyApp.User`). */
  lemma ModelModuleName(app: seq<string>, name: seq<string>)
    requires LowerWords(app) && LowerWords(name)
    ensures ModuleNameOf(Join(["lib", Snake(app), Snake(name) + ".ex"], "/")) == Join([Capitals(app), Capitals(name)], ".")
  {
    var c := ["lib", Snake(app), Snake(name) + ".ex"];
    NameHasNoSeparators(app);
    NameHasNoSeparators(name);
    assert '/' !in Snake(name) + ".ex";
    ModuleNameOfLibPath(c);
    AppWordOfSnake(app);
    assert Snake(name) + ".ex" == Snake(name) + "." + "ex";
    FileWord(name, "ex");
    assert '.' in c[2] by { assert c[2][|Snake(name)|] == '.'; }
    assert ModuleWords(c, 0) == [Capitals(app), Capitals(name)];
  }

  lemma ModulePathOfTwoWords(a: string, b: string, rootDir: string, fileExtension: string)
    requires '.' !in a && '.' !in b
    ensures ModulePathOf(Join([a, b], "."), rootDir, fileExtension) == Join(WordSegments([a, b], rootDir, fileExtension), "/")
  {
    ModulePathOfWords([a, b], rootDir, fileExtension);
  }

  /** Two module words whose last word carries no suffix: the application
      directory and the snake-case file. */
  lemma PlainWordSegments(words: seq<string>, rootDir: string, fileExtension: string)
    requires |words| == 2 && FirstPattern(words[1], SuffixDirectories).None?
    ensures WordSegments(words, rootDir, fileExtension) == [rootDir, AppDirectory(words[0]), ToSnakeCase(words[1]) + "." + fileExtension]
  {
  }

  lemma ModelModulePath(app: seq<string>, name: seq<string>)
    requires LowerWords(app) && LowerWords(name) && app != ["web"]
    requires FirstPattern(Capitals(name), SuffixDirectories).None?
    ensures ModulePathOf(Join([Capitals(app), Capitals(name)], "."), "lib", "ex") == Join(["lib", Snake(app), Snake(name) + ".ex"], "/")
  {
    var words := [Capitals(app), Capitals(name)];
    NameHasNoSeparators(app);
    NameHasNoSeparators(name);
    ModulePathOfTwoWords(Capitals(app), Capitals(name), "lib", "ex");
    PlainWordSegments(words, "lib", "ex");
    AppDirectoryOfCapitals(app);
    SnakeOfCapitals(name);
    assert Snake(name) + "." + "ex" == Snake(name) + ".ex";
  }

  // ---------------------------------------------------------------------
  // Nested modules
  // ---------------------------------------------------------------------

  /** The snake_case and PascalCase forms of each directory name. */
  function SnakeNames(dirs: seq<seq<string>>): (r: seq<string>)
    ensures |r| == |dirs|
  {
    seq(|dirs|, k requires 0 <= k < |dirs| => Snake(dirs[k]))
  }

  function CapitalNames(dirs: seq<seq<string>>): (r: seq<string>)
    ensures |r| == |dirs|
  {
    seq(|dirs|, k requires 0 <= k < |dirs| => Capitals(dirs[k]))
  }

  /** Directory names made of words, none spelling a directory that
      pathToModuleName skips. */
  predicate NestedDirectories(dirs: seq<seq<string>>) {
    forall k :: 0 <= k < |dirs| ==> LowerWords(dirs[k]) && Snake(dirs[k]) !in SkippedDirectories
  }

  /** Every intermediate directory gives its module word, in order. */
  lemma {:induction false} DirectoryWordsOfSnake(dirs: seq<seq<string>>)
    requires NestedDirectories(dirs)
    ensures DirectoryWords(SnakeNames(dirs), SkippedDirectories) == CapitalNames(dirs)
    decreases |dirs|
  {
    if |dirs| > 0 {
      var init, last := dirs[..|dirs| - 1], dirs[|dirs| - 1];
      assert SnakeNames(dirs) == SnakeNames(init) + [Snake(last)];
      assert CapitalNames(dirs) == CapitalNames(init) + [Capitals(last)];
      DirectoryWordsOfSnake(init);
      DirectoryWordsSnoc(SnakeNames(init), Snake(last), SkippedDirectories);
      PascalOfSnake(last);
    }
  }

  /** Every intermediate module word gives its directory back. */
  lemma SnakeAllOfCapitals(dirs: seq<seq<string>>)
    requires forall k :: 0 <= k < |dirs| ==> LowerWords(dirs[k])
    ensures SnakeAll(CapitalNames(dirs)) == SnakeNames(dirs)
  {
    forall k | 0 <= k < |dirs| ensures ToSnakeCase(Capitals(dirs[k])) == Snake(dirs[k]) {
      SnakeOfCapitals(dirs[k]);
    }
  }

  /** The segments `lib/<app>/<dir>/.../<name>.ex` and the module words
      `<App>.<Dir>. ... .<Name>`. */
  function NestedPath(app: seq<string>, dirs: seq<seq<string>>, name: seq<string>): seq<string> {
    ["lib", Snake(app)] + SnakeNames(dirs) + [Snake(name) + ".ex"]
  }

  function NestedModule(app: seq<string>, dirs: seq<seq<string>>, name: seq<string>): seq<string> {
    [Capitals(app)] + CapitalNames(dirs) + [Capitals(name)]
  }

  /** pathToModuleName on a nested path: one module word per directory. */
  lemma NestedModuleName(app: seq<string>, dirs: seq<seq<string>>, name: seq<string>)
    requires LowerWords(app) && LowerWords(name) && NestedDirectories(dirs)
    ensures ModuleNameOf(Join(NestedPath(app, dirs, name), "/")) == Join(NestedModule(app, dirs, name), ".")
  {
    var c := NestedPath(app, dirs, name);
    NameHasNoSeparators(app);
    NameHasNoSeparators(name);
    forall k | 0 <= k < |dirs| ensures '/' !in Snake(dirs[k]) {
      NameHasNoSeparators(dirs[k]);
    }
    assert '/' !in Snake(name) + ".ex";
    ModuleNameOfLibPath(c);
    AppWordOfSnake(app);
    assert Snake(name) + ".ex" == Snake(name) + "." + "ex";
    FileWord(name, "ex");
    assert '.' in c[|c| - 1] by { assert c[|c| - 1][|Snake(name)|] == '.'; }
    assert c[2..|c| - 1] == SnakeNames(dirs);
    DirectoryWordsOfSnake(dirs);
    assert ModuleWords(c, 0) == NestedModule(app, dirs, name);
  }

  /** moduleNameToPath on a nested module whose last word has no suffix:
      one directory per intermediate word. */
  lemma NestedModulePath(app: seq<string>, dirs: seq<seq<string>>, name: seq<string>)
    requires LowerWords(app) && LowerWords(name) && app != ["web"]
    requires forall k :: 0 <= k < |dirs| ==> LowerWords(dirs[k])
    requires FirstPattern(Capitals(name), SuffixDirectories).None?
    ensures ModulePathOf(Join(NestedModule(app, dirs, name), "."), "lib", "ex") == Join(NestedPath(app, dirs, name), "/")
  {
    var words := NestedModule(app, dirs, name);
    NameHasNoSeparators(app);
    NameHasNoSeparators(name);
    forall k | 0 <= k < |dirs| ensures '.' !in Capitals(dirs[k]) {
      NameHasNoSeparators(dirs[k]);
    }
    ModulePathOfWords(words, "lib", "ex");
    AppDirectoryOfCapitals(app);
    SnakeOfCapitals(name);
    assert words[1..|words| - 1] == CapitalNames(dirs);
    SnakeAllOfCapitals(dirs);
    var base := BaseDirectories(words, "lib");
    assert base == ["lib", Snake(app)] + SnakeNames(dirs);
    assert WordSegments(words, "lib", "ex") == base + [Snake(name) + "." + "ex"];
    assert Snake(name) + "." + "ex" == Snake(name) + ".ex";
  }

  /** `lib/my_app/accounts/user.ex` and `MyApp.Accounts.User` map to each
      other: the round trip for any depth of nesting. */
  lemma NestedRoundTrip(app: seq<string>, dirs: seq<seq<string>>, name: seq<string>)
    requires LowerWords(app) && LowerWords(name) && app != ["web"] && NestedDirectories(dirs)
    requires FirstPattern(Capitals(name), SuffixDirectories).None?
    ensures ModuleNameOf(Join(NestedPath(app, dirs, name), "/")) == Join(NestedModule(app, dirs, name), ".")
    ensures ModulePathOf(Join(NestedModule(app, dirs, name), "."), "lib", "ex") == Join(NestedPath(app, dirs, name), "/")
  {
    NestedModuleName(app, dirs, name);
    NestedModulePath(app, dirs, name);
  }

  // ---------------------------------------------------------------------
  // Suffixed modules
  // ---------------------------------------------------------------------

  /** pathToModuleName skips a recognised directory between the application
      and the file (`lib/my_app_web/controllers/page_controller.ex`). */
  lemma ModelSkippedName(app: seq<string>, name: seq<string>, dir: string)
    requires LowerWords(app) && LowerWords(name)
    requires dir in SkippedDirectories && '/' !in dir
    ensures ModuleNameOf(Join(["lib", Snake(app), dir, Snake(name) + ".ex"], "/")) == Join([Capitals(app), Capitals(name)], ".")
  {
    var c := ["lib", Snake(app), dir, Snake(name) + ".ex"];
    NameHasNoSeparators(app);
    NameHasNoSeparators(name);
    assert '/' !in Snake(name) + ".ex";
    ModuleNameOfLibPath(c);
    AppWordOfSnake(app);
    assert Snake(name) + ".ex" == Snake(name) + "." + "ex";
    FileWord(name, "ex");
    assert '.' in c[3] by { assert c[3][|Snake(name)|] == '.'; }
    assert c[2..|c| - 1] == [dir];
    assert DirectoryWords([dir], SkippedDirectories) == [];
    assert ModuleWords(c, 0) == [Capitals(app), Capitals(name)];
  }

  /** No two module suffixes share their last letter. */
  lemma SuffixLastLetters(k: nat)
    requires k < |SuffixDirectories|
    ensures |SuffixDirectories[k].0| > 0
    ensures forall j :: 0 <= j < |SuffixDirectories| && j != k ==>
              |SuffixDirectories[j].0| > 0
              && SuffixDirectories[j].0[|SuffixDirectories[j].0| - 1] != SuffixDirectories[k].0[|SuffixDirectories[k].0| - 1]
  {
  }

  /** A word whose last letter differs from a suffix's does not end with it. */
  lemma LastLetterExcludes(w: string, p: string)
    requires |w| > 0 && |p| > 0 && w[|w| - 1] != p[|p| - 1]
    ensures !HasSuffix(w, p)
  {
  }

  /** A word ending in a module suffix selects that suffix's pattern. */
  lemma SuffixSelectsOwnPattern(base: string, k: nat)
    requires k < |SuffixDirectories|
    ensures FirstPattern(base + SuffixDirectories[k].0, SuffixDirectories) == Some(SuffixDirectories[k])
  {
    var w := base + SuffixDirectories[k].0;
    SuffixLastLetters(k);
    assert HasSuffix(w, SuffixDirectories[k].0);
    forall j | 0 <= j < |SuffixDirectories| && j != k ensures !HasSuffix(w, SuffixDirectories[j].0) {
      LastLetterExcludes(w, SuffixDirectories[j].0);
    }
  }

  /** Two module words whose last word carries a suffix: its directory comes
      after the application's, and the file name ends in the lower-cased
      suffix. */
  lemma SuffixedWordSegments(words: seq<string>, rootDir: string, fileExtension: string, base: string, suffix: string, dir: string)
    requires |words| == 2 && words[1] == base + suffix
    requires FirstPattern(words[1], SuffixDirectories) == Some((suffix, dir))
    requires dir != rootDir && dir != AppDirectory(words[0])
    ensures WordSegments(words, rootDir, fileExtension)
         == [rootDir, AppDirectory(words[0]), dir, ToSnakeCase(base) + ("_" + Lower(suffix)) + "." + fileExtension]
  {
    var dirs := BaseDirectories(words, rootDir);
    assert dirs == [rootDir, AppDirectory(words[0])];
    assert WordSegments(words, rootDir, fileExtension) == LeafFor(dirs, words[1], fileExtension, Some((suffix, dir)));
    assert dir !in dirs;
    LeafForMatched(dirs, words[1], fileExtension, suffix, dir, base);
    assert dirs[..2] + [dir] + dirs[2..] == [rootDir, AppDirectory(words[0]), dir];
  }

  /** Capitalising a lower-case word upper-cases its first letter only. */
  lemma CapitalizeLowerWord(w: string, cap: string)
    requires LowerWord(w) && |cap| == |w| && cap[0] == UpperChar(w[0])
    requires cap[1..] == w[1..]
    ensures CapitalizeWord(w) == cap
  {
    LowerOfNoUpper(w[1..]);
  }

  /** The facts about one suffix word that the round trip needs. */
  predicate SuffixWordFits(w: string, cap: string, dir: string) {
    LowerWord(w) && CapitalizeWord(w) == cap && '.' !in cap && dir in SkippedDirectories && |dir| > 3 && '/' !in dir
  }

  lemma SuffixWordFitsOf(w: string, cap: string, dir: string)
    requires forall i :: 0 <= i < |w| ==> IsLower(w[i])
    requires |w| == |cap| >= 2 && cap[0] == UpperChar(w[0]) && cap[1..] == w[1..]
    requires forall i :: 0 <= i < |cap| ==> cap[i] != '.'
    requires dir in SkippedDirectories && |dir| > 3
    requires forall i :: 0 <= i < |dir| ==> dir[i] != '/'
    ensures SuffixWordFits(w, cap, dir)
  {
    CapitalizeLowerWord(w, cap);
  }

  /** `lib/<app>/<dir>/<name>_<suffix>.ex` and `<App>.<Name><Suffix>` map
      to each other, for a suffix whose capitalised word is its pattern. */
  lemma SuffixedRoundTrip(app: seq<string>, name: seq<string>, w: string, k: nat)
    requires LowerWords(app) && LowerWords(name) && app != ["web"]
    requires k < |SuffixDirectories| && SuffixWordFits(w, SuffixDirectories[k].0, SuffixDirectories[k].1)
    requires Snake(app) != SuffixDirectories[k].1
    ensures ModulePathOf(Join([Capitals(app), Capitals(name) + SuffixDirectories[k].0], "."), "lib", "ex")
         == Join(["lib", Snake(app), SuffixDirectories[k].1, Snake(name) + "_" + w + ".ex"], "/")
    ensures ModuleNameOf(Join(["lib", Snake(app), SuffixDirectories[k].1, Snake(name) + "_" + w + ".ex"], "/"))
         == Join([Capitals(app), Capitals(name) + SuffixDirectories[k].0], ".")
  {
    var (cap, dir) := SuffixDirectories[k];
    CapitalizedWord(w);
    SuffixedModulePath(app, name, w, cap, dir, k);
    var whole := name + [w];
    assert LowerWords(whole);
    ModelSkippedName(app, whole, dir);
    SnakeSnoc(name, w);
    CapitalsSnoc(name, w);
    assert Snake(whole) + ".ex" == Snake(name) + "_" + w + ".ex";
  }

  lemma SuffixedModulePath(app: seq<string>, name: seq<string>, w: string, cap: string, dir: string, k: nat)
    requires LowerWords(app) && LowerWords(name) && app != ["web"]
    requires k < |SuffixDirectories| && SuffixDirectories[k] == (cap, dir)
    requires Lower(cap) == w && '.' !in cap && dir != "lib" && Snake(app) != dir
    ensures ModulePathOf(Join([Capitals(app), Capitals(name) + cap], "."), "lib", "ex")
         == Join(["lib", Snake(app), dir, Snake(name) + "_" + w + ".ex"], "/")
  {
    var words := [Capitals(app), Capitals(name) + cap];
    NameHasNoSeparators(app);
    NameHasNoSeparators(name);
    SuffixSelectsOwnPattern(Capitals(name), k);
    AppDirectoryOfCapitals(app);
    SnakeOfCapitals(name);
    NotInConcat(Capitals(name), cap, '.');
    ModulePathOfTwoWords(Capitals(app), Capitals(name) + cap, "lib", "ex");
    assert words[1] == Capitals(name) + cap && AppDirectory(words[0]) == Snake(app);
    SuffixedWordSegments(words, "lib", "ex", Capitals(name), cap, dir);
    SuffixedFileName(Snake(name), w);
  }

  lemma NotInConcat(a: string, b: string, ch: char)
    requires ch !in a && ch !in b
    ensures ch !in a + b
  {
  }

  lemma SuffixedFileName(stem: string, w: string)
    ensures stem + ("_" + w) + "." + "ex" == stem + "_" + w + ".ex"
  {
    assert "." + "ex" == ".ex";
  }

  /** `MyAppWeb.PageController` lives at
      `lib/my_app_web/controllers/page_controller.ex`, and back. */
  lemma ControllerRoundTrip(app: seq<string>, name: seq<string>)
    requires LowerWords(app) && LowerWords(name) && app != ["web"] && Snake(app) != "controllers"
    ensures ModulePathOf(Join([Capitals(app), Capitals(name) + "Controller"], "."), "lib", "ex")
         == Join(["lib", Snake(app), "controllers", Snake(name) + "_controller.ex"], "/")
    ensures ModuleNameOf(Join(["lib", Snake(app), "controllers", Snake(name) + "_controller.ex"], "/"))
         == Join([Capitals(app), Capitals(name) + "Controller"], ".")
  {
    SuffixWordFitsOf("controller", "Controller", "controllers");
    SuffixedRoundTrip(app, name, "controller", 0);
    ControllerFileName(Snake(name));
  }

  lemma ControllerFileName(stem: string)
    ensures stem + "_" + "controller" + ".ex" == stem + "_controller.ex"
  {
    assert "_" + "controller" + ".ex" == "_controller.ex";
  }

  /** `MyAppWeb.CounterLive` lives at `lib/my_app_web/live/counter_live.ex`,
      and back. */
  lemma LiveRoundTrip(app: seq<string>, name: seq<string>)
    requires LowerWords(app) && LowerWords(name) && app != ["web"] && Snake(app) != "live"
    ensures ModulePathOf(Join([Capitals(app), Capitals(name) + "Live"], "."), "lib", "ex")
         == Join(["lib", Snake(app), "live", Snake(name) + "_live.ex"], "/")
    ensures ModuleNameOf(Join(["lib", Snake(app), "live", Snake(name) + "_live.ex"], "/"))
         == Join([Capitals(app), Capitals(name) + "Live"], ".")
  {
    SuffixWordFitsOf("live", "Live", "live");
    SuffixedRoundTrip(app, name, "live", 4);
    LiveFileName(Snake(name));
  }

  lemma LiveFileName(stem: string)
    ensures stem + "_" + "live" + ".ex" == stem + "_live.ex"
  {
    assert "_" + "live" + ".ex" == "_live.ex";
  }

  /** `MyAppWeb.PageHTML` goes to `lib/my_app_web/controllers/page_html.ex`,
      which pathToModuleName reads back as `MyAppWeb.PageHtml`: the
      upper-case HTML suffix does not survive the round trip. */
  lemma HtmlNameNotRestored(app: seq<string>, name: seq<string>)
    requires LowerWords(app) && LowerWords(name) && app != ["web"] && Snake(app) != "controllers"
    ensures ModulePathOf(Join([Capitals(app), Capitals(name) + "HTML"], "."), "lib", "ex")
         == Join(["lib", Snake(app), "controllers", Snake(name) + "_" + "html" + ".ex"], "/")
    ensures ModuleNameOf(Join(["lib", Snake(app), "controllers", Snake(name) + "_" + "html" + ".ex"], "/"))
         == Join([Capitals(app), Capitals(name) + "Html"], ".")
    ensures Join([Capitals(app), Capitals(name) + "Html"], ".") != Join([Capitals(app), Capitals(name) + "HTML"], ".")
  {
    HtmlWord();
    SuffixedModulePath(app, name, "html", "HTML", "controllers", 5);
    var whole := name + ["html"];
    assert LowerWords(whole);
    ModelSkippedName(app, whole, "controllers");
    SnakeSnoc(name, "html");
    CapitalsSnoc(name, "html");
    assert Snake(whole) + ".ex" == Snake(name) + "_" + "html" + ".ex";
    HtmlSpelledDifferently(Capitals(app), Capitals(name));
  }

  lemma HtmlSpelledDifferently(app: string, name: string)
    ensures Join([app, name + "Html"], ".") != Join([app, name + "HTML"], ".")
  {
    JoinTwo(app, name + "Html", ".");
    JoinTwo(app, name + "HTML", ".");
    var s := app + "." + name;
    assert app + "." + (name + "Html") == s + "Html";
    assert app + "." + (name + "HTML") == s + "HTML";
    LastLettersDiffer(s, "Html", "HTML");
  }

  /** The facts about the words `html` and `HTML` the counterexample uses. */
  lemma HtmlWord()
    ensures LowerWord("html") && CapitalizeWord("html") == "Html"
    ensures Lower("HTML") == "html" && '.' !in "HTML" && SuffixDirectories[5] == ("HTML", "controllers")
    ensures "controllers" in SkippedDirectories && '/' !in "controllers" && "controllers" != "lib"
  {
    assert forall i :: 0 <= i < |"html"| ==> IsLower("html"[i]);
    CapitalizeLowerWord("html", "Html");
    assert forall i :: 0 <= i < |"HTML"| ==> "HTML"[i] != '.';
    assert forall i :: 0 <= i < |"controllers"| ==> "controllers"[i] != '/';
    assert |"controllers"| != |"lib"|;
  }

  lemma JoinTwo(a: string, b: string, sep: string)
    ensures Join([a, b], sep) == a + sep + b
  {
    assert [a, b][1..] == [b];
  }

  lemma LastLettersDiffer(s: string, t: string, u: string)
    requires |t| == |u| >= 3 && t[|t| - 3] != u[|u| - 3]
    ensures s + t != s + u
  {
    assert (s + t)[|s| + |t| - 3] == t[|t| - 3];
  }
}
