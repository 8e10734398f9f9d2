# Fawkes core, modelled in Dafny

Fawkes is a command-line helper for Phoenix (Elixir) projects. From a
source file it finds the "alternate" file of another kind: the test of a
module, the controller of a view, the LiveView, component, channel, JSON
or HTML module next to it, a Mix task, a feature test. When that file does
not exist, Fawkes writes a stub for it. This project models its three core
parts:

- **AlternatePathConverter** (`alternate_path_converter.dfy`). This part
  takes a path and the kind requested and returns the path of the file of
  that kind, or `InvalidPath` when the last segment names no file. Each
  `convertTo…Path` rule is a method that edits a list of path segments in
  place: index assignment, insertion, removal. Each method is proved equal
  to a specification function built from shared steps:
  - enter the web module;
  - make sure a directory is present;
  - mark the file name with the kind's suffix.

  The properties of those functions are in `converter_properties.dfy`.
- **PathTransformer** (`path_transformer.dfy`). This part holds the case
  conversions `toSnakeCase`, `toCamelCase`, `toPascalCase` and
  `toElixirModule`. It also maps a path to its Elixir module name
  (`pathToModuleName`) and a module name back to a path
  (`moduleNameToPath`). The loops are methods proved equal to
  specification functions. `transformer_properties.dfy` proves the round
  trips on snake_case names.
- **TemplateGenerator** (`template_generator.dfy`). This part builds the
  stub text for each kind from the application and module names. It
  reads those names off the path (`extractModuleInfo`), and the
  `Configuration` switches the `use` line and the `@moduledoc` block on
  or off. `template_properties.dfy` proves:
  - which module each stub defines;
  - which blocks it contains, and when;
  - that the stubs depend only on the configuration flags that are read.

Supporting modules: `Wrappers` holds `Option` and `Result`. `Text` holds
the Foundation string operations the code relies on: `components(separatedBy:)`,
`joined(separator:)`, `hasPrefix`/`hasSuffix`, `contains`,
`replacingOccurrences`, ASCII `lowercased`/`uppercased`.

A Swift `String` is a `seq<char>`, and a path is the `seq<string>` of its
`/`-separated segments. Foundation's `capitalized` is locale-dependent,
so it is a parameter `capitalize: string -> string` of the template
functions. Nothing is assumed about it.

## Model

| member | source | states |
|---|---|---|
| AlternatePathConverter.ConvertPath | Sources/FawkesLib/AlternatePathConverter.swift:37-96 | the method's result is `ConversionOf(inputPath, altType)`: a leading `./` is dropped, the path is split on `/`, `InvalidPath(inputPath)` is returned when the last segment has no `.`, otherwise the converted segments are joined and `./` is put back, with the requested kind and the original path recorded |
| AlternatePathConverter.ConvertComponents | Sources/FawkesLib/AlternatePathConverter.swift:52-92 | the switch over the requested kind gives `ConvertedComponents`; the `.test` kind goes to the test when a `lib` segment is present, otherwise back from `test`, otherwise leaves the path unchanged |
| AlternatePathConverter.ConvertToTestPath | Sources/FawkesLib/AlternatePathConverter.swift:99-136 | the first `lib` segment becomes `test` and the file `<stem>_test.exs` unless its stem already ends in `_test` (`TestPath`) |
| AlternatePathConverter.ConvertFromTestPath | Sources/FawkesLib/AlternatePathConverter.swift:138-171 | the first `test` segment becomes `lib`, `_test.` becomes `.` and `.exs` becomes `.ex` in the file name (`FromTestPath`) |
| AlternatePathConverter.ConvertToControllerPath | Sources/FawkesLib/AlternatePathConverter.swift:173-216 | the application segment is renamed `<app>_web` when it is not a web module, `controllers` is inserted after it when missing, and the file gets `_controller` (`ControllerPath`) |
| AlternatePathConverter.MarkLastFile | Sources/FawkesLib/AlternatePathConverter.swift:202-211 | only the last segment changes; its stem loses the listed markers and gains the kind's marker unless it already ends with it, the extension kept |
| AlternatePathConverter.ConvertToModelPath | Sources/FawkesLib/AlternatePathConverter.swift:218-253 | a `<app>_web` segment becomes `<app>`, the first `controllers` is removed, and `_controller.` becomes `.` in the file name (`ModelPath`); ModelOfController and ModelUndoesController state what this does to a controller path |
| AlternatePathConverter.RenameModelFile | Sources/FawkesLib/AlternatePathConverter.swift:240-249 | only the file name changes, losing `_controller` before its extension |
| AlternatePathConverter.EnterWeb | Sources/FawkesLib/AlternatePathConverter.swift:263-270 | a `<app>_web` segment is inserted after the application segment unless that segment already ends in `_web`; the result always has a web module |
| AlternatePathConverter.ConvertToViewPath | Sources/FawkesLib/AlternatePathConverter.swift:255-300 | enter the web module, rename `controllers` to `views` or insert `views` after the web module, file `<stem>_view` with `_controller` removed (`ViewPath`) |
| AlternatePathConverter.ConvertToHtmlPath | Sources/FawkesLib/AlternatePathConverter.swift:302-371 | the three HTML layouts: beside a controller, replacing `views`, or under `templates` (`HtmlPath`); HtmlOfController and HtmlOfView state the resulting paths |
| AlternatePathConverter.HtmlBesideController | Sources/FawkesLib/AlternatePathConverter.swift:323-340 | the method's result is `HtmlFromController`: when the last segment contains `_controller.`, it is removed, `<name>_html` is inserted right after the first `controllers`, and `index.html.heex` is appended; otherwise the path is unchanged (HtmlOfController states the full path) |
| AlternatePathConverter.HtmlReplacingView | Sources/FawkesLib/AlternatePathConverter.swift:342-355 | `views` becomes `templates` and the view file becomes a `.html.heex` template with `_view.ex` dropped |
| AlternatePathConverter.HtmlUnderTemplates | Sources/FawkesLib/AlternatePathConverter.swift:356-364 | `templates` is inserted after the web module and `.ex` becomes `.html.heex` |
| AlternatePathConverter.ConvertToLivePath | Sources/FawkesLib/AlternatePathConverter.swift:373-422 | enter the web module, make `live` present (renaming `views`, then `controllers`, or inserting), file `<stem>_live` with `_controller` and `_view` removed (`LivePath`) |
| AlternatePathConverter.ConvertToComponentPath | Sources/FawkesLib/AlternatePathConverter.swift:424-472 | enter the web module, make `components` present (renaming `controllers`, then `views`, or inserting), file stem with every role marker removed (`ComponentPath`) |
| AlternatePathConverter.StripLastFile | Sources/FawkesLib/AlternatePathConverter.swift:455-469 | only the last segment changes: `_controller`, `_view` and `_component` are removed from its stem and no marker is added |
| AlternatePathConverter.ConvertToLiveComponentPath | Sources/FawkesLib/AlternatePathConverter.swift:474-525 | enter the web module, make `live` present (renaming `views`, `controllers`, `components` in that order, or inserting), file `<stem>_component` (`LiveComponentPath`) |
| AlternatePathConverter.ConvertToChannelPath | Sources/FawkesLib/AlternatePathConverter.swift:527-579 | enter the web module, make `channels` present (renaming `controllers`, `views`, `live` in that order, or inserting), file `<stem>_channel` (`ChannelPath`) |
| AlternatePathConverter.ConvertToJsonPath | Sources/FawkesLib/AlternatePathConverter.swift:581-624 | enter the web module, insert `controllers` after it when missing, file `<stem>_json` with `_controller` and `_html` removed (`JsonPath`) |
| AlternatePathConverter.ConvertToTaskPath | Sources/FawkesLib/AlternatePathConverter.swift:626-656 | `mix/tasks` is spliced in right after the first `lib` unless it already follows it; paths without `lib` are unchanged (`TaskPath`) |
| AlternatePathConverter.ConvertToFeaturePath | Sources/FawkesLib/AlternatePathConverter.swift:658-711 | `features` is spliced in after the first `test` unless it already follows it; outside `test` the first segment is overwritten by `test` and `features` inserted after it (`FeaturePath`). Under `test` the file becomes `<stem>_test.exs`, and a stem already ending in `_test` is kept with its extension. Outside `test` the file becomes `<stem>_test.exs`, or `<stem>.exs` when the stem already ends in `_test` |
| ConverterProperties.ConversionFailsWithoutFile | Sources/FawkesLib/AlternatePathConverter.swift:44-47 | conversion fails exactly when the last segment has no `.`, and the error is `InvalidPath` of the input |
| ConverterProperties.ConversionKeepsRequest | Sources/FawkesLib/AlternatePathConverter.swift:49-95 | a successful result records the requested kind and the input path, and keeps a leading `./` |
| ConverterProperties.ConversionOfPlainPath | Sources/FawkesLib/AlternatePathConverter.swift:37-96 | for a path without `./` that names a file, the result path is exactly the converted segments joined by `/` |
| ConverterProperties.ConversionCanGainDotSlash | Sources/FawkesLib/AlternatePathConverter.swift:218-253 | a path that does not start with `./` can convert to one that does: the model rule can leave `.` as the first segment |
| ConverterProperties.ModelDropsControllers | Sources/FawkesLib/AlternatePathConverter.swift:218-253 | for `app` and `f` without `_`, `controllers/./lib/<app>_web/<f>` becomes `./lib/<app>/<f>`: the first `controllers` is removed even when it comes before `lib`, which leaves `.` first |
| ConverterProperties.TestFileNameIsTest | Sources/FawkesLib/AlternatePathConverter.swift:121-133 | the test file's stem always ends in `_test`, and a file renamed to a test gets extension `exs` |
| ConverterProperties.TestOfSourceFile | Sources/FawkesLib/AlternatePathConverter.swift:121-133 | `<stem>.ex` becomes `<stem>_test.exs` |
| ConverterProperties.SourceOfTestFile | Sources/FawkesLib/AlternatePathConverter.swift:156-168 | `<stem>_test.exs` becomes `<stem>.ex` |
| ConverterProperties.TestPathRelocates | Sources/FawkesLib/AlternatePathConverter.swift:99-136 | the test path is the input with the first `lib` replaced by `test` and the file renamed as a test, nothing else changed |
| ConverterProperties.TestKindFromLib | Sources/FawkesLib/AlternatePathConverter.swift:52-58 | for `…/lib/…/<stem>.ex` the `.test` kind gives `…/test/…/<stem>_test.exs` |
| ConverterProperties.TestKindFromTest | Sources/FawkesLib/AlternatePathConverter.swift:52-58 | for `…/test/…/<stem>_test.exs` with no `lib` segment the `.test` kind gives `…/lib/…/<stem>.ex` |
| ConverterProperties.LibBecomesTest | Sources/FawkesLib/AlternatePathConverter.swift:99-171 | the test of a source under `lib` is a test under `test`, and moving it back restores the input |
| ConverterProperties.TestBecomesLib | Sources/FawkesLib/AlternatePathConverter.swift:99-171 | the source of a test under `test` is a source under `lib`, and moving it back restores the input |
| ConverterProperties.TestKindRoundTrip | Sources/FawkesLib/AlternatePathConverter.swift:52-58 | source → test → source is the identity for a `.ex` file under `lib` in a path with no `test` segment |
| ConverterProperties.TestKindRoundTripFromTest | Sources/FawkesLib/AlternatePathConverter.swift:52-58 | test → source → test is the identity for a `_test.exs` file under `test` with no `lib` segment |
| ConverterProperties.ControllerShape | Sources/FawkesLib/AlternatePathConverter.swift:173-216 | for any path with a segment after its first `lib`: after conversion the segment after `lib` ends in `_web`, `controllers` is present, and a file name with a `.` has a stem ending in `_controller` |
| ConverterProperties.ControllerFixed | Sources/FawkesLib/AlternatePathConverter.swift:173-216 | a path of that shape is left unchanged by the controller rule |
| ConverterProperties.ControllerIdempotent | Sources/FawkesLib/AlternatePathConverter.swift:173-216 | converting any path to a controller twice is the same as converting once |
| ConverterProperties.PlaceDirectoryRenames | Sources/FawkesLib/AlternatePathConverter.swift:393-396 | when the kind's directory is missing, the first candidate directory present, in the rule's order, is renamed to it |
| ConverterProperties.PlaceDirectoryInserts | Sources/FawkesLib/AlternatePathConverter.swift:397-401 | with no candidate present, the kind's directory is inserted right after the first `_web` segment |
| ConverterProperties.PlaceDirectoryHasTarget | Sources/FawkesLib/AlternatePathConverter.swift:390-402 | placing the directory always yields a path containing it |
| ConverterProperties.EnsureDirectoryHasTarget | Sources/FawkesLib/AlternatePathConverter.swift:390-402 | after the directory step the kind's directory is present, whether it was already there or not |
| ConverterProperties.TaskWithoutLib | Sources/FawkesLib/AlternatePathConverter.swift:626-656 | a path with no `lib` segment is returned unchanged by the task rule |
| ConverterProperties.TaskShape | Sources/FawkesLib/AlternatePathConverter.swift:626-656 | the prefix up to `lib` is kept, `mix/tasks` follows it, and the path keeps its length or grows by two |
| ConverterProperties.TaskIdempotent | Sources/FawkesLib/AlternatePathConverter.swift:626-656 | converting to a task twice is the same as converting once |
| ConverterProperties.FeatureUnderTest | Sources/FawkesLib/AlternatePathConverter.swift:662-690 | a path under `test` keeps its first `test` segment, and `features` follows it |
| ConverterProperties.FeatureOutsideTest | Sources/FawkesLib/AlternatePathConverter.swift:691-707 | a path outside `test` becomes `test/features/` followed by the input without its first segment, with the file renamed as a test |
| ConverterProperties.FeatureFileShape | Sources/FawkesLib/AlternatePathConverter.swift:679-707 | a feature file's stem always ends in `_test` |
| ConverterProperties.ViewStep | Sources/FawkesLib/AlternatePathConverter.swift:255-300 | outside the web module, with `views` present, the view rule inserts `<app>_web` and keeps the remaining directories |
| ConverterProperties.ViewTwiceNests | Sources/FawkesLib/AlternatePathConverter.swift:263-270 | the view rule is not idempotent: applied twice it inserts a second `<app>_web` segment |
| ConverterProperties.ViewTemplateName | Sources/FawkesLib/AlternatePathConverter.swift:348-352 | the template taken from `<stem>_view.ex` is named `<stem>`, with no extension |
| ConverterProperties.TemplateOfSource | Sources/FawkesLib/AlternatePathConverter.swift:360-364 | `<stem>.ex` becomes `<stem>.html.heex` |
| ConverterProperties.HtmlOfController | Sources/FawkesLib/AlternatePathConverter.swift:302-340 | `…/lib/<app>_web/controllers/<dirs>/<name>_controller.ex` becomes `…/lib/<app>_web/controllers/<name>_html/<dirs>/index.html.heex`, every other segment kept |
| ConverterProperties.HtmlOfView | Sources/FawkesLib/AlternatePathConverter.swift:302-355 | with no `controllers` segment, `…/lib/<app>_web/views/<dirs>/<stem>_view.ex` becomes `…/lib/<app>_web/templates/<dirs>/<stem>`, every other segment kept |
| ConverterProperties.ControllerOfSource | Sources/FawkesLib/AlternatePathConverter.swift:173-216 | a canonical source `…/lib/<app>/<dirs>/<stem>.<ext>` becomes `…/lib/<app>_web/controllers/<dirs>/<stem>_controller.<ext>` |
| ConverterProperties.ModelOfController | Sources/FawkesLib/AlternatePathConverter.swift:218-253 | `…/lib/<app>_web/controllers/<dirs>/<stem>_controller.<ext>` becomes `…/lib/<app>/<dirs>/<stem>.<ext>`, for an application name without `_web` |
| ConverterProperties.ModelUndoesController | Sources/FawkesLib/AlternatePathConverter.swift:173-253 | the model rule undoes the controller rule on a canonical source path |
| PathTransformer.ToSnakeCase | Sources/FawkesLib/PathTransformer.swift:9-24 | the result has no upper-case letter, and the empty string maps to itself |
| PathTransformer.HumpMatchesDoNotOverlap | Sources/FawkesLib/PathTransformer.swift:12-20 | the scanning regex replacement of `([a-z0-9])([A-Z])` with `$1_$2` equals inserting `_` at every lower-to-upper hump |
| PathTransformer.ToSnakeCaseMarksHumps | Sources/FawkesLib/PathTransformer.swift:9-24 | snake case is the lower-cased string with `_` at every hump |
| PathTransformer.ToSnakeCaseIdempotent | Sources/FawkesLib/PathTransformer.swift:9-24 | applying snake case twice is the same as once |
| PathTransformer.ToSnakeCaseAcronym | Sources/FawkesLib/PathTransformer.swift:9-24 | an acronym followed by a lower-case word gets no `_` (`HTMLView` becomes `htmlview`) |
| PathTransformer.PascalMatchesParts | Sources/FawkesLib/PathTransformer.swift:46-54 | the character scan equals splitting on `_`, capitalizing the first letter and lower-casing the rest of each part, and joining |
| PathTransformer.CamelMatchesParts | Sources/FawkesLib/PathTransformer.swift:29-41 | the same, with the first part fully lower-cased |
| PathTransformer.PascalHasNoUnderscore | Sources/FawkesLib/PathTransformer.swift:46-54 | a PascalCase result never contains `_` |
| PathTransformer.CamelHasNoUnderscore | Sources/FawkesLib/PathTransformer.swift:29-41 | a camelCase result never contains `_` |
| PathTransformer.PascalConcat | Sources/FawkesLib/PathTransformer.swift:46-54 | PascalCase of `a_b` is PascalCase of `a` followed by PascalCase of `b` |
| PathTransformer.CamelConcat | Sources/FawkesLib/PathTransformer.swift:29-41 | camelCase of `a_b` is camelCase of `a` followed by PascalCase of `b` |
| PathTransformer.PascalOfWord | Sources/FawkesLib/PathTransformer.swift:46-54 | a word without `_` is capitalized: first letter upper, the rest lower |
| PathTransformer.CamelOfWord | Sources/FawkesLib/PathTransformer.swift:29-41 | a word without `_` is lower-cased |
| PathTransformer.ToElixirModule | Sources/FawkesLib/PathTransformer.swift:59-61 | the Elixir module form is the PascalCase form |
| PathTransformer.PathToModuleName | Sources/FawkesLib/PathTransformer.swift:66-123 | the method's result is `ModuleNameOf(path)`, and it is empty when no `lib` or `test` segment is followed by another |
| PathTransformer.ApplicationWord | Sources/FawkesLib/PathTransformer.swift:79-84 | `<app>_web` gives PascalCase(`<app>`) + `Web`, any other name its PascalCase |
| PathTransformer.CollectModuleWords | Sources/FawkesLib/PathTransformer.swift:76-120 | the loop collects exactly `ModuleWords` |
| PathTransformer.AppendDirectoryWords | Sources/FawkesLib/PathTransformer.swift:87-93 | the loop appends the PascalCase of each directory between the application and the file, skipping `controllers`, `views`, `channels`, `live` and `components` |
| PathTransformer.StripModuleSuffix | Sources/FawkesLib/PathTransformer.swift:100-110 | the first listed suffix the stem ends with is split off (none matches when none is split off), and base plus suffix is the stem |
| PathTransformer.SuffixGlueIsPascal | Sources/FawkesLib/PathTransformer.swift:112-119 | appending the PascalCase suffix to the PascalCase base equals PascalCase of the whole stem |
| PathTransformer.AppendFileWord | Sources/FawkesLib/PathTransformer.swift:96-120 | the file step appends the PascalCase of the whole stem, whatever suffix is split off |
| PathTransformer.FirstPattern | Sources/FawkesLib/PathTransformer.swift:162-183 | `None` exactly when no pattern suffix matches; otherwise the earliest matching pattern, whose suffix the word ends with |
| PathTransformer.MatchSuffixPattern | Sources/FawkesLib/PathTransformer.swift:172-183 | with no match the word is kept, with no directory or file suffix; with a match the word is base plus suffix, the directory is the pattern's, and the file suffix is `_` plus the lower-cased suffix |
| PathTransformer.PlaceLeaf | Sources/FawkesLib/PathTransformer.swift:158-200 | the last part gives the leaf segments: the pattern's directory inserted at position 2 when missing, then `<snake base><file suffix>.<ext>` |
| PathTransformer.ModuleNameToPath | Sources/FawkesLib/PathTransformer.swift:131-203 | the method's result is `ModulePathOf(moduleName, rootDir, fileExtension)` |
| PathTransformer.ModulePathStartsWithRoot | Sources/FawkesLib/PathTransformer.swift:140 | every path built from a module name starts with the root directory |
| TransformerProperties.PascalOfSnake | Sources/FawkesLib/PathTransformer.swift:46-54 | PascalCase of a snake_case name of lower-case words is the words capitalized and concatenated |
| TransformerProperties.SnakeOfCapitals | Sources/FawkesLib/PathTransformer.swift:9-24 | snake case of capitalized words joined together gives back the snake_case name |
| TransformerProperties.AppWordOfSnake | Sources/FawkesLib/PathTransformer.swift:79-84 | the application word of a snake_case directory is its PascalCase, also for `<app>_web` |
| TransformerProperties.AppDirectoryOfCapitals | Sources/FawkesLib/PathTransformer.swift:143-148 | the application directory of a PascalCase word is its snake_case name, `Web` ending included, for any name other than `web` alone |
| TransformerProperties.ModelModuleName | Sources/FawkesLib/PathTransformer.swift:66-123 | `lib/<app>/<name>.ex` names the module `<App>.<Name>` |
| TransformerProperties.ModelSkippedName | Sources/FawkesLib/PathTransformer.swift:87-93 | a skipped directory between the application and the file does not appear in the module name |
| TransformerProperties.ModelModulePath | Sources/FawkesLib/PathTransformer.swift:131-203 | `<App>.<Name>` without a role suffix maps to `lib/<app>/<name>.ex` |
| TransformerProperties.DirectoryWordsOfSnake | Sources/FawkesLib/PathTransformer.swift:87-93 | snake_case directories outside the skipped list give their PascalCase words, one each, in order |
| TransformerProperties.NestedModuleName | Sources/FawkesLib/PathTransformer.swift:66-123 | `lib/<app>/<dir>/…/<name>.ex` names the module `<App>.<Dir>.….<Name>`, at any depth |
| TransformerProperties.NestedModulePath | Sources/FawkesLib/PathTransformer.swift:131-203 | `<App>.<Dir>.….<Name>` without a role suffix maps to `lib/<app>/<dir>/…/<name>.ex` |
| TransformerProperties.NestedRoundTrip | Sources/FawkesLib/PathTransformer.swift:66-203 | `lib/my_app/accounts/user.ex` ↔ `MyApp.Accounts.User` in both directions, for any number of directories |
| TransformerProperties.ModulePathOfWords | Sources/FawkesLib/PathTransformer.swift:136-202 | the path of a module name is the segments built from its `.`-separated words |
| TransformerProperties.SuffixSelectsOwnPattern | Sources/FawkesLib/PathTransformer.swift:162-183 | a word ending in one of the seven role suffixes selects exactly that suffix's pattern, since no two suffixes end in the same letter |
| TransformerProperties.SuffixedRoundTrip | Sources/FawkesLib/PathTransformer.swift:66-203 | for the role suffixes whose lower-case form is the directory's file suffix, `<App>.<Name><Suffix>` ↔ `lib/<app>/<dir>/<name>_<suffix>.ex` in both directions |
| TransformerProperties.ControllerRoundTrip | Sources/FawkesLib/PathTransformer.swift:66-203 | `<App>.<Name>Controller` ↔ `lib/<app>/controllers/<name>_controller.ex` in both directions |
| TransformerProperties.LiveRoundTrip | Sources/FawkesLib/PathTransformer.swift:66-203 | `<App>.<Name>Live` ↔ `lib/<app>/live/<name>_live.ex` in both directions |
| TransformerProperties.HtmlNameNotRestored | Sources/FawkesLib/PathTransformer.swift:100-119 | `<App>.<Name>HTML` maps to `…/controllers/<name>_html.ex`, which maps back to `<App>.<Name>Html`, a different name |
| TemplateGenerator.DropSuffixes | Sources/FawkesLib/TemplateGenerator.swift:89-93 | the suffix loop's result is `StripSuffixes`, a prefix of the name |
| TemplateGenerator.ExtractModuleInfo | Sources/FawkesLib/TemplateGenerator.swift:69-105 | the method's result is the pair `ModuleInfo(path, capitalize)` |
| TemplateGenerator.NamesAfterRoot | Sources/FawkesLib/TemplateGenerator.swift:78-104 | after the `lib`/`test` segment: the application name is capitalized with `_web` dropped, and the module name comes from the file stem or else the last segment |
| TemplateGenerator.GenerateTestTemplate | Sources/FawkesLib/TemplateGenerator.swift:175-216 | the method builds `TestTemplate`: the first matching directory picks the `use` and `alias` lines |
| TemplateGenerator.GenerateTemplate | Sources/FawkesLib/TemplateGenerator.swift:30-64 | the method's result is `Template(config, capitalize, path, kind)`: module info is extracted, then the kind's stub is built |
| TemplateProperties.StripNothing | Sources/FawkesLib/TemplateGenerator.swift:90-93 | a name ending in none of the suffixes is unchanged |
| TemplateProperties.StripOne | Sources/FawkesLib/TemplateGenerator.swift:90-93 | a base followed by one listed suffix loses exactly that suffix, given no other suffix applies |
| TemplateProperties.StripTwo | Sources/FawkesLib/TemplateGenerator.swift:90-93 | the loop removes two suffixes when the later-listed one comes first in the name |
| TemplateProperties.StripController | Sources/FawkesLib/TemplateGenerator.swift:90-93 | `<base>_controller` gives `<base>` |
| TemplateProperties.StripLiveComponent | Sources/FawkesLib/TemplateGenerator.swift:90-93 | `<base>_live_component` gives `<base>`: both suffixes are removed |
| TemplateProperties.CamelOfWord | Sources/FawkesLib/TemplateGenerator.swift:110-114 | a word without `_` gets its first letter upper-cased and keeps the rest as it is |
| TemplateProperties.CamelKeepsInnerCapitals | Sources/FawkesLib/TemplateGenerator.swift:110-114 | unlike `toPascalCase`, inner capitals survive, so the two conversions differ on such words |
| TemplateProperties.CamelOfSnake | Sources/FawkesLib/TemplateGenerator.swift:110-114 | on a snake_case name of lower-case words it equals the capitalized words, and equals `toPascalCase` |
| TemplateProperties.ModuleNameIgnoresCapitalize | Sources/FawkesLib/TemplateGenerator.swift:69-105 | the module name does not depend on `capitalized` |
| TemplateProperties.ModuleInfoWithoutRoot | Sources/FawkesLib/TemplateGenerator.swift:72-76 | with no `lib` or `test` segment both names are empty |
| TemplateProperties.AppNameOfWeb | Sources/FawkesLib/TemplateGenerator.swift:78-81 | `<app>_web` gives the capitalization of `<app>` |
| TemplateProperties.ControllerPathInfo | Sources/FawkesLib/TemplateGenerator.swift:69-105 | `lib/<app>/controllers/<name>_controller.ex` gives the application name of `<app>` and module `<Name>` |
| TemplateProperties.ControllerNameAgrees | Sources/FawkesLib/TemplateGenerator.swift:69-105 | for a controller path, the generator's module name plus `Controller` is the last part of the path transformer's module name |
| TemplateProperties.StubUse | Sources/FawkesLib/TemplateGenerator.swift:118-135 | with `includeUse` the stub contains the kind's `use` line; a `  use ` line appears if and only if `includeUse` is set |
| TemplateProperties.StubDoc | Sources/FawkesLib/TemplateGenerator.swift:118-135 | `@moduledoc` appears if and only if `includeModuleDoc` is set, and the doc names the kind and the module |
| TemplateProperties.TemplateHeader | Sources/FawkesLib/TemplateGenerator.swift:30-64 | every stub starts with `defmodule <header> do` and ends with `end`; the header is `Mix.Tasks.<Name>` for a task, `<App>.<Name>` for a model, and `<App>Web.<Name><Suffix>` for the other kinds |
| TemplateProperties.KindHeader | Sources/FawkesLib/TemplateGenerator.swift:118-359 | the same, stated for each kind's stub function |
| TemplateProperties.TemplateBlocks | Sources/FawkesLib/TemplateGenerator.swift:118-292 | for the eight kinds with a `use` line: a `  use ` line iff `includeUse`, and `@moduledoc` iff `includeModuleDoc` |
| TemplateProperties.ModelBlocks | Sources/FawkesLib/TemplateGenerator.swift:137-154 | the schema stub follows both flags |
| TemplateProperties.ComponentBlocks | Sources/FawkesLib/TemplateGenerator.swift:218-235 | the component stub follows both flags |
| TemplateProperties.HtmlBlocks | Sources/FawkesLib/TemplateGenerator.swift:275-292 | the HTML stub follows both flags |
| TemplateProperties.HtmlEmbedsTemplates | Sources/FawkesLib/TemplateGenerator.swift:284-285 | with `includeUse` the HTML stub embeds `<name lower-cased>_html/*` |
| TemplateProperties.JsonBlocks | Sources/FawkesLib/TemplateGenerator.swift:294-308 | the JSON stub never has a `use` line, and has `@moduledoc` iff `includeModuleDoc` |
| TemplateProperties.OnlyBlocksMatter | Sources/FawkesLib/TemplateGenerator.swift:7-17 | two configurations agreeing on `includeUse` and `includeModuleDoc` give the same stub: `moduleSuffix` is never read |
| TemplateProperties.OnlyDocMatters | Sources/FawkesLib/TemplateGenerator.swift:294-351 | JSON and task stubs depend on `includeModuleDoc` alone |
| TemplateProperties.ConfigurationUnused | Sources/FawkesLib/TemplateGenerator.swift:175-216 | test and feature stubs ignore the configuration |
| TemplateProperties.TaskIgnoresCapitalize | Sources/FawkesLib/TemplateGenerator.swift:329-351 | the task stub does not depend on `capitalized` |
| TemplateProperties.TaskStub | Sources/FawkesLib/TemplateGenerator.swift:329-351 | the task stub defines `Mix.Tasks.<Name>` and carries `@shortdoc "<Name> task"` |
| TemplateProperties.TaskDoc | Sources/FawkesLib/TemplateGenerator.swift:329-351 | the task stub contains `@moduledoc` if and only if `includeModuleDoc` is set, although it always carries `@shortdoc`, `@impl` and `@doc` |
| TemplateProperties.TestKindFirstMatch | Sources/FawkesLib/TemplateGenerator.swift:176-208 | the test kind is the first of controllers, channels, live, components, features whose `/<dir>/` the path contains, and plain otherwise |
| TemplateProperties.TestStub | Sources/FawkesLib/TemplateGenerator.swift:175-216 | the test stub uses the kind's case module with `async: true`, and except for features aliases the module under test: the controller, channel, live view or live component, component, or `<App>.<Name>` |

## Left out

- The command-line front end, the interactive terminal menu, configuration loading from disk, the logger and the opening of files in an editor are not part of this model. They are I/O around the core.
- `ConversionError.errorDescription` (AlternatePathConverter.swift:11-18) is message text only. `UnsupportedConversion` is declared but never raised by the code.
- `capitalized`: Foundation's locale-aware `String.capitalized` is a parameter of the template functions, and nothing is assumed about it. Upper and lower case are ASCII only throughout; Unicode case mapping is not modelled.
- Regular expressions: `toSnakeCase`'s `NSRegularExpression` is modelled by its effect on the string (`ReplaceHumps`), not by a regex engine.
- AlternatePathConverter.swift:104-119: the controller-test adjustment computes an application name and never uses it, so it changes nothing; the model leaves it out. The same holds for the unused `isControllerTest` computation in `convertFromTestPath` (AlternatePathConverter.swift:143-154).
- The `pathComponents.isEmpty`, `components.isEmpty` and `moduleComponents.isEmpty` guards (AlternatePathConverter.swift:45, TemplateGenerator.swift:32, PathTransformer.swift:138) are never taken, since splitting a string always yields at least one part. The model keeps the observable behaviour without a dead branch. Likewise `nameComponents.count > 1` (TemplateGenerator.swift:86) always holds once the file name contains a `.`.
- ConverterProperties.ConversionKeepsRequest: only "input starts with `./` implies output starts with `./`" is stated. The converse is false (ConversionCanGainDotSlash), because the model rule can leave a `.` segment first.
- ConverterProperties.TestKindRoundTrip: holds only for `.ex` files under `lib` with no `test` segment. Other inputs, such as an `.exs` source or a stem already ending in `_test`, do not round-trip.
- TransformerProperties.SuffixedRoundTrip, ControllerRoundTrip, LiveRoundTrip, ModelModuleName, ModelModulePath: these are stated for one application segment and one file, with no directory between them other than the role's; NestedRoundTrip covers any number of directories for names without a role suffix. Names are made of lower-case words of two letters or more, with an application other than `web` alone. A one-letter word loses its `_` on the way back (`a_b` → `AB` → `ab`). `HTML` and `JSON` module names come back as `Html` and `Json` (HtmlNameNotRestored).
- TemplateProperties.TemplateBlocks: the JSON, task, test and feature stubs are excluded. JSON has no `use` line (JsonBlocks). The task stub always has a `use Mix.Task` line, whatever `includeUse` says, so the `use` iff does not hold for it; its `@moduledoc` iff is TaskDoc. Test and feature stubs ignore the configuration (ConfigurationUnused). It also requires names without spaces or `@`.
- TemplateProperties.StubUse, StubDoc: stated for header, kind word and module name free of spaces and `@`. A module name containing `  use ` or `@moduledoc` would make the text contain them regardless of the flags.
- ConverterProperties.ControllerOfSource, ModelUndoesController: stated for canonical source paths (`CanonicalSource`). In such a path no `lib` or `controllers` segment comes before the first `lib`, and no `controllers` directory comes after it. The application name contains no `_web` and is not `controllers`. The file is `<stem>.<ext>`, with no `.` in the stem, a stem not already ending in `_controller`, and no `_` in the extension. Outside this shape the two rules do not invert each other: an existing `controllers` directory is kept rather than inserted, and every `_controller.` in the file name is replaced.
- ConverterProperties.ModelOfController: requires an application name without `_web`, because the model rule removes every `_web` from that segment. It also requires an extension without `_`, for the same reason on `_controller.`.
- ConverterProperties.HtmlOfController, HtmlOfView: stated for paths already in the web module. HtmlOfView also requires that no segment is `controllers`, since that directory selects the controller layout instead.
- ConverterProperties.ViewTwiceNests documents that the view rule is not idempotent. No idempotence is claimed for the view, live, component, live-component, channel, JSON or HTML rules; idempotence is proved only for the controller and task rules.
- The tests in `Tests/FawkesTests/TemplateGeneratorTests.swift` at lines 129 and 140 expect test stub headers other than the one the code writes. The model follows the code: the header is always `<App>Web.<Name>Test`, and for a feature path the application name is the capitalization of `features`.
