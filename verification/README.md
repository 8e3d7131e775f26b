# go-package-dependency: the layer-specification parser and dependency rule

The Go tool reads a Markdown text that describes an application's layers and
the packages in each one. From that text it computes, for every package, which
other packages it may import. This project models the core of that tool as
pure Dafny functions and methods, and proves what they compute. The core has
two parts:

- the line parser (parser.go). It tracks whether it is in the `## Layers`
  section or the `## Packages in layers` section. In the first it reads
  numbered layer lines `N. name`. In the second it reads layer selectors and
  `- path` bullets, where the indentation gives the level. It also extracts
  the module name from go.mod text.
- the configuration types and queries (types.go). These are the data model,
  the validators for layer names, layer paths, module names and package
  names, `GetAllPackages`, `GetPackagesByLayer`, `GetDependenciesForPackage`
  and `GetPackageName`.

Files:

| file | module | contents |
|---|---|---|
| results.dfy | Results | `Option` and `Result` |
| text.dfy | Text | `strings.TrimSpace` (ASCII whitespace), `HasPrefix`, `Contains`, first-match search |
| model.dfy | Model | `Package`, `Layer`, `DependencyConfig`; the four validators; `GetAllPackages`, `GetPackagesByLayer`, `GetPackageName` |
| deps.dfy | Dependencies | `GetDependenciesForPackage`, with its four loops, and a reference definition of the dependency set |
| lines.dfy | Lines | the two numbered-line regular expressions written out by hand; `calculateIndentationLevel` |
| parser.dfy | Parser | `ParseLayersSection`, `ParsePackagesSection`, one loop step, the whole pass `ParseDependencyContent` |
| modname.dfy | ModuleNames | `GetModuleNameFromContent` |
| examples.dfy | Examples | concrete cases from the repository's tests: dependencies in the sample configuration, layer-path validation, indentation levels |

## Modelling decisions

- **Input as lines.** The input text arrives as the sequence of lines the
  scanner would produce. Reading a file and `bufio.Scanner` are not modelled.
- **The current layer.** `currentLayer *Layer` becomes
  `current: Option<nat>`, an index into the layers built so far. Appending to
  the current layer updates that entry of the sequence.
- **Whitespace.** `strings.TrimSpace` trims ASCII space, `\t`, `\n`, `\v`, `\f`
  and `\r`. RE2's `\s` is the same set without `\v`. `.` matches anything
  except `\n`.
- **Regular expressions.** `^(\d+)\.\s*$` and `^(\d+)\.\s+(.+)$` are stated
  twice:
  - as ghost predicates, "some split of the line matches";
  - as executable recognisers that use the greedy split the engine picks.

  A proof shows the two agree.
- **Layer order.** `strconv.Atoi` on a run of digits is modelled as the
  unbounded decimal value.

### Behaviour the code shows

These facts are proved; the model follows the code:

- **Layer-name check never fails.** The name of a matched layer line is never
  blank: the trimmed line ends in a visible character after the dot. So the
  layer-name validation error in `ParseLayersSection` (parser.go:131-133)
  cannot happen (`Parser.NumberedNameNotBlank`).
- **Empty bullet path never occurs.** A trimmed bullet `- path` never has a
  blank path, because a bare `- ` loses its space when trimmed. So
  parser.go:184-186 never returns early, and the only path error is the ".."
  one (`Parser.BulletPathNotBlank`, `Parser.PackagesErrorIff`).
- **Module name is never empty.** A module line never yields an empty module
  name, for the same reason. The only module-name error is a space
  (`ModuleNames.ModuleLineVerdict`).
- **Description lines are skipped.** A line that contains "cannot depend" is
  skipped as a description line, in both sections (`Parser.LayersSectionSkips`,
  `Parser.PackagesSectionSkips`). In the Packages section, any other line that
  is neither numbered nor a bullet is skipped too.
- **Unmatched selector keeps the layer.** In the Packages section, a selector
  that matches no layer does not reset the current layer, so later bullets
  still go to the previous one (`Parser.SelectorUnmatched`). The name is not
  validated there.
- **Layers header keeps the layer.** The `## Layers` header does not clear the
  current layer. Only the Packages header does, and bullets are only read
  after it (`Parser.HeaderSwitchesSection`).

## Model

| member | source | states |
|---|---|---|
| Text.TrimSpace | parser.go:52 | the result has no whitespace at either end, is never longer than the input, and is empty exactly when the input is all whitespace |
| Text.TrimSpaceIsSlice | parser.go:97 | trimming removes only a whitespace prefix and a whitespace suffix: the result is the input's middle slice |
| Text.ContainsIff | types.go:41 | `strings.Contains` holds exactly when the substring occurs at some position |
| Model.ValidateLayerName | types.go:22-31 | an error exactly when the name is blank (empty or all whitespace), and `None` exactly when `IsValid` holds |
| Model.ValidateLayerPath | types.go:33-45 | a blank path gives the empty-path error; a non-blank path with two adjacent dots gives the traversal error; `None` exactly when `IsValid` holds |
| Model.ValidateModuleName | types.go:47-59 | a blank name gives the empty error; a non-blank name with a space gives the space error; `None` exactly when `IsValid` holds |
| Model.ValidatePackageName | types.go:61-73 | a blank name gives the empty error; a non-blank name with '/' gives the slash error; `None` exactly when `IsValid` holds |
| Model.LayerPathValidIff | types.go:33-35 | a layer path is valid exactly when it has a visible character and no two adjacent dots |
| Model.ModuleNameValidIff | types.go:47-49 | a module name is valid exactly when it has a visible character and no space |
| Model.PackageNameValidIff | types.go:61-63 | a package name is valid exactly when it has a visible character and no '/' |
| Model.GetAllPackages | types.go:137-144 | the result's length is the sum of the layers' package counts, and a package is in it exactly when some layer holds it |
| Model.GetAllPackagesAppend | types.go:140-142 | packages come layer after layer: the packages of `a + b` are those of `a` followed by those of `b` |
| Model.GetPackagesByLayer | types.go:146-154 | the packages of the first layer with that name; `None` (nil) exactly when no layer has the name |
| Model.Split | types.go:213 | at least one piece, no piece contains the separator, and joining the pieces with it gives back the input |
| Model.GetPackageName | types.go:210-215 | the result contains no '/', is a suffix of the path, and is the whole path or follows a '/'; a path without '/' is its own name |
| Model.PackageNameAfterLastSlash | types.go:210-215 | the package name is exactly the text after the last '/' of the path |
| Dependencies.GetDependenciesForPackage | types.go:156-208 | the result equals the reference definition: nothing when no layer holds the target's path, otherwise the paths of lower-order layers followed by the allowed paths of the target's layer |
| Dependencies.FindTargetLayer | types.go:160-176 | the nested loops with `break` find the first layer, in declaration order, that holds the target path |
| Dependencies.CollectUpperPaths | types.go:178-185 | the loop collects every path of every layer whose order is strictly below the target layer's, in declaration order |
| Dependencies.AppendPaths | types.go:181-183 | the inner loop appends the paths of a layer's packages, in their order, after what was collected so far |
| Dependencies.FindTargetIndex | types.go:187-194 | the first index of the target path in its layer, or 0 when the path is absent, as Go's zero value gives |
| Dependencies.CollectSiblingPaths | types.go:196-205 | the loop appends exactly the same-layer packages with another path whose level is lower than the target's, or equal with an earlier index |
| Dependencies.UpperPathsMembers | types.go:179-184 | a path is in the upper part exactly when some layer with a smaller order holds it |
| Dependencies.UpperPathsAppend | types.go:179 | layers are visited in declaration order, so the upper part of `a + b` is that of `a` followed by that of `b` |
| Dependencies.UpperPathsSkipLayer | types.go:180 | a layer whose order is not below the target's, the target layer included, contributes nothing |
| Dependencies.SiblingPathsMembers | types.go:197-204 | a path is in the same-layer part exactly when some other-path package at an allowed level and position has it |
| Dependencies.SiblingPathsExcludeTarget | types.go:198 | the same-layer part never contains the target's own path |
| Dependencies.DependenciesMembers | types.go:156-208 | the layering rule over the whole result: a path is a dependency exactly when it is in a lower-order layer or an allowed sibling in the target's layer |
| Dependencies.DependenciesBound | types.go:156-208 | the dependency list is never longer than the list of all packages |
| Lines.MatchEmptyNumbered | parser.go:107-108 | the recogniser accepts exactly the lines matching `^(\d+)\.\s*$` |
| Lines.MatchNumbered | parser.go:113-118 | a result exactly when the line matches `^(\d+)\.\s+(.+)$`; the order is the value of the leading digits and the name is the trimmed text after the dot |
| Lines.GreedyMatchesIff | parser.go:113-114 | the greedy split the engine picks matches exactly when some split matches |
| Lines.GreedyName | parser.go:118 | the trimmed name group equals the trimmed text after the dot, whatever whitespace `\s+` consumed |
| Lines.IndentationLevel | parser.go:206-230 | the level is 0 or 1, and it is 1 exactly when the line starts with four spaces |
| Lines.LeadingSpaceCount | parser.go:208-218 | the count of leading ' ' characters, stopping at the first other character |
| Parser.ParseLayersSection | parser.go:96-139 | an error exactly for a non-skipped "N." line with no name; a change only appends a layer with the line's order and trimmed, valid name and no packages |
| Parser.NumberedNameNotBlank | parser.go:131-133 | the name of a matched numbered line is always a valid layer name, so this validation never fails |
| Parser.LayersLineNumbered | parser.go:113-135 | a numbered line without the description marker appends exactly the layer it names |
| Parser.ParsePackagesSection | parser.go:141-204 | it never adds or removes layers; the only errors are "N." with no name and a path with ".."; a change appends one package, with the bullet's trimmed valid path and the line's level, to the current layer |
| Parser.PackagesErrorIff | parser.go:141-204 | a Packages-section line fails exactly when it is not skipped and is either "N." alone, or a bullet (not a selector) under a selected layer whose path contains ".." |
| Parser.BulletErrorIff | parser.go:179-198 | a bullet under a selected layer fails exactly when its path contains ".." |
| Parser.BulletPathNotBlank | parser.go:184-186 | the path of a trimmed bullet is never blank, so the empty-path skip is never taken |
| Parser.Step | parser.go:50-86 | a header switches the section, and the Packages header clears the current layer; errors come only from a section's line parser; layers are only extended |
| Parser.HeaderSwitchesSection | parser.go:55-65 | the Layers header only switches the section and keeps the current layer; the Packages header switches the section and clears the current layer; nothing else changes |
| Parser.StepDispatch | parser.go:67-86 | a line that is no header, blank or comment goes to the parser of the current section, and is ignored outside both sections |
| Parser.OutsideSectionsInert | parser.go:54-86 | before any section header, every line that is not itself a header leaves the state unchanged |
| Parser.Run | parser.go:50-87 | the pass keeps the current index valid, only extends the layers, and keeps every layer and package well formed |
| Parser.ParseDependencyContent | parser.go:28-94 | a parsed configuration has valid layer names, non-negative orders, valid package paths and levels of 0 or 1 |
| Parser.StepKeepsWellFormed | parser.go:72-86 | one step keeps every layer and package well formed |
| Parser.RunAppend | parser.go:50-87 | the pass over `a + b` is the pass over `a` continued over `b`; an error in `a` is the error of the whole pass |
| Parser.FailingLineAborts | parser.go:74-85 | a line that fails aborts the whole parse, whatever follows it |
| Parser.NoHeaderNoLayers | parser.go:54-73 | text without a section header, the empty text included, parses to a configuration with no layers |
| Parser.EmptyNumberedShape | parser.go:99-110 | on a trimmed line, "N." alone is never also "N. name" and never contains "cannot depend" |
| Parser.EmptyNameIsError | parser.go:106-110 | inside either section, "N." with no name is the empty-name error |
| Parser.LayersSectionSkips | parser.go:99-104 | in the Layers section, a line starting with '-', mentioning "cannot depend", or matching neither numbered pattern leaves the state unchanged |
| Parser.PackagesSectionSkips | parser.go:141-204 | in the Packages section, a line mentioning "cannot depend", or one that is neither numbered nor a bullet, leaves the state unchanged, the current layer included |
| Parser.LayerLineAppends | parser.go:113-135 | in the Layers section "N. name" appends a layer with order N, the trimmed name and no packages, and nothing else changes |
| Parser.SelectorMatches | parser.go:168-174 | in the Packages section a numbered line selects the first layer whose name and order both match |
| Parser.SelectorUnmatched | parser.go:168-176 | a selector that matches no layer leaves the state, including the current layer, unchanged |
| Parser.BulletWithoutLayerDropped | parser.go:180 | a bullet while no layer is selected is dropped |
| Parser.BulletAppends | parser.go:179-200 | with a selected layer, a bullet with a valid path appends exactly that package, with the line's level, to that layer and nothing else changes |
| Parser.BulletTraversalIsError | parser.go:196-198 | with a selected layer, a bullet whose path contains ".." is the traversal error |
| ModuleNames.GetModuleNameFromContent | parser.go:242-268 | not-found exactly when no trimmed line starts with "module "; otherwise the outcome of the first such line; a returned name is always valid |
| ModuleNames.FirstModuleLineDecides | parser.go:256-264 | lines after the first module line do not change the outcome |
| ModuleNames.ModuleRemainderNotBlank | parser.go:258-259 | the trimmed rest of a module line is never blank |
| ModuleNames.ModuleLineVerdict | parser.go:259-263 | a module line's outcome is an error exactly when its name contains a space, and that error is the space error |
| Examples.ServiceDependencies | types_test.go:424-428 | in the test configuration, the domain service depends on the entity and value-object packages |
| Examples.EntityDependencies | types_test.go:419-423 | in the test configuration, the domain entity has no dependencies |
| Examples.UseCaseDependencies | types_test.go:429-433 | in the test configuration, the application use case depends on the three domain packages and the application service |
| Examples.UnknownPackageHasNoDependencies | types.go:172-174 | a package held by no layer has no dependencies |
| Examples.TraversalPathRejected | types_test.go:96-97 | the paths "path/../other" and "path/.." are rejected as traversal |
| Examples.DotPathAccepted | types_test.go:98-99 | the paths "." and "/" are accepted |
| Examples.SampleIndentation | parser_test.go:391-416 | the indentation levels of the parser's test table: 0, 0, 1 and 1 |

## Left out

- File I/O: `ParseDependencyFile` and `GetModuleName` only open a file and
  call the content functions, which are modelled.
- Input types: the `any` type switch over reader types and
  `UnsupportedReaderError` are not modelled. The input is the sequence of
  lines.
- Scanner: `bufio.Scanner` line splitting, its token-size limit and
  `scanner.Err()` are not modelled.
- Parser.ParseLayersSection: does not model `strconv.Atoi` overflow. A digit
  run too long for an `int` would be an "invalid layer order" error in Go,
  but here it is an unbounded order.
- Parser.ParsePackagesSection: does not model `strconv.Atoi` overflow on a
  selector's digits, for the same reason.
- Text.TrimSpace: trims only ASCII whitespace. Go also trims Unicode spaces
  such as U+0085 and U+00A0.
- Messages: error message texts, `String()` methods and `Error()` formatting
  are not modelled. Errors are datatype constructors.
- Unmodelled files: main.go (the command-line entry) and the code generator
  are not part of this model.
