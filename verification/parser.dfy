/** The section-aware parser of parser.go: one forward pass over the lines of
    the specification text, threading a state of section, layers built so
    far, and the index of the current layer. Any error aborts the pass and
    no configuration is returned. */
module Parser {
  import opened Results
  import opened Text
  import opened Model
  import opened Lines

  /** The section the pass is in (the source's two booleans, never both set). */
  datatype Section = NoSection | LayersSection | PackagesSection

  /** The state threaded through the pass; `current` indexes `layers` and
      stands for the Go code's `*Layer` reference to the current layer. */
  datatype ParseState = ParseState(section: Section, layers: seq<Layer>, current: Option<nat>)

  /** Why a pass is aborted. */
  datatype ParseError =
    | EmptyNumberedName                        // "N." with nothing after it
    | InvalidLayerName(reason: ValidationError)
    | InvalidPackagePath(reason: ValidationError)

  const LayersHeader: string := "## Layers"
  const PackagesHeader: string := "## Packages in layers"
  const DescriptionMarker: string := "cannot depend"
  const BulletMarker: string := "- "

  const InitialState: ParseState := ParseState(NoSection, [], None)

  /** The current layer, when set, is one of the layers built so far. */
  predicate ValidState(st: ParseState) {
    st.current.Some? ==> st.current.value < |st.layers|
  }

  /** Every layer has a valid name and a non-negative order, and every
      package a valid path and a level of 0 or 1. */
  predicate WellFormed(layers: seq<Layer>) {
    forall i :: 0 <= i < |layers| ==> WellFormedLayer(layers[i])
  }

  predicate WellFormedLayer(l: Layer) {
    && LayerNameIsValid(l.name)
    && l.order >= 0
    && forall j :: 0 <= j < |l.packages| ==> WellFormedPackage(l.packages[j])
  }

  predicate WellFormedPackage(p: Package) {
    LayerPathIsValid(p.path) && (p.level == 0 || p.level == 1)
  }

  /** `after` only adds to `before`: layers keep their position, name and
      order, packages are only appended, and new layers come at the end. */
  predicate Extends(before: seq<Layer>, after: seq<Layer>) {
    && |before| <= |after|
    && forall i :: 0 <= i < |before| ==>
         && after[i].name == before[i].name
         && after[i].order == before[i].order
         && before[i].packages <= after[i].packages
  }

  lemma ExtendsTransitive(a: seq<Layer>, b: seq<Layer>, c: seq<Layer>)
    requires Extends(a, b) && Extends(b, c)
    ensures Extends(a, c)
  {
    forall i | 0 <= i < |a|
      ensures a[i].packages <= c[i].packages
    {
      assert a[i].packages == b[i].packages[..|a[i].packages|];
      assert b[i].packages == c[i].packages[..|b[i].packages|];
    }
  }

  /** A Layers-section line that is skipped before any pattern is tried. */
  predicate LayersLineSkipped(t: string) {
    HasPrefix(t, "-") || Contains(t, DescriptionMarker) || t == ""
  }

  /** `ParseLayersSection`: a numbered line appends a new layer with the
      written order, the trimmed name and no packages; "N." alone is an
      error; everything else leaves the layers as they are. */
  function ParseLayersSection(rawLine: string, layers: seq<Layer>): (r: Result<seq<Layer>, ParseError>)
    ensures r.Err? <==> !LayersLineSkipped(TrimSpace(rawLine)) && EmptyNumberedRegex(TrimSpace(rawLine))
    ensures r.Err? ==> r.error == EmptyNumberedName
    ensures r.Ok? && r.value != layers ==>
      && MatchNumbered(TrimSpace(rawLine)).Some?
      && var n := MatchNumbered(TrimSpace(rawLine)).value;
         r.value == layers + [Layer(n.name, n.order, [])] && LayerNameIsValid(n.name)
  {
    var t := TrimSpace(rawLine);
    if LayersLineSkipped(t) then Ok(layers)
    else if MatchEmptyNumbered(t) then Err(EmptyNumberedName)
    else match MatchNumbered(t)
      case None => Ok(layers)
      case Some(n) =>
        NumberedNameNotBlank(rawLine);
        match ValidateLayerName(n.name)
        case Some(e) => Err(InvalidLayerName(e))
        case None => Ok(layers + [Layer(n.name, n.order, [])])
  }

  /** The trimmed name of a numbered line is never blank: the line is trimmed,
      so it ends in a visible character, and that character follows the dot.
      So the layer-name validation in `ParseLayersSection` never fails. */
  lemma NumberedNameNotBlank(rawLine: string)
    requires MatchNumbered(TrimSpace(rawLine)).Some?
    ensures LayerNameIsValid(MatchNumbered(TrimSpace(rawLine)).value.name)
  {
    var t := TrimSpace(rawLine);
    var k := DigitRun(t);
    MatchNumberedParts(t, k);
    NumberedNameVisible(t, k);
    TrimSpaceIdempotent(t[k + 1..]);
  }

  /** A Layers-section line only ever appends a new layer. */
  lemma LayersSectionExtends(rawLine: string, layers: seq<Layer>)
    requires ParseLayersSection(rawLine, layers).Ok?
    ensures Extends(layers, ParseLayersSection(rawLine, layers).value)
  {
    var after := ParseLayersSection(rawLine, layers).value;
    if after != layers {
      assert forall i :: 0 <= i < |layers| ==> after[i] == layers[i];
    }
  }

  /** The first layer with exactly this name and this order. */
  function FindLayer(layers: seq<Layer>, name: string, order: int): (r: Option<nat>)
    ensures r.Some? ==> r.value < |layers| && layers[r.value].name == name && layers[r.value].order == order
    ensures r.Some? ==> forall k :: 0 <= k < r.value ==> !(layers[k].name == name && layers[k].order == order)
    ensures r.None? <==> forall k :: 0 <= k < |layers| ==> !(layers[k].name == name && layers[k].order == order)
  {
    FirstWhere(layers, (l: Layer) => l.name == name && l.order == order)
  }

  /** Appends `p` to the packages of layer `i`, leaving all else as it is. */
  function AppendPackage(layers: seq<Layer>, i: nat, p: Package): (r: seq<Layer>)
    requires i < |layers|
    ensures |r| == |layers|
    ensures r[i].name == layers[i].name && r[i].order == layers[i].order
    ensures r[i].packages == layers[i].packages + [p]
    ensures forall k :: 0 <= k < |layers| && k != i ==> r[k] == layers[k]
  {
    layers[i := layers[i].(packages := layers[i].packages + [p])]
  }

  lemma AppendPackageExtends(layers: seq<Layer>, i: nat, p: Package)
    requires i < |layers|
    ensures Extends(layers, AppendPackage(layers, i, p))
  {
  }

  lemma ExtendsReflexive(layers: seq<Layer>)
    ensures Extends(layers, layers)
  {
  }

  /** A Packages-section line that is skipped before any pattern is tried. */
  predicate PackagesLineSkipped(t: string) {
    Contains(t, DescriptionMarker) || t == ""
  }

  /** The trimmed path of a bullet line `- path`. */
  function BulletPath(t: string): string
    requires HasPrefix(t, BulletMarker)
  {
    TrimSpace(t[|BulletMarker|..])
  }

  /** The path of a bullet is never blank: the line is trimmed, so a bare
      "- " has lost its space and is no bullet. So the empty-path skip in
      `ParsePackagesSection` is never taken. */
  lemma BulletPathNotBlank(rawLine: string)
    requires HasPrefix(TrimSpace(rawLine), BulletMarker)
    ensures HasVisibleChar(BulletPath(TrimSpace(rawLine)))
  {
    var t := TrimSpace(rawLine);
    var k := |BulletMarker|;
    assert t[k - 1] == ' ';
    assert |t| > k;
    var rest := t[k..];
    assert rest[|rest| - 1] == t[|t| - 1];
    assert !AllSpace(rest);
    assert !IsSpace(BulletPath(t)[0]);
  }

  /** `ParsePackagesSection`: a numbered line selects the first layer with
      that name and order (and leaves the selection alone when none
      matches); a `- path` bullet, while a layer is selected, appends a
      package to it; "N." alone and a bullet path with ".." are errors. */
  function ParsePackagesSection(rawLine: string, st: ParseState): (r: Result<ParseState, ParseError>)
    requires ValidState(st)
    ensures r.Ok? ==> ValidState(r.value) && r.value.section == st.section
    ensures r.Ok? ==> Extends(st.layers, r.value.layers) && |r.value.layers| == |st.layers|
    ensures r.Err? ==> r.error == EmptyNumberedName || r.error == InvalidPackagePath(LayerPathTraversal)
    ensures !PackagesLineSkipped(TrimSpace(rawLine)) && EmptyNumberedRegex(TrimSpace(rawLine)) ==> r == Err(EmptyNumberedName)
    ensures r.Ok? && r.value.layers != st.layers ==>
      var t := TrimSpace(rawLine);
      && st.current.Some? && r.value.current == st.current
      && HasPrefix(t, BulletMarker) && LayerPathIsValid(BulletPath(t))
      && r.value.layers == AppendPackage(st.layers, st.current.value, Package(BulletPath(t), IndentationLevel(rawLine)))
  {
    ExtendsReflexive(st.layers);
    var t := TrimSpace(rawLine);
    if PackagesLineSkipped(t) then Ok(st)
    else if MatchEmptyNumbered(t) then Err(EmptyNumberedName)
    else match MatchNumbered(t)
      case Some(n) =>
        (match FindLayer(st.layers, n.name, n.order)
         case Some(i) => Ok(st.(current := Some(i)))
         case None => Ok(st))
      case None =>
        if HasPrefix(t, BulletMarker) && st.current.Some? then
          var path := BulletPath(t);
          if path == "" then Ok(st)
          else
            var level := IndentationLevel(rawLine);
            match ValidateLayerPath(path)
            case Some(e) => Err(InvalidPackagePath(e))
            case None =>
              AppendPackageExtends(st.layers, st.current.value, Package(path, level));
              Ok(st.(layers := AppendPackage(st.layers, st.current.value, Package(path, level))))
        else Ok(st)
  }

  /** The section a line switches to, if it is a header. */
  function HeaderSection(line: string): Option<Section> {
    if HasPrefix(line, LayersHeader) then Some(LayersSection)
    else if HasPrefix(line, PackagesHeader) then Some(PackagesSection)
    else None
  }

  /** One iteration of the loop in `ParseDependencyContent`. */
  function Step(st: ParseState, rawLine: string): (r: Result<ParseState, ParseError>)
    requires ValidState(st)
    ensures r.Ok? ==> ValidState(r.value)
    ensures r.Ok? ==> Extends(st.layers, r.value.layers)
    ensures r.Ok? ==> r.value.section == (match HeaderSection(TrimSpace(rawLine)) case Some(s) => s case None => st.section)
    ensures r.Ok? && HeaderSection(TrimSpace(rawLine)) == Some(PackagesSection) ==> r.value.current.None?
    ensures r.Err? ==> st.section != NoSection && HeaderSection(TrimSpace(rawLine)).None?
    ensures r.Ok? && r.value.layers != st.layers ==>
      || (st.section == LayersSection && ParseLayersSection(rawLine, st.layers) == Ok(r.value.layers))
      || (st.section == PackagesSection && ParsePackagesSection(rawLine, st) == Ok(r.value))
  {
    ExtendsReflexive(st.layers);
    var line := TrimSpace(rawLine);
    if HasPrefix(line, LayersHeader) then Ok(st.(section := LayersSection))
    else if HasPrefix(line, PackagesHeader) then Ok(st.(section := PackagesSection, current := None))
    else if line == "" || HasPrefix(line, "#") then Ok(st)
    else match st.section
      case NoSection => Ok(st)
      case LayersSection =>
        (match ParseLayersSection(rawLine, st.layers)
         case Err(e) => Err(e)
         case Ok(layers) =>
           LayersSectionExtends(rawLine, st.layers);
           Ok(st.(layers := layers)))
      case PackagesSection => ParsePackagesSection(rawLine, st)
  }

  /** The rest of the loop: steps through `lines`, stopping at the first error. */
  function Run(st: ParseState, lines: seq<string>): (r: Result<ParseState, ParseError>)
    requires ValidState(st)
    ensures r.Ok? ==> ValidState(r.value) && Extends(st.layers, r.value.layers)
    ensures r.Ok? && WellFormed(st.layers) ==> WellFormed(r.value.layers)
    decreases |lines|
  {
    if |lines| == 0 then Ok(st)
    else match Step(st, lines[0])
      case Err(e) => Err(e)
      case Ok(next) =>
        StepKeepsWellFormed(st, lines[0]);
        var r := Run(next, lines[1..]);
        if r.Ok? then ExtendsTransitive(st.layers, next.layers, r.value.layers); r
        else r
  }

  /** `ParseDependencyContent` on text already split into lines: either an
      error and no configuration, or a configuration whose every layer has a
      valid name and non-negative order and whose every package has a valid
      path and a level of 0 or 1. */
  function ParseDependencyContent(lines: seq<string>): (r: Result<DependencyConfig, ParseError>)
    ensures r.Ok? ==> WellFormed(r.value.layers)
  {
    match Run(InitialState, lines)
    case Err(e) => Err(e)
    case Ok(st) => Ok(DependencyConfig(st.layers))
  }

  /** A step keeps every layer and package well formed. */
  lemma StepKeepsWellFormed(st: ParseState, rawLine: string)
    requires ValidState(st)
    ensures Step(st, rawLine).Ok? && WellFormed(st.layers) ==> WellFormed(Step(st, rawLine).value.layers)
  {
    var r := Step(st, rawLine);
    if r.Ok? && WellFormed(st.layers) && r.value.layers != st.layers {
      LayersSectionKeepsWellFormed(rawLine, st.layers);
      PackagesSectionKeepsWellFormed(rawLine, st);
    }
  }

  lemma LayersSectionKeepsWellFormed(rawLine: string, layers: seq<Layer>)
    requires WellFormed(layers)
    ensures ParseLayersSection(rawLine, layers).Ok? ==> WellFormed(ParseLayersSection(rawLine, layers).value)
  {
    var r := ParseLayersSection(rawLine, layers);
    if r.Ok? && r.value != layers {
      var n := MatchNumbered(TrimSpace(rawLine)).value;
      WellFormedAppend(layers, Layer(n.name, n.order, []));
    }
  }

  lemma WellFormedAppend(layers: seq<Layer>, l: Layer)
    requires WellFormed(layers) && WellFormedLayer(l)
    ensures WellFormed(layers + [l])
  {
  }

  lemma PackagesSectionKeepsWellFormed(rawLine: string, st: ParseState)
    requires ValidState(st) && WellFormed(st.layers)
    ensures ParsePackagesSection(rawLine, st).Ok? ==> WellFormed(ParsePackagesSection(rawLine, st).value.layers)
  {
    var r := ParsePackagesSection(rawLine, st);
    if r.Ok? && r.value.layers != st.layers {
      var t := TrimSpace(rawLine);
      var c := st.current.value;
      var p := Package(BulletPath(t), IndentationLevel(rawLine));
      WellFormedAppendPackage(st.layers, c, p);
    }
  }

  lemma WellFormedAppendPackage(layers: seq<Layer>, i: nat, p: Package)
    requires i < |layers| && WellFormed(layers) && WellFormedPackage(p)
    ensures WellFormed(AppendPackage(layers, i, p))
  {
    var after := AppendPackage(layers, i, p);
    assert WellFormedLayer(after[i]) by {
      forall j | 0 <= j < |after[i].packages|
        ensures WellFormedPackage(after[i].packages[j])
      {
        if j < |layers[i].packages| {
          assert after[i].packages[j] == layers[i].packages[j];
        }
      }
    }
  }

  // ---------------------------------------------------------------------
  // Properties of the pass

  /** The pass over `a + b` is the pass over `a` continued over `b`; an error
      in `a` is the error of the whole pass. */
  lemma {:induction false} RunAppend(st: ParseState, a: seq<string>, b: seq<string>)
    requires ValidState(st)
    ensures Run(st, a + b) == match Run(st, a)
                              case Err(e) => Err(e)
                              case Ok(mid) => Run(mid, b)
    decreases |a|
  {
    if |a| == 0 {
      assert a + b == b;
    } else {
      assert (a + b)[0] == a[0];
      assert (a + b)[1..] == a[1..] + b;
      match Step(st, a[0])
      case Err(e) =>
      case Ok(next) => RunAppend(next, a[1..], b);
    }
  }

  /** A line that fails aborts the whole parse: no configuration is returned
      whatever follows it. */
  lemma FailingLineAborts(lines: seq<string>, i: nat, mid: ParseState)
    requires i < |lines|
    requires Run(InitialState, lines[..i]) == Ok(mid)
    requires Step(mid, lines[i]).Err?
    ensures ParseDependencyContent(lines).Err?
  {
    var rest := lines[i..];
    SplitAt(lines, i);
    RunAppend(InitialState, lines[..i], rest);
    assert rest[0] == lines[i];
    assert Run(mid, rest).Err?;
  }

  lemma SplitAt<T>(s: seq<T>, i: nat)
    requires i <= |s|
    ensures s[..i] + s[i..] == s
  {
  }

  /** A line before the first header, or any line that is not a header while
      outside both sections, changes nothing. */
  lemma OutsideSectionsInert(st: ParseState, rawLine: string)
    requires ValidState(st) && st.section == NoSection
    requires HeaderSection(TrimSpace(rawLine)).None?
    ensures Step(st, rawLine) == Ok(st)
  {
  }

  /** Text with no section header, the empty text included, parses to a
      configuration with no layers. */
  lemma {:induction false} NoHeaderNoLayers(lines: seq<string>)
    requires forall i :: 0 <= i < |lines| ==> HeaderSection(TrimSpace(lines[i])).None?
    ensures ParseDependencyContent(lines) == Ok(DependencyConfig([]))
  {
    NoHeaderRun(lines);
  }

  lemma {:induction false} NoHeaderRun(lines: seq<string>)
    requires forall i :: 0 <= i < |lines| ==> HeaderSection(TrimSpace(lines[i])).None?
    ensures Run(InitialState, lines) == Ok(InitialState)
    decreases |lines|
  {
    if |lines| > 0 {
      OutsideSectionsInert(InitialState, lines[0]);
      assert forall i :: 0 <= i < |lines[1..]| ==> lines[1..][i] == lines[i + 1];
      NoHeaderRun(lines[1..]);
    }
  }

  /** A numbered line starts with a digit, so it is no header, comment,
      bullet or blank line. */
  lemma StartsWithDigit(t: string)
    requires |t| > 0 && IsDigit(t[0])
    ensures HeaderSection(t).None?
    ensures t != "" && !HasPrefix(t, "#") && !HasPrefix(t, "-") && !HasPrefix(t, BulletMarker)
  {
  }

  /** A string that contains `sub` contains its first character. */
  lemma ContainsFirstChar(s: string, sub: string)
    requires |sub| > 0 && Contains(s, sub)
    ensures sub[0] in s
  {
    ContainsIff(s, sub);
    var i :| 0 <= i <= |s| && HasPrefix(s[i..], sub);
    assert s[i] == s[i..][0];
  }

  /** On a trimmed line, "N." alone is exactly digits and a dot: it is never
      also "N. name", and it never contains the description marker. */
  lemma EmptyNumberedShape(t: string)
    requires EmptyNumberedRegex(t) && !IsSpace(t[|t| - 1])
    ensures !NumberedRegex(t)
    ensures !Contains(t, DescriptionMarker)
    ensures |t| > 0 && IsDigit(t[0])
  {
    var k :| 1 <= k < |t| && AllDigits(t[..k]) && t[k] == '.' && AllRegexSpace(t[k + 1..]);
    DigitGroupIsRun(t, k);
    assert t[0] == t[..k][0];
    assert |t| == k + 1;
    assert !NumberedRegex(t) by {
      forall k', m | NumberedSplit(t, k', m) ensures false {
        DigitGroupIsRun(t, k');
      }
    }
    if Contains(t, DescriptionMarker) {
      ContainsFirstChar(t, DescriptionMarker);
    }
  }

  /** A line that is no header, blank or comment goes to the parser of the
      section the pass is in. */
  lemma StepDispatch(st: ParseState, rawLine: string)
    requires ValidState(st)
    requires var t := TrimSpace(rawLine); HeaderSection(t).None? && t != "" && !HasPrefix(t, "#")
    ensures st.section == NoSection ==> Step(st, rawLine) == Ok(st)
    ensures st.section == LayersSection ==>
      Step(st, rawLine) == match ParseLayersSection(rawLine, st.layers)
                           case Err(e) => Err(e)
                           case Ok(layers) => Ok(st.(layers := layers))
    ensures st.section == PackagesSection ==> Step(st, rawLine) == ParsePackagesSection(rawLine, st)
  {
    if st.section == LayersSection {
      StepToLayers(st, rawLine);
    } else if st.section == PackagesSection {
      StepToPackages(st, rawLine);
    }
  }

  lemma StepToLayers(st: ParseState, rawLine: string)
    requires ValidState(st) && st.section == LayersSection
    requires var t := TrimSpace(rawLine); HeaderSection(t).None? && t != "" && !HasPrefix(t, "#")
    ensures Step(st, rawLine) == match ParseLayersSection(rawLine, st.layers)
                                 case Err(e) => Err(e)
                                 case Ok(layers) => Ok(st.(layers := layers))
  {
    var t := TrimSpace(rawLine);
    assert !HasPrefix(t, LayersHeader) && !HasPrefix(t, PackagesHeader);
  }

  lemma StepToPackages(st: ParseState, rawLine: string)
    requires ValidState(st) && st.section == PackagesSection
    requires var t := TrimSpace(rawLine); HeaderSection(t).None? && t != "" && !HasPrefix(t, "#")
    ensures Step(st, rawLine) == ParsePackagesSection(rawLine, st)
  {
    var t := TrimSpace(rawLine);
    assert !HasPrefix(t, LayersHeader) && !HasPrefix(t, PackagesHeader);
  }

  /** Inside either section, "N." with no name is an error, and so the whole
      parse fails. */
  lemma EmptyNameIsError(st: ParseState, rawLine: string)
    requires ValidState(st) && st.section != NoSection
    requires EmptyNumberedRegex(TrimSpace(rawLine))
    ensures Step(st, rawLine) == Err(EmptyNumberedName)
  {
    var t := TrimSpace(rawLine);
    assert && HeaderSection(t).None? && t != "" && !HasPrefix(t, "#")
           && !LayersLineSkipped(t) && !PackagesLineSkipped(t) && MatchEmptyNumbered(t) by {
      EmptyNumberedShape(t);
      StartsWithDigit(t);
    }
    if st.section == LayersSection {
      StepToLayers(st, rawLine);
    } else {
      StepToPackages(st, rawLine);
    }
  }

  /** In the Layers section a line "N. name" (not mentioning "cannot depend")
      appends, at the end, a layer whose order is exactly N (the value of the
      leading digits, `k` of them), whose name is the trimmed text after the
      dot, and which has no packages; nothing else changes. */
  lemma LayerLineAppends(st: ParseState, rawLine: string, k: nat)
    requires ValidState(st) && st.section == LayersSection
    requires NumberedRegex(TrimSpace(rawLine))
    requires !Contains(TrimSpace(rawLine), DescriptionMarker)
    requires k == DigitRun(TrimSpace(rawLine))
    ensures 1 <= k < |TrimSpace(rawLine)|
    ensures var t := TrimSpace(rawLine);
            Step(st, rawLine) == Ok(st.(layers := st.layers + [Layer(TrimSpace(t[k + 1..]), DigitsValue(t[..k]), [])]))
  {
    var t := TrimSpace(rawLine);
    NumberedLineShape(rawLine);
    StepToLayers(st, rawLine);
    LayersLineNumbered(rawLine, st.layers);
    MatchNumberedParts(t, k);
  }

  /** `ParseLayersSection` on a numbered line that is not a description. */
  lemma LayersLineNumbered(rawLine: string, layers: seq<Layer>)
    requires NumberedRegex(TrimSpace(rawLine))
    requires !Contains(TrimSpace(rawLine), DescriptionMarker)
    ensures var n := MatchNumbered(TrimSpace(rawLine)).value;
            ParseLayersSection(rawLine, layers) == Ok(layers + [Layer(n.name, n.order, [])])
  {
    var t := TrimSpace(rawLine);
    NumberedLineShape(rawLine);
    NumberedLeadDigit(t);
    StartsWithDigit(t);
    NumberedNameNotBlank(rawLine);
    assert !LayersLineSkipped(t) && !MatchEmptyNumbered(t);
  }

  /** In the Layers section, bullets, description lines, and lines matching
      neither numbered pattern (such as "x. Invalid layer") are skipped. */
  lemma LayersSectionSkips(st: ParseState, rawLine: string)
    requires ValidState(st) && st.section == LayersSection
    requires HeaderSection(TrimSpace(rawLine)).None?
    requires var t := TrimSpace(rawLine);
             || HasPrefix(t, "-")
             || Contains(t, DescriptionMarker)
             || (!NumberedRegex(t) && !EmptyNumberedRegex(t))
    ensures Step(st, rawLine) == Ok(st)
  {
  }

  /** The error cases of `ParsePackagesSection`, both ways: a line that is
      not skipped fails exactly when it is "N." alone, or when it is a
      bullet (and no selector) while a layer is selected and its path
      contains "..". */
  lemma PackagesErrorIff(st: ParseState, rawLine: string)
    requires ValidState(st)
    ensures var t := TrimSpace(rawLine);
      ParsePackagesSection(rawLine, st).Err? <==>
        !PackagesLineSkipped(t)
        && (|| EmptyNumberedRegex(t)
            || (&& !NumberedRegex(t) && HasPrefix(t, BulletMarker)
                && st.current.Some? && HasDotDot(BulletPath(t))))
  {
    var t := TrimSpace(rawLine);
    var r := ParsePackagesSection(rawLine, st);
    if PackagesLineSkipped(t) {
      assert r.Ok?;
    } else if MatchEmptyNumbered(t) {
      assert r.Err?;
    } else if MatchNumbered(t).Some? {
      assert r.Ok? by {
        match FindLayer(st.layers, MatchNumbered(t).value.name, MatchNumbered(t).value.order)
        case Some(i) =>
        case None =>
      }
    } else if HasPrefix(t, BulletMarker) && st.current.Some? {
      BulletErrorIff(st, rawLine);
    } else {
      assert r == Ok(st);
    }
  }

  /** A bullet under a selected layer fails exactly when its path contains
      "..". */
  lemma BulletErrorIff(st: ParseState, rawLine: string)
    requires ValidState(st) && st.current.Some?
    requires var t := TrimSpace(rawLine);
             !PackagesLineSkipped(t) && !MatchEmptyNumbered(t) && MatchNumbered(t).None?
             && HasPrefix(t, BulletMarker)
    ensures ParsePackagesSection(rawLine, st).Err? <==> HasDotDot(BulletPath(TrimSpace(rawLine)))
  {
    var path := BulletPath(TrimSpace(rawLine));
    BulletPathNotBlank(rawLine);
    assert ParsePackagesSection(rawLine, st).Err? <==> ValidateLayerPath(path).Some?;
  }

  /** Inside the Packages section, description lines and lines that are
      neither numbered nor bullets (prose such as "Upper packages cannot
      depend on lower packages.") leave the state, the current layer
      included, unchanged. */
  lemma PackagesSectionSkips(st: ParseState, rawLine: string)
    requires ValidState(st) && st.section == PackagesSection
    requires HeaderSection(TrimSpace(rawLine)).None?
    requires var t := TrimSpace(rawLine);
             || Contains(t, DescriptionMarker)
             || (!NumberedRegex(t) && !EmptyNumberedRegex(t) && !HasPrefix(t, BulletMarker))
    ensures Step(st, rawLine) == Ok(st)
  {
    var t := TrimSpace(rawLine);
    if t != "" && !HasPrefix(t, "#") {
      StepToPackages(st, rawLine);
    }
  }

  /** A `## Layers` header only switches the section: the current layer is
      kept. A `## Packages in layers` header switches the section and clears
      the current layer. Nothing else changes. */
  lemma HeaderSwitchesSection(st: ParseState, rawLine: string)
    requires ValidState(st)
    ensures HasPrefix(TrimSpace(rawLine), LayersHeader) ==>
      Step(st, rawLine) == Ok(st.(section := LayersSection))
    ensures !HasPrefix(TrimSpace(rawLine), LayersHeader) && HasPrefix(TrimSpace(rawLine), PackagesHeader) ==>
      Step(st, rawLine) == Ok(st.(section := PackagesSection, current := None))
  {
  }

  /** In the Packages section, a selector "N. name" makes current the first
      layer whose name and order both match. */
  lemma SelectorMatches(st: ParseState, rawLine: string, i: nat)
    requires ValidState(st) && st.section == PackagesSection
    requires NumberedRegex(TrimSpace(rawLine))
    requires !Contains(TrimSpace(rawLine), DescriptionMarker)
    requires var n := MatchNumbered(TrimSpace(rawLine)).value;
             FindLayer(st.layers, n.name, n.order) == Some(i)
    ensures Step(st, rawLine) == Ok(st.(current := Some(i)))
  {
    NumberedLineShape(rawLine);
    StepToPackages(st, rawLine);
    var t := TrimSpace(rawLine);
    assert !PackagesLineSkipped(t) && !MatchEmptyNumbered(t) && MatchNumbered(t).Some?;
  }

  /** A selector that matches no layer leaves the current layer unchanged:
      it is not reset, so later bullets still go to the previous layer. */
  lemma SelectorUnmatched(st: ParseState, rawLine: string)
    requires ValidState(st) && st.section == PackagesSection
    requires NumberedRegex(TrimSpace(rawLine))
    requires var n := MatchNumbered(TrimSpace(rawLine)).value;
             FindLayer(st.layers, n.name, n.order).None?
    ensures Step(st, rawLine) == Ok(st)
  {
    NumberedLineShape(rawLine);
    StepToPackages(st, rawLine);
    var t := TrimSpace(rawLine);
    assert !PackagesLineSkipped(t) ==> !MatchEmptyNumbered(t) && MatchNumbered(t).Some?;
  }

  lemma NumberedLineShape(rawLine: string)
    requires NumberedRegex(TrimSpace(rawLine))
    ensures HeaderSection(TrimSpace(rawLine)).None? && TrimSpace(rawLine) != ""
    ensures !HasPrefix(TrimSpace(rawLine), "#")
    ensures !EmptyNumberedRegex(TrimSpace(rawLine))
  {
    var t := TrimSpace(rawLine);
    NumberedLeadDigit(t);
    StartsWithDigit(t);
    if EmptyNumberedRegex(t) {
      EmptyNumberedShape(t);
    }
  }

  /** With no current layer, a bullet in the Packages section is dropped. */
  lemma BulletWithoutLayerDropped(st: ParseState, rawLine: string)
    requires ValidState(st) && st.section == PackagesSection && st.current.None?
    requires HasPrefix(TrimSpace(rawLine), BulletMarker)
    ensures Step(st, rawLine) == Ok(st)
  {
    BulletShape(rawLine);
  }

  lemma BulletShape(rawLine: string)
    requires HasPrefix(TrimSpace(rawLine), BulletMarker)
    ensures HeaderSection(TrimSpace(rawLine)).None? && TrimSpace(rawLine) != ""
    ensures !HasPrefix(TrimSpace(rawLine), "#")
    ensures !EmptyNumberedRegex(TrimSpace(rawLine)) && !NumberedRegex(TrimSpace(rawLine))
  {
    var t := TrimSpace(rawLine);
    PrefixLead(t, BulletMarker);
    PrefixLead(t, LayersHeader);
    PrefixLead(t, PackagesHeader);
    PrefixLead(t, "#");
    NumberedLeadDigit(t);
  }

  /** With a current layer, a bullet with a valid path appends exactly one
      package, with that path and the line's indentation level, at the end
      of the current layer; every other layer, and every name and order,
      stays as it was. */
  lemma BulletAppends(st: ParseState, rawLine: string)
    requires ValidState(st) && st.section == PackagesSection && st.current.Some?
    requires HasPrefix(TrimSpace(rawLine), BulletMarker)
    requires !Contains(TrimSpace(rawLine), DescriptionMarker)
    requires LayerPathIsValid(BulletPath(TrimSpace(rawLine)))
    ensures Step(st, rawLine) == Ok(st.(layers := AppendPackage(st.layers, st.current.value,
                                    Package(BulletPath(TrimSpace(rawLine)), IndentationLevel(rawLine)))))
  {
    BulletShape(rawLine);
    StepToPackages(st, rawLine);
  }

  /** With a current layer, a bullet whose path contains ".." is an error,
      and so the whole parse fails. */
  lemma BulletTraversalIsError(st: ParseState, rawLine: string)
    requires ValidState(st) && st.section == PackagesSection && st.current.Some?
    requires HasPrefix(TrimSpace(rawLine), BulletMarker)
    requires !Contains(TrimSpace(rawLine), DescriptionMarker)
    requires HasDotDot(BulletPath(TrimSpace(rawLine)))
    ensures Step(st, rawLine) == Err(InvalidPackagePath(LayerPathTraversal))
  {
    BulletShape(rawLine);
    BulletPathNotBlank(rawLine);
    StepToPackages(st, rawLine);
    var path := BulletPath(TrimSpace(rawLine));
    assert ValidateLayerPath(path) == Some(LayerPathTraversal);
  }
}
