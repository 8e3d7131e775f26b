/** The data model of types.go: packages, layers and the whole dependency
    configuration, the validators of the four name-like string types, and
    the simple read-only queries over a configuration. */
module Model {
  import opened Results
  import opened Text

  /** A package path with its nesting level inside its layer (Go `int`). */
  datatype Package = Package(path: string, level: int)

  /** A layer: its name, the order written in the text, and its packages in
      declaration order. */
  datatype Layer = Layer(name: string, order: int, packages: seq<Package>)

  /** The parsed configuration: layers in declaration order. */
  datatype DependencyConfig = DependencyConfig(layers: seq<Layer>)

  /** The reason a `Validate` method gives for rejecting its value. */
  datatype ValidationError =
    | EmptyLayerName
    | EmptyLayerPath
    | LayerPathTraversal
    | EmptyModuleName
    | ModuleNameHasSpace
    | EmptyPackageName
    | PackageNameHasSlash

  /** `s != "" && strings.TrimSpace(s) != ""`, the test all four types share. */
  predicate NotBlank(s: string) {
    s != "" && TrimSpace(s) != ""
  }

  /** Some character of `s` is not whitespace. */
  predicate HasVisibleChar(s: string) {
    exists i :: 0 <= i < |s| && !IsSpace(s[i])
  }

  /** Some two adjacent characters of `s` are both '.'. */
  predicate HasDotDot(s: string) {
    exists i :: 0 <= i < |s| - 1 && s[i] == '.' && s[i + 1] == '.'
  }

  predicate LayerNameIsValid(n: string) {
    NotBlank(n)
  }

  predicate LayerPathIsValid(p: string) {
    NotBlank(p) && !Contains(p, "..")
  }

  predicate ModuleNameIsValid(m: string) {
    NotBlank(m) && !Contains(m, " ")
  }

  predicate PackageNameIsValid(n: string) {
    NotBlank(n) && !Contains(n, "/")
  }

  /** Not blank means some character is visible. */
  lemma NotBlankIff(s: string)
    ensures NotBlank(s) <==> HasVisibleChar(s)
  {
  }

  /** Containing a one-character string is membership of that character. */
  lemma ContainsCharIff(s: string, c: char)
    ensures Contains(s, [c]) <==> c in s
  {
    ContainsIff(s, [c]);
    if c in s {
      var i :| 0 <= i < |s| && s[i] == c;
      assert HasPrefix(s[i..], [c]);
    }
    if Contains(s, [c]) {
      var i :| 0 <= i <= |s| && HasPrefix(s[i..], [c]);
      assert s[i..][0] == c;
    }
  }

  /** Containing ".." is having two adjacent dots. */
  lemma ContainsDotDotIff(s: string)
    ensures Contains(s, "..") <==> HasDotDot(s)
  {
    ContainsIff(s, "..");
    if Contains(s, "..") {
      var i :| 0 <= i <= |s| && HasPrefix(s[i..], "..");
      assert s[i..][0] == s[i] && s[i..][1] == s[i + 1];
    }
    if HasDotDot(s) {
      var i :| 0 <= i < |s| - 1 && s[i] == '.' && s[i + 1] == '.';
      assert s[i..][..2] == "..";
    }
  }

  /** `LayerName.IsValid` in terms of characters. */
  lemma LayerNameValidIff(n: string)
    ensures LayerNameIsValid(n) <==> HasVisibleChar(n)
  {
    NotBlankIff(n);
  }

  /** `LayerPath.IsValid`: some visible character and no two adjacent dots. */
  lemma LayerPathValidIff(p: string)
    ensures LayerPathIsValid(p) <==> HasVisibleChar(p) && !HasDotDot(p)
  {
    NotBlankIff(p);
    ContainsDotDotIff(p);
  }

  /** `ModuleName.IsValid`: some visible character and no ASCII space. */
  lemma ModuleNameValidIff(m: string)
    ensures ModuleNameIsValid(m) <==> HasVisibleChar(m) && ' ' !in m
  {
    NotBlankIff(m);
    ContainsCharIff(m, ' ');
  }

  /** `PackageName.IsValid`: some visible character and no '/'. */
  lemma PackageNameValidIff(n: string)
    ensures PackageNameIsValid(n) <==> HasVisibleChar(n) && '/' !in n
  {
    NotBlankIff(n);
    ContainsCharIff(n, '/');
  }

  /** `LayerName.Validate`: an error exactly for an all-whitespace name. */
  function ValidateLayerName(n: string): (r: Option<ValidationError>)
    ensures r.None? <==> LayerNameIsValid(n)
    ensures r.Some? <==> AllSpace(n)
    ensures r.Some? ==> r.value == EmptyLayerName
  {
    if !LayerNameIsValid(n) then Some(EmptyLayerName) else None
  }

  /** `LayerPath.Validate`: blankness is checked before the ".." test. */
  function ValidateLayerPath(p: string): (r: Option<ValidationError>)
    ensures r.None? <==> LayerPathIsValid(p)
    ensures r == Some(EmptyLayerPath) <==> AllSpace(p)
    ensures r == Some(LayerPathTraversal) <==> HasVisibleChar(p) && HasDotDot(p)
  {
    ContainsDotDotIff(p);
    if p == "" || TrimSpace(p) == "" then Some(EmptyLayerPath)
    else if Contains(p, "..") then Some(LayerPathTraversal)
    else None
  }

  /** `ModuleName.Validate`: blankness first, then the space test. */
  function ValidateModuleName(m: string): (r: Option<ValidationError>)
    ensures r.None? <==> ModuleNameIsValid(m)
    ensures r == Some(EmptyModuleName) <==> AllSpace(m)
    ensures r == Some(ModuleNameHasSpace) <==> HasVisibleChar(m) && ' ' in m
  {
    ContainsCharIff(m, ' ');
    if m == "" || TrimSpace(m) == "" then Some(EmptyModuleName)
    else if Contains(m, " ") then Some(ModuleNameHasSpace)
    else None
  }

  /** `PackageName.Validate`: blankness first, then the '/' test. */
  function ValidatePackageName(n: string): (r: Option<ValidationError>)
    ensures r.None? <==> PackageNameIsValid(n)
    ensures r == Some(EmptyPackageName) <==> AllSpace(n)
    ensures r == Some(PackageNameHasSlash) <==> HasVisibleChar(n) && '/' in n
  {
    ContainsCharIff(n, '/');
    if n == "" || TrimSpace(n) == "" then Some(EmptyPackageName)
    else if Contains(n, "/") then Some(PackageNameHasSlash)
    else None
  }

  /** The sum of the package counts of `layers`. */
  function PackageCount(layers: seq<Layer>): nat {
    if |layers| == 0 then 0
    else PackageCount(layers[..|layers| - 1]) + |layers[|layers| - 1].packages|
  }

  /** `GetAllPackages`: every layer's packages, layer after layer. Its length
      is the sum of the per-layer counts and it holds exactly the packages
      some layer holds. */
  function GetAllPackages(layers: seq<Layer>): (r: seq<Package>)
    ensures |r| == PackageCount(layers)
    ensures forall p :: p in r <==> exists i :: 0 <= i < |layers| && p in layers[i].packages
  {
    if |layers| == 0 then []
    else
      var front := layers[..|layers| - 1];
      assert forall i :: 0 <= i < |front| ==> front[i] == layers[i];
      GetAllPackages(front) + layers[|layers| - 1].packages
  }

  /** Packages are concatenated in layer order: the packages of `a + b`
      are those of `a` followed by those of `b`. */
  lemma {:induction false} GetAllPackagesAppend(a: seq<Layer>, b: seq<Layer>)
    ensures GetAllPackages(a + b) == GetAllPackages(a) + GetAllPackages(b)
    decreases |b|
  {
    if |b| == 0 {
      assert a + b == a;
    } else {
      var b' := b[..|b| - 1];
      assert (a + b)[..|a + b| - 1] == a + b';
      GetAllPackagesAppend(a, b');
    }
  }

  /** `GetPackagesByLayer`: the packages of the first layer with that name,
      or `None` (Go's nil) when no layer has it. */
  function GetPackagesByLayer(layers: seq<Layer>, name: string): (r: Option<seq<Package>>)
    ensures r.None? <==> forall i :: 0 <= i < |layers| ==> layers[i].name != name
    ensures r.Some? ==> exists i :: 0 <= i < |layers| && layers[i].name == name
                          && r.value == layers[i].packages
                          && forall k :: 0 <= k < i ==> layers[k].name != name
  {
    match FirstWhere(layers, (l: Layer) => l.name == name)
    case None => None
    case Some(i) => Some(layers[i].packages)
  }

  /** `strings.Split(s, string(sep))`: the pieces between separators. */
  function Split(s: string, sep: char): (parts: seq<string>)
    ensures |parts| >= 1
    ensures forall k :: 0 <= k < |parts| ==> sep !in parts[k]
    ensures Join(parts, sep) == s
  {
    if |s| == 0 then [[]]
    else
      var rest := Split(s[1..], sep);
      if s[0] == sep then [[]] + rest
      else [[s[0]] + rest[0]] + rest[1..]
  }

  /** `strings.Join`, the inverse of `Split`. */
  function Join(parts: seq<string>, sep: char): string
    requires |parts| >= 1
  {
    if |parts| == 1 then parts[0] else parts[0] + [sep] + Join(parts[1..], sep)
  }

  /** Joining splits off the last piece behind the last separator. */
  lemma {:induction false} JoinLast(parts: seq<string>, sep: char)
    requires |parts| >= 2
    ensures Join(parts, sep) == Join(parts[..|parts| - 1], sep) + [sep] + parts[|parts| - 1]
    decreases |parts|
  {
    if |parts| > 2 {
      JoinLast(parts[1..], sep);
      assert parts[1..][..|parts| - 2] == parts[..|parts| - 1][1..];
    }
  }

  /** `GetPackageName`: the last piece of the path split at '/'. It contains
      no '/', is a suffix of the path, and is either the whole path or
      preceded by a '/'. */
  function GetPackageName(path: string): (r: string)
    ensures '/' !in r
    ensures |r| <= |path| && r == path[|path| - |r|..]
    ensures |r| == |path| || path[|path| - |r| - 1] == '/'
    ensures '/' !in path ==> r == path
  {
    var parts := Split(path, '/');
    if |parts| >= 2 then JoinLast(parts, '/'); parts[|parts| - 1]
    else parts[0]
  }

  /** The package name is the text after the last '/' of the path. */
  lemma PackageNameAfterLastSlash(path: string, i: nat)
    requires i < |path| && path[i] == '/'
    requires forall k :: i < k < |path| ==> path[k] != '/'
    ensures GetPackageName(path) == path[i + 1..]
  {
    var r := GetPackageName(path);
    assert |path| - |r| == i + 1;
  }
}
