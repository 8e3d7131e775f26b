/** Worked instances: the configuration the repository's own tests use for
    dependency lookup, and sample values for the validators and the
    package-name helper. */
module Examples {
  import opened Results
  import opened Text
  import opened Model
  import opened Dependencies
  import opened Lines

  /** Two layers: the domain layer with a level-1 service over two level-0
      packages, and the application layer above it. */
  const SampleLayers: seq<Layer> := [
    Layer("Domain layer", 1, [Package("domain/entity", 0), Package("domain/valueobject", 0),
                              Package("domain/service", 1)]),
    Layer("Application layer", 2, [Package("app/service", 0), Package("app/usecase", 1)])
  ]

  /** A level-0 package of the lowest layer depends on nothing. */
  lemma EntityDependencies()
    ensures DependencyPaths(SampleLayers, Package("domain/entity", 0)) == []
  {
    var pkgs := SampleLayers[0].packages;
    assert HasPath(pkgs, "domain/entity") by { assert pkgs[0].path == "domain/entity"; }
    assert TargetLayer(SampleLayers, "domain/entity") == Some(0);
    assert PathIndex(pkgs, "domain/entity") == Some(0);
    assert UpperPaths(SampleLayers[..1], 1) == [];
    var target := Package("domain/entity", 0);
    assert pkgs[..2][..1] == pkgs[..1];
    assert pkgs[..1][..0] == [];
    assert SiblingPaths(pkgs[..1], target, 0) == [];
    assert SiblingPaths(pkgs[..2], target, 0) == [];
  }

  /** The domain service depends on both level-0 domain packages. */
  lemma ServiceDependencies()
    ensures DependencyPaths(SampleLayers, Package("domain/service", 1)) == ["domain/entity", "domain/valueobject"]
  {
    var pkgs := SampleLayers[0].packages;
    var target := Package("domain/service", 1);
    assert HasPath(pkgs, "domain/service") by { assert pkgs[2].path == "domain/service"; }
    assert TargetLayer(SampleLayers, "domain/service") == Some(0);
    assert PathIndex(pkgs, "domain/service") == Some(2);
    assert UpperPaths(SampleLayers[..1], 1) == [];
    assert pkgs[..2][..1] == pkgs[..1];
    assert pkgs[..1][..0] == [];
    assert SiblingPaths(pkgs[..1], target, 2) == ["domain/entity"];
    assert SiblingPaths(pkgs[..2], target, 2) == ["domain/entity", "domain/valueobject"];
  }

  /** The application use case depends on the whole domain layer and on the
      application service. */
  lemma UseCaseDependencies()
    ensures DependencyPaths(SampleLayers, Package("app/usecase", 1))
            == ["domain/entity", "domain/valueobject", "domain/service", "app/service"]
  {
    var pkgs := SampleLayers[1].packages;
    var target := Package("app/usecase", 1);
    assert !HasPath(SampleLayers[0].packages, "app/usecase");
    assert HasPath(pkgs, "app/usecase") by { assert pkgs[1].path == "app/usecase"; }
    assert TargetLayer(SampleLayers, "app/usecase") == Some(1);
    assert PathIndex(pkgs, "app/usecase") == Some(1);
    var domain := SampleLayers[0].packages;
    assert domain[..2][..1] == domain[..1];
    assert domain[..1][..0] == [];
    assert Paths(domain) == ["domain/entity", "domain/valueobject", "domain/service"];
    assert SampleLayers[..1][..0] == [];
    assert UpperPaths(SampleLayers[..1], 2) == Paths(domain);
    assert UpperPaths(SampleLayers, 2) == Paths(domain);
    assert pkgs[..1][..0] == [];
    assert SiblingPaths(pkgs[..1], target, 1) == ["app/service"];
  }

  /** A package that no layer lists has no dependencies. */
  lemma UnknownPackageHasNoDependencies()
    ensures DependencyPaths(SampleLayers, Package("infra/db", 0)) == []
  {
  }

  /** The rejected rows of the layer-path tests: both paths climb out of
      their directory. */
  lemma TraversalPathRejected()
    ensures ValidateLayerPath("path/../other") == Some(LayerPathTraversal)
    ensures ValidateLayerPath("path/..") == Some(LayerPathTraversal)
  {
    DotPairRejected("path/../other", 5);
    DotPairRejected("path/..", 5);
  }

  /** A path starting with a visible character and holding a dot pair at
      `i` is the traversal error. */
  lemma DotPairRejected(p: string, i: nat)
    requires i + 1 < |p| && p[i] == '.' && p[i + 1] == '.' && !IsSpace(p[0])
    ensures ValidateLayerPath(p) == Some(LayerPathTraversal)
  {
    assert HasDotDot(p);
  }

  /** The accepted single-character rows of the layer-path tests. */
  lemma DotPathAccepted()
    ensures ValidateLayerPath(".") == None
    ensures ValidateLayerPath("/") == None
  {
    var p, q := ".", "/";
    assert !IsSpace(p[0]) && !HasDotDot(p);
    assert !IsSpace(q[0]) && !HasDotDot(q);
  }

  /** The indentation table of the parser's tests: fewer than four leading
      spaces is level 0, four or more is level 1. */
  lemma SampleIndentation()
    ensures IndentationLevel("- package/path") == 0
    ensures IndentationLevel("  - package/path") == 0
    ensures IndentationLevel("    - package/path") == 1
    ensures IndentationLevel("      - package/path") == 1
  {
    assert "- package/path"[0] == '-';
    assert "  - package/path"[2] == '-';
    assert "    - package/path"[..4] == "    ";
    assert "      - package/path"[..4] == "    ";
  }
}
