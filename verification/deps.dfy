/** The layering rule of `GetDependenciesForPackage` (types.go): a package may
    depend on every package of a layer with a strictly smaller order, and on
    the packages of its own layer that are shallower, or equally deep and
    declared earlier. */
module Dependencies {
  import opened Results
  import opened Model

  /** Some package in `pkgs` has path `path`. */
  predicate HasPath(pkgs: seq<Package>, path: string) {
    exists j :: 0 <= j < |pkgs| && pkgs[j].path == path
  }

  /** The first layer, in declaration order, holding a package with `path`. */
  function TargetLayer(layers: seq<Layer>, path: string): (r: Option<nat>)
    ensures r.Some? ==> r.value < |layers| && HasPath(layers[r.value].packages, path)
    ensures r.Some? ==> forall k :: 0 <= k < r.value ==> !HasPath(layers[k].packages, path)
    ensures r.None? <==> forall k :: 0 <= k < |layers| ==> !HasPath(layers[k].packages, path)
  {
    Text.FirstWhere(layers, (l: Layer) => HasPath(l.packages, path))
  }

  /** The index of the first package with `path`. */
  function PathIndex(pkgs: seq<Package>, path: string): (r: Option<nat>)
    ensures r.Some? ==> r.value < |pkgs| && pkgs[r.value].path == path
    ensures r.Some? ==> forall k :: 0 <= k < r.value ==> pkgs[k].path != path
    ensures r.None? <==> !HasPath(pkgs, path)
  {
    Text.FirstWhere(pkgs, (p: Package) => p.path == path)
  }

  /** The paths of `pkgs`, in order. */
  function Paths(pkgs: seq<Package>): (r: seq<string>)
    ensures |r| == |pkgs|
    ensures forall j :: 0 <= j < |pkgs| ==> r[j] == pkgs[j].path
  {
    if |pkgs| == 0 then [] else Paths(pkgs[..|pkgs| - 1]) + [pkgs[|pkgs| - 1].path]
  }

  /** The upper-layer part: every path of every layer whose order is
      strictly below `order`, layers in declaration order. */
  function UpperPaths(layers: seq<Layer>, order: int): seq<string> {
    if |layers| == 0 then []
    else UpperPaths(layers[..|layers| - 1], order) + Contribution(layers[|layers| - 1], order)
  }

  /** What one layer adds to the upper part. */
  function Contribution(l: Layer, order: int): seq<string> {
    if l.order < order then Paths(l.packages) else []
  }

  /** Whether the package `p` at index `i` of the target's layer is a
      same-layer dependency of `target`, whose first index there is `ti`.
      The level compared is the argument's, not the stored one. */
  predicate SameLayerAllowed(p: Package, i: int, target: Package, ti: int) {
    p.path != target.path && (p.level < target.level || (p.level == target.level && i < ti))
  }

  /** The same-layer part: the allowed packages of the target's layer, in order. */
  function SiblingPaths(pkgs: seq<Package>, target: Package, ti: int): seq<string> {
    if |pkgs| == 0 then []
    else
      var n := |pkgs| - 1;
      SiblingPaths(pkgs[..n], target, ti) + (if SameLayerAllowed(pkgs[n], n, target, ti) then [pkgs[n].path] else [])
  }

  /** The reference definition of the dependency set: empty when no layer
      holds the target's path, otherwise the upper part followed by the
      same-layer part. */
  function DependencyPaths(layers: seq<Layer>, target: Package): seq<string> {
    match TargetLayer(layers, target.path)
    case None => []
    case Some(t) =>
      var pkgs := layers[t].packages;
      UpperPaths(layers, layers[t].order) + SiblingPaths(pkgs, target, PathIndex(pkgs, target.path).value)
  }

  /** `GetDependenciesForPackage`, loop for loop: find the target layer,
      collect the upper layers' paths, find the target's index, then collect
      the allowed same-layer paths. */
  method GetDependenciesForPackage(c: DependencyConfig, target: Package) returns (deps: seq<string>)
    ensures TargetLayer(c.layers, target.path).None? ==> deps == []
    ensures deps == DependencyPaths(c.layers, target)
  {
    var layers := c.layers;
    var found := FindTargetLayer(layers, target.path);
    if found.None? {
      return [];
    }
    var t := found.value;
    var pkgs := layers[t].packages;
    var upper := CollectUpperPaths(layers, layers[t].order);
    var targetIndex := FindTargetIndex(pkgs, target.path);
    deps := CollectSiblingPaths(upper, pkgs, target, targetIndex);
  }

  /** The first loop of `GetDependenciesForPackage`: scan layers, and inside
      each its packages, stopping at the first package with `path`. */
  method FindTargetLayer(layers: seq<Layer>, path: string) returns (found: Option<nat>)
    ensures found == TargetLayer(layers, path)
  {
    found := None;
    var i := 0;
    while i < |layers| && found.None?
      invariant 0 <= i <= |layers|
      invariant found.None? ==> forall k :: 0 <= k < i ==> !HasPath(layers[k].packages, path)
      invariant found.Some? ==> found.value < |layers| && HasPath(layers[found.value].packages, path)
      invariant found.Some? ==> forall k :: 0 <= k < found.value ==> !HasPath(layers[k].packages, path)
    {
      var j := 0;
      while j < |layers[i].packages|
        invariant 0 <= j <= |layers[i].packages|
        invariant found.None?
        invariant forall m :: 0 <= m < j ==> layers[i].packages[m].path != path
      {
        if layers[i].packages[j].path == path {
          found := Some(i);
          break;
        }
        j := j + 1;
      }
      i := i + 1;
    }
    FirstIsUnique(layers, path, found);
  }

  /** The second loop: every path of every layer with order below `order`. */
  method CollectUpperPaths(layers: seq<Layer>, order: int) returns (deps: seq<string>)
    ensures deps == UpperPaths(layers, order)
  {
    deps := [];
    var k := 0;
    while k < |layers|
      invariant 0 <= k <= |layers|
      invariant deps == UpperPaths(layers[..k], order)
    {
      if layers[k].order < order {
        deps := AppendPaths(deps, layers[k].packages);
      }
      assert layers[..k + 1][..k] == layers[..k];
      k := k + 1;
    }
    assert layers[..k] == layers;
  }

  /** The inner loop of the second loop: append the paths of `pkgs`. */
  method AppendPaths(base: seq<string>, pkgs: seq<Package>) returns (deps: seq<string>)
    ensures deps == base + Paths(pkgs)
  {
    deps := base;
    var j := 0;
    while j < |pkgs|
      invariant 0 <= j <= |pkgs|
      invariant deps == base + Paths(pkgs[..j])
    {
      assert pkgs[..j + 1][..j] == pkgs[..j];
      deps := deps + [pkgs[j].path];
      j := j + 1;
    }
    assert pkgs[..j] == pkgs;
  }

  /** The third loop: the first index of `path`, defaulting to 0 as Go's
      zero value does. */
  method FindTargetIndex(pkgs: seq<Package>, path: string) returns (targetIndex: nat)
    ensures HasPath(pkgs, path) ==> targetIndex == PathIndex(pkgs, path).value
    ensures !HasPath(pkgs, path) ==> targetIndex == 0
  {
    targetIndex := 0;
    var m := 0;
    while m < |pkgs|
      invariant 0 <= m <= |pkgs|
      invariant forall q :: 0 <= q < m ==> pkgs[q].path != path
    {
      if pkgs[m].path == path {
        targetIndex := m;
        break;
      }
      m := m + 1;
    }
  }

  /** The fourth loop: append the allowed same-layer paths to `upper`. */
  method CollectSiblingPaths(upper: seq<string>, pkgs: seq<Package>, target: Package, targetIndex: int)
    returns (deps: seq<string>)
    ensures deps == upper + SiblingPaths(pkgs, target, targetIndex)
  {
    deps := upper;
    var n := 0;
    while n < |pkgs|
      invariant 0 <= n <= |pkgs|
      invariant deps == upper + SiblingPaths(pkgs[..n], target, targetIndex)
    {
      assert pkgs[..n + 1][..n] == pkgs[..n];
      var p := pkgs[n];
      if p.path != target.path {
        if p.level < target.level || (p.level == target.level && n < targetIndex) {
          deps := deps + [p.path];
        }
      }
      n := n + 1;
    }
    assert pkgs[..n] == pkgs;
  }

  /** The loop's search result agrees with `TargetLayer`: a first match is unique. */
  lemma FirstIsUnique(layers: seq<Layer>, path: string, found: Option<nat>)
    requires found.None? ==> forall k :: 0 <= k < |layers| ==> !HasPath(layers[k].packages, path)
    requires found.Some? ==> found.value < |layers| && HasPath(layers[found.value].packages, path)
    requires found.Some? ==> forall k :: 0 <= k < found.value ==> !HasPath(layers[k].packages, path)
    ensures found == TargetLayer(layers, path)
  {
    var r := TargetLayer(layers, path);
    if found.Some? && r.Some? {
      if r.value < found.value {
      } else if found.value < r.value {
      }
    }
  }

  /** Upper layers are visited in declaration order: the upper part of
      `a + b` is that of `a` followed by that of `b`. */
  lemma {:induction false} UpperPathsAppend(a: seq<Layer>, b: seq<Layer>, order: int)
    ensures UpperPaths(a + b, order) == UpperPaths(a, order) + UpperPaths(b, order)
    decreases |b|
  {
    if |b| == 0 {
      assert a + b == a;
    } else {
      var b', last := b[..|b| - 1], b[|b| - 1];
      assert b == b' + [last];
      assert a + b == (a + b') + [last];
      UpperPathsSnoc(a + b', last, order);
      UpperPathsSnoc(b', last, order);
      UpperPathsAppend(a, b', order);
      ConcatAssoc(UpperPaths(a, order), UpperPaths(b', order), Contribution(last, order));
    }
  }

  /** Regrouping a concatenation. Kept as a lemma of its own so that the
      step in `UpperPathsAppend` is proved without that proof's context. */
  lemma ConcatAssoc<T>(x: seq<T>, y: seq<T>, z: seq<T>)
    ensures (x + y) + z == x + (y + z)
  {
  }

  /** Appending one layer appends its contribution. */
  lemma UpperPathsSnoc(layers: seq<Layer>, l: Layer, order: int)
    ensures UpperPaths(layers + [l], order) == UpperPaths(layers, order) + Contribution(l, order)
  {
    assert (layers + [l])[..|layers|] == layers;
  }

  /** A path is in the upper part exactly when some layer with order below
      `order` holds a package with it. */
  lemma {:induction false} UpperPathsMembers(layers: seq<Layer>, order: int, x: string)
    ensures x in UpperPaths(layers, order) <==>
      exists i :: 0 <= i < |layers| && layers[i].order < order && HasPath(layers[i].packages, x)
    decreases |layers|
  {
    if |layers| > 0 {
      var n := |layers| - 1;
      var front := layers[..n];
      var last := layers[n];
      var tail := Contribution(last, order);
      var lower := exists i :: 0 <= i < |layers| && layers[i].order < order && HasPath(layers[i].packages, x);
      assert layers == front + [last];
      UpperPathsSnoc(front, last, order);
      UpperPathsMembers(front, order, x);
      assert x in UpperPaths(layers, order) ==> lower by {
        PathsMembers(last.packages, x);
        if x in UpperPaths(front, order) {
          var i :| 0 <= i < |front| && front[i].order < order && HasPath(front[i].packages, x);
          assert layers[i] == front[i];
        } else if x in tail {
          assert layers[n].order < order && HasPath(layers[n].packages, x);
        }
      }
      assert lower ==> x in UpperPaths(layers, order) by {
        if lower {
          var i :| 0 <= i < |layers| && layers[i].order < order && HasPath(layers[i].packages, x);
          if i < n {
            assert front[i] == layers[i];
            assert x in UpperPaths(front, order);
          } else {
            PathsMembers(last.packages, x);
            assert x in tail;
          }
        }
      }
    }
  }

  /** A path is among the paths of `pkgs` exactly when some package has it. */
  lemma PathsMembers(pkgs: seq<Package>, x: string)
    ensures x in Paths(pkgs) <==> HasPath(pkgs, x)
  {
    var ps := Paths(pkgs);
    if x in ps {
      var j :| 0 <= j < |ps| && ps[j] == x;
      assert pkgs[j].path == x;
    }
    if HasPath(pkgs, x) {
      var j :| 0 <= j < |pkgs| && pkgs[j].path == x;
      assert ps[j] == x;
    }
  }

  /** A layer whose order is not below `order` contributes nothing: it can be
      removed without changing the upper part. In particular the target
      layer never contributes to its own upper part. */
  lemma UpperPathsSkipLayer(layers: seq<Layer>, order: int, t: nat)
    requires t < |layers| && layers[t].order >= order
    ensures UpperPaths(layers, order) == UpperPaths(layers[..t] + layers[t + 1..], order)
  {
    var a, b := layers[..t], layers[t + 1..];
    assert layers == (a + [layers[t]]) + b;
    UpperPathsAppend(a + [layers[t]], b, order);
    UpperPathsSnoc(a, layers[t], order);
    assert UpperPaths(a + [layers[t]], order) == UpperPaths(a, order);
    UpperPathsAppend(a, b, order);
  }

  /** A path is in the same-layer part exactly when the package at some
      index `i` is allowed and has it. */
  lemma {:induction false} SiblingPathsMembers(pkgs: seq<Package>, target: Package, ti: int, x: string)
    ensures x in SiblingPaths(pkgs, target, ti) <==>
      exists i :: 0 <= i < |pkgs| && SameLayerAllowed(pkgs[i], i, target, ti) && pkgs[i].path == x
    decreases |pkgs|
  {
    if |pkgs| > 0 {
      var n := |pkgs| - 1;
      var front := pkgs[..n];
      SiblingPathsMembers(front, target, ti, x);
      assert forall i :: 0 <= i < n ==> front[i] == pkgs[i];
    }
  }

  /** The same-layer part never names the target's own path, and has at most
      as many entries as the layer has packages. */
  lemma {:induction false} SiblingPathsExcludeTarget(pkgs: seq<Package>, target: Package, ti: int)
    ensures target.path !in SiblingPaths(pkgs, target, ti)
    ensures |SiblingPaths(pkgs, target, ti)| <= |pkgs|
    decreases |pkgs|
  {
    if |pkgs| > 0 {
      SiblingPathsExcludeTarget(pkgs[..|pkgs| - 1], target, ti);
    }
  }

  /** The upper part is no longer than all packages of the layers, less the
      packages of a layer `t` that does not contribute to it. */
  lemma {:induction false} UpperPathsBound(layers: seq<Layer>, order: int, t: int)
    requires -1 <= t < |layers|
    requires t >= 0 ==> layers[t].order >= order
    ensures |UpperPaths(layers, order)| + (if t >= 0 then |layers[t].packages| else 0) <= |GetAllPackages(layers)|
    decreases |layers|
  {
    if |layers| > 0 {
      var n := |layers| - 1;
      var front := layers[..n];
      if t == n {
        UpperPathsBound(front, order, -1);
      } else {
        if t >= 0 {
          assert front[t] == layers[t];
        }
        UpperPathsBound(front, order, t);
      }
    }
  }

  /** The dependency set is never longer than the list of all packages. */
  lemma DependenciesBound(layers: seq<Layer>, target: Package)
    ensures |DependencyPaths(layers, target)| <= |GetAllPackages(layers)|
  {
    match TargetLayer(layers, target.path)
    case None =>
    case Some(t) =>
      var pkgs := layers[t].packages;
      UpperPathsBound(layers, layers[t].order, t);
      SiblingPathsExcludeTarget(pkgs, target, PathIndex(pkgs, target.path).value);
  }

  /** The layering rule, stated over the whole dependency set: `x` is a
      dependency of `target` exactly when the target's path is found in some
      layer `t` (the first) and `x` is either a path of a layer with a
      smaller order than layer `t`, or the path of an allowed package of
      layer `t`. */
  lemma DependenciesMembers(layers: seq<Layer>, target: Package, x: string)
    ensures x in DependencyPaths(layers, target) <==>
      exists t :: TargetLayer(layers, target.path) == Some(t) &&
        ((exists i :: 0 <= i < |layers| && layers[i].order < layers[t].order &&
            HasPath(layers[i].packages, x))
         || (exists i :: 0 <= i < |layers[t].packages| &&
               SameLayerAllowed(layers[t].packages[i], i, target, PathIndex(layers[t].packages, target.path).value) &&
               layers[t].packages[i].path == x))
  {
    match TargetLayer(layers, target.path)
    case None =>
    case Some(t) =>
      var pkgs := layers[t].packages;
      UpperPathsMembers(layers, layers[t].order, x);
      SiblingPathsMembers(pkgs, target, PathIndex(pkgs, target.path).value, x);
  }
}
