/** Mount points: of a set of paths, keep those that lie under no other. */
module MinimalPaths {
  /** A path as its parts; the root is a part. One path lies under another if that is a prefix,
      which is what Dafny's <= says of sequences. */
  type Path = seq<string>

  /** The order of Python strings, and of paths, part by part. */
  predicate StringBefore(a: string, b: string) {
    b != [] && (a == [] || a[0] < b[0] || (a[0] == b[0] && StringBefore(a[1..], b[1..])))
  }

  predicate SortsBefore(p: Path, q: Path) {
    if p == [] then true
    else if q == [] then false
    else if p[0] == q[0] then SortsBefore(p[1..], q[1..])
    else StringBefore(p[0], q[0])
  }

  /** The paths of a set that lie under no other path of it. */
  ghost function Minimal(paths: set<Path>): set<Path> {
    set p | p in paths && forall q :: q in paths && q <= p ==> q == p
  }

  ghost predicate Antichain(paths: set<Path>) {
    forall p, q :: p in paths && q in paths && p <= q ==> p == q
  }

  ghost predicate Covers(some: set<Path>, paths: set<Path>) {
    forall p :: p in paths ==> exists q :: q in some && q <= p
  }

  lemma {:induction false} HasMinimal(paths: set<Path>, p: Path) returns (q: Path)
    requires p in paths
    ensures q in Minimal(paths) && q <= p
    decreases |p|
  {
    if p in Minimal(paths) {
      q := p;
    } else {
      var r :| r in paths && r <= p && r != p;
      q := HasMinimal(paths, r);
    }
  }

  lemma MinimalCovers(paths: set<Path>)
    ensures Minimal(paths) <= paths && Antichain(Minimal(paths)) && Covers(Minimal(paths), paths)
  {
    forall p | p in paths ensures exists q :: q in Minimal(paths) && q <= p {
      var q := HasMinimal(paths, p);
    }
  }

  /** Minimal(paths) is the only antichain of paths that covers them all. */
  lemma MinimalIsUnique(paths: set<Path>, some: set<Path>)
    ensures some == Minimal(paths) <==> some <= paths && Antichain(some) && Covers(some, paths)
  {
    MinimalCovers(paths);
    if some <= paths && Antichain(some) && Covers(some, paths) {
      forall p | p in some ensures p in Minimal(paths) { CoverIsMinimal(paths, some, p); }
      forall p | p in Minimal(paths) ensures p in some {
        var r :| r in some && r <= p;
      }
    }
  }

  lemma CoverIsMinimal(paths: set<Path>, some: set<Path>, p: Path)
    requires some <= paths && Antichain(some) && Covers(some, paths) && p in some
    ensures p in Minimal(paths)
  {
    forall q | q in paths && q <= p ensures q == p {
      var r :| r in some && r <= q;
      assert r <= p;
    }
  }

  ghost predicate Sorted(order: seq<Path>) {
    forall i, j :: 0 <= i < j < |order| ==> SortsBefore(order[i], order[j])
  }

  /** A path never sorts after a path that lies under it. */
  lemma {:induction false} AncestorsFirst(p: Path, q: Path)
    requires q <= p && SortsBefore(p, q)
    ensures p == q
  {
    if q != [] {
      assert q[1..] <= p[1..];
      AncestorsFirst(p[1..], q[1..]);
      assert p == [p[0]] + p[1..] && q == [q[0]] + q[1..];
    }
  }

  /** What is minimal among one path more. */
  lemma OneMore(seen: set<Path>, path: Path)
    ensures if exists p :: p in Minimal(seen) && p <= path
            then Minimal(seen + {path}) == Minimal(seen)
            else Minimal(seen + {path}) == (set p | p in Minimal(seen) && !(path <= p)) + {path}
  {
    var all := seen + {path};
    if p :| p in Minimal(seen) && p <= path {
      forall q ensures q in Minimal(all) <==> q in Minimal(seen) {
        if q in Minimal(seen) && path <= q { assert p <= q; }
      }
    } else {
      AncestorMeansMinimal(seen, path);
      forall q ensures q in Minimal(all) <==> (q in Minimal(seen) && !(path <= q)) || q == path {
      }
    }
  }

  lemma AncestorMeansMinimal(seen: set<Path>, path: Path)
    ensures (exists r :: r in seen && r <= path) ==> exists p :: p in Minimal(seen) && p <= path
  {
    if r :| r in seen && r <= path {
      var m := HasMinimal(seen, r);
      assert m <= path;
    }
  }

  /** _minimize_paths, for any order in which the paths are visited; `removed` counts the paths
      that the loop took back. */
  method MinimizePaths(order: seq<Path>) returns (minimal: set<Path>, ghost removed: nat)
    ensures minimal == Minimal(set p | p in order)
    ensures Sorted(order) && (forall i, j :: 0 <= i < j < |order| ==> order[i] != order[j]) ==> removed == 0
  {
    minimal, removed := {}, 0;
    ghost var seen := {};
    for i := 0 to |order|
      invariant seen == set j | 0 <= j < i :: order[j]
      invariant minimal == Minimal(seen)
      invariant Sorted(order) && (forall i, j :: 0 <= i < j < |order| ==> order[i] != order[j]) ==> removed == 0
    {
      var path := order[i];
      OneMore(seen, path);
      seen := seen + {path};
      if !exists p :: p in minimal && p <= path {
        var below := set p | p in minimal && path <= p;
        removed := removed + |below|;
        if Sorted(order) && (forall i, j :: 0 <= i < j < |order| ==> order[i] != order[j]) && below != {} {
          var p :| p in below;
          var j :| 0 <= j < i && order[j] == p;
          AncestorsFirst(p, path);
        }
        minimal := (minimal - below) + {path};
      }
    }
    assert seen == set p | p in order;
  }
}
