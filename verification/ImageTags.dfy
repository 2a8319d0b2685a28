/** Content tags of Docker images: each tag hashes the image's Dockerfile and the tags of the
    images it depends on. */
module ImageTags {
  import opened Options

  type Name = string

  datatype Dep = Dep(arg: string, image: Name)

  /** An image's configuration: its dependencies in declaration order, its Dockerfile if one of
      the search paths has it, and its extra build arguments (EXTRA_PACKAGES and so on) with their
      values. */
  datatype Image = Image(deps: seq<Dep>, dockerfile: Option<string>, extras: seq<(string, string)>)

  type Config = map<Name, Image>

  /** The hash is not looked into; the repository may be empty. */
  datatype Settings = Settings(sha: (string, seq<string>) -> string, repo: string, namespace: string, arch: string)

  datatype Result = Tag(tag: string) | UnknownImage(name: Name) | NoDockerfile(name: Name)

  function ImageTag(s: Settings, name: Name, sha: string): string {
    var image := s.namespace + "/" + name + ":" + s.arch + "-" + sha;
    if s.repo != "" then s.repo + "/" + image else image
  }

  function Assigned(arg: (string, string)): string {
    arg.0 + "=" + arg.1
  }

  /** "ARG=value" for the extra arguments. */
  function ExtraLines(extras: seq<(string, string)>): (r: seq<string>)
    ensures |r| == |extras|
  {
    seq(|extras|, i requires 0 <= i < |extras| => Assigned(extras[i]))
  }

  // Sorting of build arguments.

  predicate StringLe(a: string, b: string) {
    a == [] || (b != [] && (a[0] < b[0] || (a[0] == b[0] && StringLe(a[1..], b[1..]))))
  }

  lemma {:induction false} StringLeTotal(a: string, b: string)
    ensures StringLe(a, b) || StringLe(b, a)
    ensures StringLe(a, b) && StringLe(b, a) ==> a == b
  {
    if a != [] && b != [] {
      StringLeTotal(a[1..], b[1..]);
      if a[0] == b[0] && a[1..] == b[1..] {
        assert a == [a[0]] + a[1..] && b == [b[0]] + b[1..];
      }
    }
  }

  lemma {:induction false} StringLeTransitive(a: string, b: string, c: string)
    requires StringLe(a, b) && StringLe(b, c)
    ensures StringLe(a, c)
  {
    if a != [] && b[0] == a[0] && c[0] == b[0] { StringLeTransitive(a[1..], b[1..], c[1..]); }
  }

  /** Up to some place the two are the same, and there the first ends, or has the smaller character. */
  ghost predicate Ascends(a: string, b: string) {
    exists k: nat :: k <= |a| && k <= |b| && a[..k] == b[..k] && (k == |a| || (k < |b| && a[k] < b[k]))
  }

  lemma {:induction false} StringLeAscends(a: string, b: string)
    ensures StringLe(a, b) <==> Ascends(a, b)
  {
    if StringLe(a, b) {
      if a == [] {
        assert a[..0] == b[..0];
      } else if a[0] < b[0] {
        assert a[..0] == b[..0];
      } else {
        StringLeAscends(a[1..], b[1..]);
        var k: nat :| k <= |a| - 1 && k <= |b| - 1 && a[1..][..k] == b[1..][..k]
          && (k == |a| - 1 || (k < |b| - 1 && a[1..][k] < b[1..][k]));
        assert a[..k + 1] == [a[0]] + a[1..][..k] == b[..k + 1];
      }
    }
    if Ascends(a, b) && a != [] {
      var k: nat :| k <= |a| && k <= |b| && a[..k] == b[..k] && (k == |a| || (k < |b| && a[k] < b[k]));
      if k > 0 {
        assert a[0] == a[..k][0] == b[..k][0] == b[0];
        assert a[1..][..k - 1] == a[..k][1..] == b[1..][..k - 1];
        StringLeAscends(a[1..], b[1..]);
      }
    }
  }

  predicate SortedStrings(s: seq<string>) {
    forall i, j :: 0 <= i < j < |s| ==> StringLe(s[i], s[j])
  }

  function Insert(s: seq<string>, x: string): seq<string> {
    if s == [] || StringLe(x, s[0]) then [x] + s else [s[0]] + Insert(s[1..], x)
  }

  /** list.sort(). */
  function Sort(s: seq<string>): seq<string> {
    if s == [] then [] else Insert(Sort(s[1..]), s[0])
  }

  lemma {:induction false} InsertSorts(s: seq<string>, x: string)
    requires SortedStrings(s)
    ensures SortedStrings(Insert(s, x)) && multiset(Insert(s, x)) == multiset(s) + multiset{x}
  {
    if s == [] {
    } else if StringLe(x, s[0]) {
      forall j | 0 <= j < |s| ensures StringLe(x, s[j]) {
        if j > 0 { StringLeTransitive(x, s[0], s[j]); }
      }
    } else {
      StringLeTotal(x, s[0]);
      InsertSorts(s[1..], x);
      assert s == [s[0]] + s[1..];
      var t := Insert(s[1..], x);
      forall j | 0 <= j < |t| ensures StringLe(s[0], t[j]) {
        assert t[j] in multiset(t);
        if t[j] != x {
          assert t[j] in multiset(s[1..]);
          var k :| 0 <= k < |s[1..]| && s[1..][k] == t[j];
          assert s[k + 1] == t[j];
        }
      }
    }
  }

  lemma {:induction false} SortSorts(s: seq<string>)
    ensures SortedStrings(Sort(s)) && multiset(Sort(s)) == multiset(s)
  {
    if s != [] {
      SortSorts(s[1..]);
      InsertSorts(Sort(s[1..]), s[0]);
      assert s == [s[0]] + s[1..];
    }
  }

  lemma SameHead(a: seq<string>, b: seq<string>)
    requires SortedStrings(a) && SortedStrings(b) && multiset(a) == multiset(b) && a != []
    ensures b != [] && a[0] == b[0]
  {
    hide StringLe;
    assert a[0] in multiset(b);
    var i :| 0 <= i < |b| && b[i] == a[0];
    assert b[0] in multiset(a);
    var j :| 0 <= j < |a| && a[j] == b[0];
    StringLeTotal(a[0], b[0]);
    StringLeTotal(a[0], a[0]);
    StringLeTotal(b[0], b[0]);
  }

  lemma TailOf(a: seq<string>)
    requires SortedStrings(a) && a != []
    ensures SortedStrings(a[1..]) && multiset(a[1..]) == multiset(a) - multiset{a[0]}
  {
    hide StringLe;
    assert a == [a[0]] + a[1..];
  }

  lemma {:induction false} SortedUnique(a: seq<string>, b: seq<string>)
    requires SortedStrings(a) && SortedStrings(b) && multiset(a) == multiset(b)
    ensures a == b
  {
    hide SortedStrings;
    if a == [] {
      assert |multiset(b)| == 0;
    } else {
      SameHead(a, b);
      TailOf(a);
      TailOf(b);
      SortedUnique(a[1..], b[1..]);
      assert a == [a[0]] + a[1..] && b == [b[0]] + b[1..];
    }
  }

  /** The order in which the arguments were collected does not matter. */
  lemma SortForgetsOrder(a: seq<string>, b: seq<string>)
    requires multiset(a) == multiset(b)
    ensures Sort(a) == Sort(b)
  {
    SortSorts(a);
    SortSorts(b);
    SortedUnique(Sort(a), Sort(b));
  }

  // What a tag is.

  /** A set of images closed under dependency, ranked so that dependencies come lower. */
  ghost predicate Ranked(c: Config, nodes: set<Name>, rank: Name -> nat) {
    forall n, i :: n in nodes && n in c && 0 <= i < |c[n].deps| ==>
      c[n].deps[i].image in nodes && rank(c[n].deps[i].image) < rank(n)
  }

  /** The plain recursive definition, without any memory. */
  ghost function TagOf(s: Settings, c: Config, nodes: set<Name>, rank: Name -> nat, name: Name): Result
    requires Ranked(c, nodes, rank) && name in nodes
    decreases rank(name), 1, 0
  {
    if name !in c then UnknownImage(name)
    else if c[name].dockerfile == None then NoDockerfile(name)
    else
      match ArgsOf(s, c, nodes, rank, name, 0)
      case Failed(r) => r
      case Args(args) =>
        Tag(ImageTag(s, name, s.sha(c[name].dockerfile.value, Sort(args + ExtraLines(c[name].extras)))))
  }

  datatype Arguments = Args(args: seq<string>) | Failed(r: Result)

  /** "ARG=tag" for the dependencies from the i-th on; the first failure wins. */
  ghost function ArgsOf(s: Settings, c: Config, nodes: set<Name>, rank: Name -> nat, name: Name, i: nat): (a: Arguments)
    requires Ranked(c, nodes, rank) && name in nodes && name in c && i <= |c[name].deps|
    ensures a.Failed? ==> !a.r.Tag?
    decreases rank(name), 0, |c[name].deps| - i
  {
    if i == |c[name].deps| then Args([])
    else
      var d := c[name].deps[i];
      var r := TagOf(s, c, nodes, rank, d.image);
      if !r.Tag? then Failed(r)
      else
        match ArgsOf(s, c, nodes, rank, name, i + 1)
        case Args(args) => Args([d.arg + "=" + r.tag] + args)
        case Failed(r) => Failed(r)
  }

  /** A tag does not depend on which images are being processed, nor on their ranks. */
  lemma {:induction false} TagIsIntrinsic(s: Settings, c: Config, nodes: set<Name>, rank: Name -> nat,
                                          nodes': set<Name>, rank': Name -> nat, name: Name)
    requires Ranked(c, nodes, rank) && Ranked(c, nodes', rank') && name in nodes && name in nodes'
    ensures TagOf(s, c, nodes, rank, name) == TagOf(s, c, nodes', rank', name)
    decreases rank(name), 1, 0
  {
    if name in c && c[name].dockerfile != None {
      ArgsAreIntrinsic(s, c, nodes, rank, nodes', rank', name, 0);
    }
  }

  lemma {:induction false} ArgsAreIntrinsic(s: Settings, c: Config, nodes: set<Name>, rank: Name -> nat,
                                            nodes': set<Name>, rank': Name -> nat, name: Name, i: nat)
    requires Ranked(c, nodes, rank) && Ranked(c, nodes', rank') && name in nodes && name in nodes'
    requires name in c && i <= |c[name].deps|
    ensures ArgsOf(s, c, nodes, rank, name, i) == ArgsOf(s, c, nodes', rank', name, i)
    decreases rank(name), 0, |c[name].deps| - i
  {
    if i < |c[name].deps| {
      TagIsIntrinsic(s, c, nodes, rank, nodes', rank', c[name].deps[i].image);
      ArgsAreIntrinsic(s, c, nodes, rank, nodes', rank', name, i + 1);
    }
  }

  /** Every dependency has a tag. */
  ghost predicate DepsTagged(s: Settings, c: Config, nodes: set<Name>, rank: Name -> nat, name: Name)
    requires Ranked(c, nodes, rank) && name in nodes && name in c
  {
    forall i :: 0 <= i < |c[name].deps| ==> TagOf(s, c, nodes, rank, c[name].deps[i].image).Tag?
  }

  /** For each dependency its argument's name, "=" and the dependency's tag, and for each extra argument
      its name, "=" and its value. */
  ghost function BuildLines(s: Settings, c: Config, nodes: set<Name>, rank: Name -> nat, name: Name): seq<string>
    requires Ranked(c, nodes, rank) && name in nodes && name in c && DepsTagged(s, c, nodes, rank, name)
  {
    var deps, extras := c[name].deps, c[name].extras;
    seq(|deps|, i requires 0 <= i < |deps| => deps[i].arg + "=" + TagOf(s, c, nodes, rank, deps[i].image).tag)
    + seq(|extras|, i requires 0 <= i < |extras| => extras[i].0 + "=" + extras[i].1)
  }

  /** These lines, each as often as it occurs, in ascending order. */
  ghost predicate HashLines(s: Settings, c: Config, nodes: set<Name>, rank: Name -> nat, name: Name, lines: seq<string>)
    requires Ranked(c, nodes, rank) && name in nodes && name in c
  {
    && DepsTagged(s, c, nodes, rank, name)
    && multiset(lines) == multiset(BuildLines(s, c, nodes, rank, name))
    && forall i, j :: 0 <= i < j < |lines| ==> Ascends(lines[i], lines[j])
  }

  /** What a tag spells: the repository if there is one, the namespace, the image's name, the machine and
      the hash of the Dockerfile with these lines. */
  lemma TagSpells(s: Settings, c: Config, nodes: set<Name>, rank: Name -> nat, name: Name) returns (lines: seq<string>)
    requires Ranked(c, nodes, rank) && name in nodes && TagOf(s, c, nodes, rank, name).Tag?
    ensures name in c && c[name].dockerfile.Some? && HashLines(s, c, nodes, rank, name, lines)
    ensures TagOf(s, c, nodes, rank, name).tag
         == (if s.repo == "" then "" else s.repo + "/") + s.namespace + "/" + name + ":" + s.arch + "-"
            + s.sha(c[name].dockerfile.value, lines)
  {
    ArgsMeanTags(s, c, nodes, rank, name, 0);
    var args := ArgsOf(s, c, nodes, rank, name, 0).args;
    AllLines(s, c, nodes, rank, name);
    lines := Sort(args + ExtraLines(c[name].extras));
    hide ArgsOf, Ranked;
    SortAscends(args + ExtraLines(c[name].extras));
    TagShape(s, name, s.sha(c[name].dockerfile.value, lines));
    hide Ascends, Sort, ImageTag, BuildLines;
  }

  lemma SortAscends(all: seq<string>)
    ensures multiset(Sort(all)) == multiset(all)
    ensures forall i, j :: 0 <= i < j < |Sort(all)| ==> Ascends(Sort(all)[i], Sort(all)[j])
  {
    hide Sort, StringLe, Ascends;
    SortSorts(all);
    var lines := Sort(all);
    forall i, j | 0 <= i < j < |lines| ensures Ascends(lines[i], lines[j]) { StringLeAscends(lines[i], lines[j]); }
  }

  lemma AllLines(s: Settings, c: Config, nodes: set<Name>, rank: Name -> nat, name: Name)
    requires Ranked(c, nodes, rank) && name in nodes && name in c && ArgsOf(s, c, nodes, rank, name, 0).Args?
    requires DepsTagged(s, c, nodes, rank, name)
    ensures ArgsOf(s, c, nodes, rank, name, 0).args + ExtraLines(c[name].extras) == BuildLines(s, c, nodes, rank, name)
  {
    var deps, extras := c[name].deps, c[name].extras;
    ArgsAre(s, c, nodes, rank, name, 0);
    hide TagOf, ArgsOf, Ranked;
    assert ArgsOf(s, c, nodes, rank, name, 0).args
        == seq(|deps|, i requires 0 <= i < |deps| => deps[i].arg + "=" + TagOf(s, c, nodes, rank, deps[i].image).tag);
    assert ExtraLines(extras) == seq(|extras|, i requires 0 <= i < |extras| => extras[i].0 + "=" + extras[i].1);
  }

  lemma TagShape(s: Settings, name: Name, sha: string)
    ensures ImageTag(s, name, sha)
         == (if s.repo == "" then "" else s.repo + "/") + s.namespace + "/" + name + ":" + s.arch + "-" + sha
  {
    var image := s.namespace + "/" + name + ":" + s.arch + "-" + sha;
    if s.repo != "" { assert s.repo + "/" + image == s.repo + "/" + s.namespace + "/" + name + ":" + s.arch + "-" + sha; }
  }

  lemma {:induction false} ArgsAre(s: Settings, c: Config, nodes: set<Name>, rank: Name -> nat, name: Name, i: nat)
    requires Ranked(c, nodes, rank) && name in nodes && name in c && i <= |c[name].deps|
    requires ArgsOf(s, c, nodes, rank, name, i).Args?
    ensures var args := ArgsOf(s, c, nodes, rank, name, i).args;
            && |args| == |c[name].deps| - i
            && forall j :: i <= j < |c[name].deps| ==>
                 var d := c[name].deps[j];
                 var r := TagOf(s, c, nodes, rank, d.image);
                 r.Tag? && args[j - i] == d.arg + "=" + r.tag
    decreases |c[name].deps| - i
  {
    if i < |c[name].deps| { ArgsAre(s, c, nodes, rank, name, i + 1); }
  }

  /** Two configurations that differ only in the order in which dependencies are declared. */
  ghost predicate Reordered(c: Config, c': Config) {
    && c.Keys == c'.Keys
    && forall n :: n in c ==>
         && c[n].dockerfile == c'[n].dockerfile
         && c[n].extras == c'[n].extras
         && multiset(c[n].deps) == multiset(c'[n].deps)
  }

  function Line(t: Name -> string, d: Dep): string {
    d.arg + "=" + t(d.image)
  }

  function Lines(t: Name -> string, deps: seq<Dep>): seq<string> {
    if deps == [] then [] else [Line(t, deps[0])] + Lines(t, deps[1..])
  }

  lemma LinesHead(t: Name -> string, deps: seq<Dep>)
    requires deps != []
    ensures multiset(Lines(t, deps)) == multiset{Line(t, deps[0])} + multiset(Lines(t, deps[1..]))
  {
  }

  lemma {:induction false} LinesRemove(t: Name -> string, deps: seq<Dep>, i: nat)
    requires i < |deps|
    ensures multiset(Lines(t, deps)) == multiset(Lines(t, deps[..i] + deps[i + 1..])) + multiset{Line(t, deps[i])}
  {
    hide Lines, Line;
    LinesHead(t, deps);
    if i == 0 {
      assert deps[..0] + deps[1..] == deps[1..];
    } else {
      var tail, rest := deps[1..], deps[..i] + deps[i + 1..];
      LinesRemove(t, tail, i - 1);
      assert rest[0] == deps[0] && rest[1..] == tail[..i - 1] + tail[i - 1 + 1..] && tail[i - 1] == deps[i];
      LinesHead(t, rest);
      SumsCommute(Line(t, deps[0]), multiset(Lines(t, rest[1..])), Line(t, deps[i]));
    }
  }

  lemma SumsCommute(x: string, m: multiset<string>, y: string)
    ensures multiset{x} + (m + multiset{y}) == (multiset{x} + m) + multiset{y}
  {
  }

  lemma MultisetRemove(a: seq<Dep>, i: nat)
    requires i < |a|
    ensures multiset(a[..i] + a[i + 1..]) == multiset(a) - multiset{a[i]}
  {
    assert a == a[..i] + [a[i]] + a[i + 1..];
  }

  lemma {:induction false} LinesForgetOrder(t: Name -> string, a: seq<Dep>, b: seq<Dep>)
    requires multiset(a) == multiset(b)
    ensures multiset(Lines(t, a)) == multiset(Lines(t, b))
    decreases |a|
  {
    hide Lines, Line;
    if a == [] {
      assert |multiset(b)| == 0;
    } else {
      assert a[0] in multiset(b);
      var i :| 0 <= i < |b| && b[i] == a[0];
      MultisetRemove(b, i);
      assert multiset(a) == multiset{a[0]} + multiset(a[1..]) by { assert a == [a[0]] + a[1..]; }
      LinesForgetOrder(t, a[1..], b[..i] + b[i + 1..]);
      LinesHead(t, a);
      LinesRemove(t, b, i);
    }
  }

  /** Arguments that could all be computed are the lines of their dependencies' tags. */
  lemma {:induction false} ArgsAreLines(s: Settings, c: Config, nodes: set<Name>, rank: Name -> nat, name: Name, i: nat,
                                        t: Name -> string)
    requires Ranked(c, nodes, rank) && name in nodes && name in c && i <= |c[name].deps|
    requires forall j :: i <= j < |c[name].deps| ==>
               var d := c[name].deps[j].image; d in nodes && TagOf(s, c, nodes, rank, d) == Tag(t(d))
    ensures ArgsOf(s, c, nodes, rank, name, i) == Args(Lines(t, c[name].deps[i..]))
    decreases |c[name].deps| - i
  {
    var deps := c[name].deps;
    if i < |deps| {
      ArgsAreLines(s, c, nodes, rank, name, i + 1, t);
      assert deps[i..][0] == deps[i] && deps[i..][1..] == deps[i + 1..];
    }
  }

  lemma {:induction false} ArgsMeanTags(s: Settings, c: Config, nodes: set<Name>, rank: Name -> nat, name: Name, i: nat)
    requires Ranked(c, nodes, rank) && name in nodes && name in c && i <= |c[name].deps|
    requires ArgsOf(s, c, nodes, rank, name, i).Args?
    ensures forall j :: i <= j < |c[name].deps| ==> TagOf(s, c, nodes, rank, c[name].deps[j].image).Tag?
    decreases |c[name].deps| - i
  {
    if i < |c[name].deps| { ArgsMeanTags(s, c, nodes, rank, name, i + 1); }
  }

  /** The order in which dependencies are declared does not change any tag. */
  lemma {:induction false} TagForgetsOrder(s: Settings, c: Config, c': Config, nodes: set<Name>, rank: Name -> nat, name: Name)
    requires Reordered(c, c') && Ranked(c, nodes, rank) && Ranked(c', nodes, rank) && name in nodes
    requires TagOf(s, c, nodes, rank, name).Tag?
    ensures TagOf(s, c', nodes, rank, name) == TagOf(s, c, nodes, rank, name)
    decreases rank(name)
  {
    var deps, deps' := c[name].deps, c'[name].deps;
    ArgsMeanTags(s, c, nodes, rank, name, 0);
    var t := TagsBelow(s, c, nodes, rank);
    forall j | 0 <= j < |deps|
      ensures var d := deps[j].image; TagOf(s, c, nodes, rank, d) == Tag(t(d)) && TagOf(s, c', nodes, rank, d) == Tag(t(d))
    {
      TagForgetsOrder(s, c, c', nodes, rank, deps[j].image);
    }
    forall j | 0 <= j < |deps'|
      ensures var d := deps'[j].image; TagOf(s, c', nodes, rank, d) == Tag(t(d))
    {
      assert deps'[j] in multiset(deps');
      assert deps'[j] in multiset(deps);
      var k :| 0 <= k < |deps| && deps[k] == deps'[j];
    }
    ArgsAreLines(s, c, nodes, rank, name, 0, t);
    ArgsAreLines(s, c', nodes, rank, name, 0, t);
    assert deps[0..] == deps && deps'[0..] == deps';
    LinesForgetOrder(t, deps, deps');
    SortForgetsOrder(Lines(t, deps) + ExtraLines(c[name].extras), Lines(t, deps') + ExtraLines(c'[name].extras));
  }

  ghost function TagsBelow(s: Settings, c: Config, nodes: set<Name>, rank: Name -> nat): Name -> string
    requires Ranked(c, nodes, rank)
  {
    n => if n in nodes && TagOf(s, c, nodes, rank, n).Tag? then TagOf(s, c, nodes, rank, n).tag else ""
  }

  // Building.

  /** The images to build: those from which nothing reachable is left out. */
  ghost predicate ClosedUnder(c: Config, nodes: set<Name>) {
    forall n, i :: n in nodes && n in c && 0 <= i < |c[n].deps| ==> c[n].deps[i].image in nodes
  }

  function DepNames(deps: seq<Dep>): set<Name> {
    set i | 0 <= i < |deps| :: deps[i].image
  }

  function Universe(c: Config): set<Name> {
    set n, i | n in c && 0 <= i < |c[n].deps| :: c[n].deps[i].image
  }

  /** Only what has to be there. */
  ghost predicate Needed(c: Config, targets: set<Name>, nodes: set<Name>) {
    forall other :: targets <= other && ClosedUnder(c, other) ==> nodes <= other
  }

  /** What has been visited so far, and what that has put on the worklist. */
  ghost predicate Visiting(c: Config, targets: set<Name>, visited: set<Name>, toVisit: set<Name>) {
    && targets <= visited + toVisit
    && visited + toVisit <= targets + Universe(c)
    && Needed(c, targets, visited + toVisit)
    && forall n, i :: n in visited && n in c && 0 <= i < |c[n].deps| ==> c[n].deps[i].image in visited + toVisit
  }

  lemma VisitOne(c: Config, targets: set<Name>, visited: set<Name>, toVisit: set<Name>, current: Name, next: set<Name>)
    requires Visiting(c, targets, visited, toVisit) && current in toVisit
    requires next == toVisit - {current} + if current in visited || current !in c then {} else DepNames(c[current].deps)
    ensures Visiting(c, targets, visited + {current}, next)
  {
    hide Needed;
    NeedsMore(c, targets, visited, toVisit, current, next);
    assert visited + {current} + next <= targets + Universe(c);
    forall n, i | n in visited + {current} && n in c && 0 <= i < |c[n].deps|
      ensures c[n].deps[i].image in visited + {current} + next
    {
      if n in visited {
        assert c[n].deps[i].image in visited + toVisit;
      } else {
        assert c[n].deps[i].image in DepNames(c[n].deps);
      }
    }
  }

  lemma NeedsMore(c: Config, targets: set<Name>, visited: set<Name>, toVisit: set<Name>, current: Name, next: set<Name>)
    requires Needed(c, targets, visited + toVisit) && current in toVisit
    requires next <= toVisit + if current !in c then {} else DepNames(c[current].deps)
    ensures Needed(c, targets, visited + {current} + next)
  {
    forall other | targets <= other && ClosedUnder(c, other) ensures visited + {current} + next <= other {
      assert visited + toVisit <= other;
      forall d | d in next ensures d in other {
        if d !in toVisit {
          var i :| 0 <= i < |c[current].deps| && d == c[current].deps[i].image;
        }
      }
    }
  }

  /** The worklist of get_dependency_subgraph: visits exactly the images reachable from the
      targets - the least set that holds the targets and is closed under dependency. */
  method Visit(c: Config, targets: set<Name>) returns (visited: set<Name>)
    ensures targets <= visited && ClosedUnder(c, visited) && Needed(c, targets, visited)
  {
    hide Visiting, Needed, Universe, DepNames, ClosedUnder;
    visited := {};
    var toVisit := targets;
    StartVisit(c, targets);
    ghost var all := targets + Universe(c);
    while toVisit != {}
      invariant Visiting(c, targets, visited, toVisit)
      decreases |all - visited|, |toVisit|
    {
      var current :| current in toVisit;
      ghost var pending := toVisit;
      toVisit := toVisit - {current};
      if current !in visited {
        Progress(c, targets, visited, pending, current);
        VisitOne(c, targets, visited, pending, current,
                 toVisit + if current in c then DepNames(c[current].deps) else {});
        visited := visited + {current};
        if current in c {
          toVisit := toVisit + DepNames(c[current].deps);
        } else {
          assert toVisit + {} == toVisit;
        }
      } else {
        assert visited + {current} == visited && toVisit + {} == toVisit;
        VisitOne(c, targets, visited, pending, current, toVisit);
      }
    }
    EndVisit(c, targets, visited);
  }

  lemma StartVisit(c: Config, targets: set<Name>)
    ensures Visiting(c, targets, {}, targets)
  {
    assert {} + targets == targets;
  }

  lemma EndVisit(c: Config, targets: set<Name>, visited: set<Name>)
    requires Visiting(c, targets, visited, {})
    ensures targets <= visited && ClosedUnder(c, visited) && Needed(c, targets, visited)
  {
    assert visited + {} == visited;
  }

  lemma Progress(c: Config, targets: set<Name>, visited: set<Name>, toVisit: set<Name>, current: Name)
    requires Visiting(c, targets, visited, toVisit) && current in toVisit && current !in visited
    ensures var all := targets + Universe(c); |all - (visited + {current})| < |all - visited|
  {
    var all := targets + Universe(c);
    assert current in visited + toVisit;
    assert all - (visited + {current}) == (all - visited) - {current};
  }

  type Graph = map<Name, set<Name>>

  function FullGraph(c: Config): Graph {
    map n | n in c :: DepNames(c[n].deps)
  }

  ghost predicate Distinct(order: seq<Name>) {
    forall i, j :: 0 <= i < j < |order| ==> order[i] != order[j]
  }

  /** What graphlib promises of static_order: every node and every predecessor once, and each node
      after its predecessors. */
  ghost predicate StaticOrder(g: Graph, order: seq<Name>) {
    && Distinct(order)
    && (forall n :: n in order ==> n in g || exists m :: m in g && n in g[m])
    && (forall n :: n in g ==> n in order)
    && forall k, d :: 0 <= k < |order| && order[k] in g && d in g[order[k]] ==> d in order[..k]
  }

  /** A sorter gives some static order whenever there is one, and otherwise reports a cycle. */
  ghost predicate Sorter(sorter: Graph -> Option<seq<Name>>) {
    forall g :: match sorter(g)
                case Some(order) => StaticOrder(g, order)
                case None => forall order :: !StaticOrder(g, order)
  }

  /** Every image once, each after its dependencies. */
  ghost predicate BuildOrder(c: Config, order: seq<Name>) {
    && Distinct(order)
    && forall k, i :: 0 <= k < |order| && order[k] in c && 0 <= i < |c[order[k]].deps| ==>
         c[order[k]].deps[i].image in order[..k]
  }

  /** A part of the full graph that loses no dependency. */
  ghost predicate ClosedPart(c: Config, g: Graph) {
    && (forall n :: n in g ==> n in c && g[n] == DepNames(c[n].deps))
    && forall n, d :: n in g && d in g[n] && d in c ==> d in g
  }

  /** Any static order of such a part is a build order. */
  lemma StaticOrderBuilds(c: Config, g: Graph, order: seq<Name>)
    requires ClosedPart(c, g) && StaticOrder(g, order)
    ensures BuildOrder(c, order)
  {
    forall k, i | 0 <= k < |order| && order[k] in c && 0 <= i < |c[order[k]].deps|
      ensures c[order[k]].deps[i].image in order[..k]
    {
      assert order[k] in order;
      assert c[order[k]].deps[i].image in DepNames(c[order[k]].deps);
    }
  }

  function Position(order: seq<Name>, n: Name): nat {
    if order == [] || order[0] == n then 0 else 1 + Position(order[1..], n)
  }

  lemma {:induction false} PositionAt(order: seq<Name>, k: nat)
    requires k < |order| && forall i, j :: 0 <= i < j < |order| ==> order[i] != order[j]
    ensures Position(order, order[k]) == k
  {
    if k > 0 { PositionAt(order[1..], k - 1); }
  }

  /** A build order ranks its images. */
  lemma OrderRanks(c: Config, order: seq<Name>)
    requires BuildOrder(c, order)
    ensures Ranked(c, (set n | n in order), n => Position(order, n))
  {
    var rank := n => Position(order, n);
    forall n, i | n in order && n in c && 0 <= i < |c[n].deps|
      ensures c[n].deps[i].image in order && rank(c[n].deps[i].image) < rank(n)
    {
      var k :| 0 <= k < |order| && order[k] == n;
      var d := c[n].deps[i].image;
      assert d in order[..k];
      var j :| 0 <= j < k && order[j] == d;
      PositionAt(order, k);
      PositionAt(order, j);
    }
  }

  lemma {:induction false} HighestRank(nodes: set<Name>, rank: Name -> nat) returns (top: Name)
    requires nodes != {}
    ensures top in nodes && forall n :: n in nodes ==> rank(n) <= rank(top)
  {
    top :| top in nodes;
    var rest := nodes - {top};
    if rest != {} {
      var other := HighestRank(rest, rank);
      if rank(top) < rank(other) { top := other; }
    }
  }

  /** Nodes that can be ranked can be ordered. */
  lemma {:induction false} RanksOrder(g: Graph, nodes: set<Name>, rank: Name -> nat) returns (order: seq<Name>)
    requires forall n, d :: n in nodes && n in g && d in g[n] ==> d in nodes && rank(d) < rank(n)
    ensures Distinct(order) && forall n :: n in order <==> n in nodes
    ensures forall k, d :: 0 <= k < |order| && order[k] in g && d in g[order[k]] ==> d in order[..k]
  {
    if nodes == {} {
      order := [];
    } else {
      var top := HighestRank(nodes, rank);
      var before := RanksOrder(g, nodes - {top}, rank);
      order := before + [top];
      forall k, d | 0 <= k < |order| && order[k] in g && d in g[order[k]] ensures d in order[..k] {
        assert order[k] in nodes by { if k < |before| { assert before[k] in before; } }
        if k < |before| {
          assert order[..k] == before[..k];
        } else {
          assert order[..k] == before;
        }
      }
    }
  }

  /** The images wanted can be built: some closed set that holds them has no cycle. */
  ghost predicate Buildable(c: Config, wanted: set<Name>) {
    exists nodes, rank :: wanted <= nodes && Ranked(c, nodes, rank)
  }

  /** Wanted, or a dependency of a dependency ... of a wanted image. */
  ghost predicate Reachable(c: Config, wanted: set<Name>, n: Name) {
    forall other :: wanted <= other && ClosedUnder(c, other) ==> n in other
  }

  ghost predicate Available(c: Config, n: Name) {
    n in c && c[n].dockerfile.Some?
  }

  /** An image has a tag if and only if every image it reaches is configured and has a Dockerfile; what
      is reported otherwise is one that does not. */
  lemma TagsExactly(s: Settings, c: Config, nodes: set<Name>, rank: Name -> nat, name: Name)
    requires Ranked(c, nodes, rank) && name in nodes
    ensures TagOf(s, c, nodes, rank, name).Tag? <==> forall n :: Reachable(c, {name}, n) ==> Available(c, n)
    ensures match TagOf(s, c, nodes, rank, name)
            case Tag(_) => true
            case UnknownImage(n) => Reachable(c, {name}, n) && n !in c
            case NoDockerfile(n) => Reachable(c, {name}, n) && n in c && c[n].dockerfile == None
  {
    if TagOf(s, c, nodes, rank, name).Tag? {
      var good := set n | n in nodes && TagOf(s, c, nodes, rank, n).Tag?;
      forall n, i | n in good && n in c && 0 <= i < |c[n].deps| ensures c[n].deps[i].image in good {
        ArgsMeanTags(s, c, nodes, rank, n, 0);
      }
      assert ClosedUnder(c, good) && {name} <= good;
    } else {
      Culprit(s, c, nodes, rank, name, name);
    }
  }

  lemma {:induction false} Culprit(s: Settings, c: Config, nodes: set<Name>, rank: Name -> nat, top: Name, name: Name)
    requires Ranked(c, nodes, rank) && name in nodes && Reachable(c, {top}, name)
    requires !TagOf(s, c, nodes, rank, name).Tag?
    ensures var r := TagOf(s, c, nodes, rank, name);
            Reachable(c, {top}, r.name) && if r.UnknownImage? then r.name !in c else r.name in c && c[r.name].dockerfile == None
    decreases rank(name), 1, 0
  {
    hide Reachable;
    if Available(c, name) { CulpritBelow(s, c, nodes, rank, top, name, 0); }
  }

  lemma {:induction false} CulpritBelow(s: Settings, c: Config, nodes: set<Name>, rank: Name -> nat, top: Name, name: Name, i: nat)
    requires Ranked(c, nodes, rank) && name in nodes && Reachable(c, {top}, name) && name in c && i <= |c[name].deps|
    requires ArgsOf(s, c, nodes, rank, name, i).Failed?
    ensures var r := ArgsOf(s, c, nodes, rank, name, i).r;
            Reachable(c, {top}, r.name) && if r.UnknownImage? then r.name !in c else r.name in c && c[r.name].dockerfile == None
    decreases rank(name), 0, |c[name].deps| - i
  {
    var d := c[name].deps[i].image;
    Below(c, top, name, i);
    hide Reachable;
    if TagOf(s, c, nodes, rank, d).Tag? {
      CulpritBelow(s, c, nodes, rank, top, name, i + 1);
    } else {
      Culprit(s, c, nodes, rank, top, d);
    }
  }

  lemma Below(c: Config, top: Name, name: Name, i: nat)
    requires Reachable(c, {top}, name) && name in c && i < |c[name].deps|
    ensures Reachable(c, {top}, c[name].deps[i].image)
  {
  }

  /** Some image that is reachable and configured depends on it. */
  ghost predicate Depended(c: Config, wanted: set<Name>, n: Name) {
    exists m :: m in c && Reachable(c, wanted, m) && n in DepNames(c[m].deps)
  }

  /** The answer of the sorter for the images wanted: an exit exactly on a cycle, and otherwise an
      order of exactly those that are reachable, and configured or depended upon. */
  ghost predicate Ordered(c: Config, wanted: set<Name>, order: Option<seq<Name>>) {
    && (order.Some? <==> Buildable(c, wanted))
    && (order.Some? ==>
          && BuildOrder(c, order.value)
          && forall n :: n in order.value <==> Reachable(c, wanted, n) && (n in c || Depended(c, wanted, n)))
  }

  lemma SorterOrders(c: Config, wanted: set<Name>, visited: set<Name>, g: Graph, sorter: Graph -> Option<seq<Name>>)
    requires Sorter(sorter)
    requires wanted <= visited && ClosedUnder(c, visited)
    requires Needed(c, wanted, visited)
    requires g == map n | n in visited && n in c :: DepNames(c[n].deps)
    ensures Ordered(c, wanted, sorter(g))
  {
    assert ClosedPart(c, g);
    VisitedIsReachable(c, wanted, visited);
    match sorter(g)
    case Some(order) =>
      StaticOrderBuilds(c, g, order);
      OrderRanks(c, order);
      var known := set n | n in order;
      OrderHolds(c, wanted, visited, g, order);
      assert Ranked(c, known + wanted, n => Position(order, n));
    case None =>
      if Buildable(c, wanted) {
        var nodes, rank :| wanted <= nodes && Ranked(c, nodes, rank);
        assert ClosedUnder(c, nodes);
        var all := set n | n in visited && (n in g || exists m :: m in g && n in g[m]);
        var order := RanksOrder(g, all, rank);
        assert StaticOrder(g, order);
      }
  }

  lemma VisitedIsReachable(c: Config, wanted: set<Name>, visited: set<Name>)
    requires wanted <= visited && ClosedUnder(c, visited) && Needed(c, wanted, visited)
    ensures forall n :: n in visited <==> Reachable(c, wanted, n)
  {
  }

  /** What StaticOrder says of the nodes, in terms of the configuration. */
  lemma OrderHolds(c: Config, wanted: set<Name>, visited: set<Name>, g: Graph, order: seq<Name>)
    requires ClosedUnder(c, visited) && forall n :: n in visited <==> Reachable(c, wanted, n)
    requires g == map n | n in visited && n in c :: DepNames(c[n].deps)
    requires StaticOrder(g, order)
    ensures forall n :: n in order <==> Reachable(c, wanted, n) && (n in c || Depended(c, wanted, n))
  {
    forall n ensures n in order <==> Reachable(c, wanted, n) && (n in c || Depended(c, wanted, n)) {
      if n in order && n !in g {
        var m :| m in g && n in g[m];
        assert m in c && Reachable(c, wanted, m) && n in DepNames(c[m].deps);
        var i :| 0 <= i < |c[m].deps| && c[m].deps[i].image == n;
        assert n in visited;
      }
      if n !in c && Depended(c, wanted, n) {
        var m :| m in c && Reachable(c, wanted, m) && n in DepNames(c[m].deps);
        assert m in g && n in g[m];
        var k :| 0 <= k < |order| && order[k] == m;
        assert n in order[..k];
      }
    }
  }

  /** A target is in the order if and only if it is configured or something reachable depends on
      it. */
  lemma TargetsKept(c: Config, targets: set<Name>, order: Option<seq<Name>>, n: Name)
    requires Ordered(c, targets, order) && order.Some? && n in targets
    ensures n in order.value <==> n in c || Depended(c, targets, n)
  {
    assert Reachable(c, targets, n);
  }

  /** So a caller that asks for an unknown target alone gets an empty order. The command line does
      not let that happen. */
  lemma UnknownTargetDropped(order: Option<seq<Name>>)
    requires Ordered(map[], {"x"}, order)
    ensures order == Some([])
  {
    var none: Config := map[];
    assert Ranked(none, {"x"}, n => 0);
    var s := order.value;
    if s != [] { FirstIn(s); }
  }

  lemma FirstIn(s: seq<Name>)
    requires s != []
    ensures s[0] in s
  {
  }

  /** get_dependency_subgraph and get_build_order: no targets means every configured image. */
  method GetBuildOrder(c: Config, targets: set<Name>, sorter: Graph -> Option<seq<Name>>)
    returns (order: Option<seq<Name>>)
    requires Sorter(sorter)
    ensures Ordered(c, if targets == {} then c.Keys else targets, order)
  {
    var fullGraph := FullGraph(c);
    if targets == {} {
      ghost var visited := c.Keys + Universe(c);
      assert fullGraph == map n | n in visited && n in c :: DepNames(c[n].deps);
      SorterOrders(c, c.Keys, visited, fullGraph, sorter);
      return sorter(fullGraph);
    }
    var visited := Visit(c, targets);
    var subgraph := map n | n in visited && n in fullGraph :: fullGraph[n];
    assert subgraph == map n | n in visited && n in c :: DepNames(c[n].deps);
    SorterOrders(c, targets, visited, subgraph, sorter);
    order := sorter(subgraph);
  }

  /** What the command line makes of its targets. */
  datatype Checked = NeedsOneTarget | NotAnImage(name: Name) | Cyclic | Ready(order: seq<Name>)

  function Wanted(c: Config, targets: seq<Name>): set<Name> {
    if targets == [] then c.Keys else set n | n in targets
  }

  /** The command line, up to the first image: every target has to be a configured image, and exactly
      one if its tag is to be printed. What is left is an order with every image wanted in it, or a
      cycle. */
  method CheckTargets(c: Config, targets: seq<Name>, printTag: bool, sorter: Graph -> Option<seq<Name>>)
    returns (r: Checked)
    requires Sorter(sorter)
    ensures r.NeedsOneTarget? <==> printTag && |targets| != 1
    ensures r.NotAnImage? <==> !r.NeedsOneTarget? && exists n :: n in targets && n !in c
    ensures r.NotAnImage? ==>
      exists i :: 0 <= i < |targets| && targets[i] == r.name && r.name !in c && forall j :: 0 <= j < i ==> targets[j] in c
    ensures r.Cyclic? ==> !Buildable(c, Wanted(c, targets))
    ensures r.Ready? ==>
      && Ordered(c, Wanted(c, targets), Some(r.order))
      && forall n :: n in Wanted(c, targets) ==> n in c && n in r.order
  {
    if printTag {
      if |targets| != 1 {
        return NeedsOneTarget;
      }
      if targets[0] !in c {
        return NotAnImage(targets[0]);
      }
    } else {
      for i := 0 to |targets|
        invariant forall j :: 0 <= j < i ==> targets[j] in c
      {
        if targets[i] !in c {
          return NotAnImage(targets[i]);
        }
      }
    }
    var wanted := set n | n in targets;
    if targets != [] { assert targets[0] in wanted; }
    var order := GetBuildOrder(c, wanted, sorter);
    if order == None {
      return Cyclic;
    }
    forall n | n in Wanted(c, targets) ensures n in order.value {
      TargetsKept(c, Wanted(c, targets), order, n);
    }
    r := Ready(order.value);
  }

  ghost predicate Extends(m: map<Name, string>, m': map<Name, string>) {
    forall n :: n in m ==> n in m' && m'[n] == m[n]
  }

  ghost function Prefixed(args: seq<string>, rest: Arguments): Arguments {
    match rest
    case Args(more) => Args(args + more)
    case Failed(r) => Failed(r)
  }

  lemma ArgsNext(s: Settings, c: Config, nodes: set<Name>, rank: Name -> nat, name: Name, i: nat, args: seq<string>)
    requires Ranked(c, nodes, rank) && name in nodes && name in c && i < |c[name].deps|
    ensures var d := c[name].deps[i];
            d.image in nodes && rank(d.image) < rank(name)
    ensures var d := c[name].deps[i];
            var r := TagOf(s, c, nodes, rank, d.image);
            Prefixed(args, ArgsOf(s, c, nodes, rank, name, i)) ==
            if r.Tag? then Prefixed(args + [d.arg + "=" + r.tag], ArgsOf(s, c, nodes, rank, name, i + 1)) else Failed(r)
  {
    var d := c[name].deps[i];
    var r := TagOf(s, c, nodes, rank, d.image);
    if r.Tag? {
      var rest := ArgsOf(s, c, nodes, rank, name, i + 1);
      if rest.Args? {
        assert args + ([d.arg + "=" + r.tag] + rest.args) == args + [d.arg + "=" + r.tag] + rest.args;
      }
    }
  }

  lemma FailedArgs(s: Settings, c: Config, nodes: set<Name>, rank: Name -> nat, name: Name, r: Result)
    requires Ranked(c, nodes, rank) && name in nodes && name in c && c[name].dockerfile != None
    requires ArgsOf(s, c, nodes, rank, name, 0) == Failed(r)
    ensures TagOf(s, c, nodes, rank, name) == r
  {
    hide ArgsOf, Ranked;
  }

  lemma LastArgs(s: Settings, c: Config, nodes: set<Name>, rank: Name -> nat, name: Name, args: seq<string>)
    requires Ranked(c, nodes, rank) && name in nodes && name in c && c[name].dockerfile != None
    requires ArgsOf(s, c, nodes, rank, name, 0) == Prefixed(args, ArgsOf(s, c, nodes, rank, name, |c[name].deps|))
    ensures TagOf(s, c, nodes, rank, name)
         == Tag(ImageTag(s, name, s.sha(c[name].dockerfile.value, Sort(args + ExtraLines(c[name].extras)))))
  {
    hide Ranked;
    assert args + [] == args;
  }

  datatype Tags = AllTags(tags: seq<string>) | Stopped(at: nat, failure: Result)

  datatype Build = Build(image: Name, tag: string, args: seq<(string, string)>)

  class DockerBuilder {
    const settings: Settings
    const config: Config
    var generatedTags: map<Name, string>

    constructor (settings: Settings, config: Config)
      ensures this.settings == settings && this.config == config && generatedTags == map[]
    {
      this.settings, this.config, generatedTags := settings, config, map[];
    }

    /** Every remembered tag is the image's tag, and was remembered after its dependencies'. */
    ghost predicate Remembers(nodes: set<Name>, rank: Name -> nat)
      requires Ranked(config, nodes, rank)
      reads this
    {
      forall n :: n in generatedTags && n in nodes ==>
        && TagOf(settings, config, nodes, rank, n) == Tag(generatedTags[n])
        && n in config
        && forall i :: 0 <= i < |config[n].deps| ==> config[n].deps[i].image in generatedTags
    }

    /** calculate_tag_for_image: the memory changes nothing but the work. */
    method CalculateTagForImage(name: Name, ghost nodes: set<Name>, ghost rank: Name -> nat) returns (r: Result)
      requires Ranked(config, nodes, rank) && name in nodes && Remembers(nodes, rank)
      modifies this
      ensures Remembers(nodes, rank) && r == TagOf(settings, config, nodes, rank, name)
      ensures r.Tag? ==> name in generatedTags && generatedTags[name] == r.tag
      ensures Extends(old(generatedTags), generatedTags)
      decreases rank(name)
    {
      hide Ranked, ArgsOf;
      if name in generatedTags {
        return Tag(generatedTags[name]);
      }
      if name !in config {
        return UnknownImage(name);
      }
      var image := config[name];
      if image.dockerfile == None {
        return NoDockerfile(name);
      }
      hide TagOf, Remembers;
      var args := [];
      var i := 0;
      ghost var goal := ArgsOf(settings, config, nodes, rank, name, 0);
      assert goal == Prefixed(args, goal) by { if goal.Args? { assert [] + goal.args == goal.args; } }
      while i < |image.deps|
        invariant i <= |image.deps| && Remembers(nodes, rank)
        invariant goal == Prefixed(args, ArgsOf(settings, config, nodes, rank, name, i))
        invariant forall j :: 0 <= j < i ==> image.deps[j].image in generatedTags
        invariant Extends(old(generatedTags), generatedTags)
      {
        var d := image.deps[i];
        ArgsNext(settings, config, nodes, rank, name, i, args);
        var tag := CalculateTagForImage(d.image, nodes, rank);
        if !tag.Tag? {
          FailedArgs(settings, config, nodes, rank, name, tag);
          return tag;
        }
        args := args + [d.arg + "=" + tag.tag];
        i := i + 1;
      }
      LastArgs(settings, config, nodes, rank, name, args);
      var sha := settings.sha(image.dockerfile.value, Sort(args + ExtraLines(image.extras)));
      var t := ImageTag(settings, name, sha);
      Remember(nodes, rank, name, t);
      r := Tag(t);
    }

    method Remember(ghost nodes: set<Name>, ghost rank: Name -> nat, name: Name, tag: string)
      requires Ranked(config, nodes, rank) && name in nodes && name in config && Remembers(nodes, rank)
      requires TagOf(settings, config, nodes, rank, name) == Tag(tag)
      requires forall j :: 0 <= j < |config[name].deps| ==> config[name].deps[j].image in generatedTags
      modifies this
      ensures Remembers(nodes, rank) && generatedTags == old(generatedTags)[name := tag]
      ensures Extends(old(generatedTags), generatedTags)
    {
      hide TagOf, Ranked;
      generatedTags := generatedTags[name := tag];
    }

    /** calculate_tags over a build order: the tags of its images in order, or the first failure. */
    method CalculateTags(order: seq<Name>) returns (r: Tags)
      requires BuildOrder(config, order) && RemembersOrder(order)
      modifies this
      ensures RemembersOrder(order)
      ensures match r
              case AllTags(tags) =>
                && |tags| == |order|
                && forall k :: 0 <= k < |order| ==> OrderTag(order, k) == Tag(tags[k])
              case Stopped(k, failure) =>
                && k < |order| && failure == OrderTag(order, k) && !failure.Tag?
                && forall j :: 0 <= j < k ==> OrderTag(order, j).Tag?
    {
      hide TagOf, Ranked;
      OrderRanks(config, order);
      ghost var nodes, rank := (set n | n in order), n => Position(order, n);
      var i := 0;
      while i < |order|
        invariant i <= |order| && Remembers(nodes, rank)
        invariant forall k :: 0 <= k < i ==>
          order[k] in generatedTags && OrderTag(order, k) == Tag(generatedTags[order[k]])
      {
        var tag := CalculateTagForImage(order[i], nodes, rank);
        if !tag.Tag? {
          return Stopped(i, tag);
        }
        i := i + 1;
      }
      r := AllTags(seq(|order|, k requires 0 <= k < |order| && order[k] in generatedTags reads this => generatedTags[order[k]]));
    }

    /** The part of build_images that works with tags: for each image the tag to build it under and
        its "name, value" build arguments. Every tag looked up has been generated by then. */
    method BuildImages(order: seq<Name>) returns (builds: seq<Build>)
      requires BuildOrder(config, order) && RemembersOrder(order)
      modifies this
      ensures RemembersOrder(order) && |builds| <= |order|
      ensures forall k :: 0 <= k < |builds| ==>
        && order[k] in config && builds[k].image == order[k]
        && OrderTag(order, k) == Tag(builds[k].tag)
        && BuildArgs(order, config[order[k]], builds[k].args)
      ensures |builds| < |order| ==> !OrderTag(order, |builds|).Tag?
    {
      hide TagOf, Ranked;
      OrderRanks(config, order);
      ghost var nodes, rank := (set n | n in order), n => Position(order, n);
      builds := [];
      while |builds| < |order|
        invariant |builds| <= |order| && Remembers(nodes, rank)
        invariant forall k :: 0 <= k < |builds| ==>
          && order[k] in config && builds[k].image == order[k]
          && OrderTag(order, k) == Tag(builds[k].tag)
          && BuildArgs(order, config[order[k]], builds[k].args)
        decreases |order| - |builds|
      {
        var name := order[|builds|];
        var tag := CalculateTagForImage(name, nodes, rank);
        if !tag.Tag? {
          return;
        }
        var args := LookUpArgs(order, name, nodes, rank);
        builds := builds + [Build(name, tag.tag, args)];
      }
    }

    /** The dictionary is indexed without a check: each dependency of a remembered image is there. */
    method LookUpArgs(ghost order: seq<Name>, name: Name, ghost nodes: set<Name>, ghost rank: Name -> nat)
      returns (args: seq<(string, string)>)
      requires BuildOrder(config, order) && Ranked(config, nodes, rank)
      requires nodes == (set n | n in order) && rank == (n => Position(order, n))
      requires Remembers(nodes, rank) && name in nodes && name in generatedTags
      ensures name in config && BuildArgs(order, config[name], args)
    {
      var deps := config[name].deps;
      hide TagOf;
      args := [];
      while |args| < |deps|
        invariant |args| <= |deps|
        invariant forall i :: 0 <= i < |args| ==> args[i].0 == deps[i].arg
        invariant forall i :: 0 <= i < |args| ==> TagOf(settings, config, nodes, rank, deps[i].image) == Tag(args[i].1)
        decreases |deps| - |args|
      {
        var d := deps[|args|];
        args := args + [(d.arg, generatedTags[d.image])];
      }
      args := args + config[name].extras;
    }

    ghost predicate RemembersOrder(order: seq<Name>)
      requires BuildOrder(config, order)
      reads this
    {
      OrderRanks(config, order);
      Remembers((set n | n in order), n => Position(order, n))
    }

    ghost function OrderTag(order: seq<Name>, k: nat): Result
      requires BuildOrder(config, order) && k < |order|
    {
      OrderRanks(config, order);
      TagOf(settings, config, (set n | n in order), n => Position(order, n), order[k])
    }

    /** The build arguments: for each dependency its argument's name and the dependency's tag, and
        then the image's own extra arguments. */
    ghost predicate BuildArgs(order: seq<Name>, image: Image, args: seq<(string, string)>)
      requires BuildOrder(config, order)
    {
      && |args| >= |image.deps| && args[|image.deps|..] == image.extras
      && forall i :: 0 <= i < |image.deps| ==>
           && args[i].0 == image.deps[i].arg && image.deps[i].image in order
           && (OrderRanks(config, order);
               TagOf(settings, config, (set n | n in order), n => Position(order, n), image.deps[i].image) == Tag(args[i].1))
    }

    /** An image has the same tag whichever targets it was ordered for. */
    lemma TagForgetsTargets(order: seq<Name>, k: nat, other: seq<Name>, j: nat)
      requires BuildOrder(config, order) && BuildOrder(config, other)
      requires k < |order| && j < |other| && order[k] == other[j]
      ensures OrderTag(order, k) == OrderTag(other, j)
    {
      OrderRanks(config, order);
      OrderRanks(config, other);
      TagIsIntrinsic(settings, config, (set n | n in order), n => Position(order, n),
                     (set n | n in other), n => Position(other, n), order[k]);
    }
  }
}
