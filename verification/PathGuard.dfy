/**
  Resolving a path of the caller inside a workspace, over a file tree with symbolic links.
  A path is the sequence of its components; the empty one is the root of the file system.
*/
module PathGuard {
  import opened Wrappers

  type Path = seq<string>

  datatype Node = Directory | File | Link(absolute: bool, target: seq<string>)

  /** The nodes below the root, each under the directories that hold it. */
  type Tree = map<Path, Node>

  /** How many links one look-up may follow. */
  const MAX_LINKS: nat := 40

  function Parent(p: Path): Path {
    if p == [] then [] else p[..|p| - 1]
  }

  predicate Name(c: string) {
    c != "" && c != "." && c != ".."
  }

  /** An absolute path with nothing left to resolve in it. */
  predicate Normal(p: Path) {
    forall i | 0 <= i < |p| :: Name(p[i])
  }

  // ---------- resolving by the text alone ----------

  function Enter(p: Path, c: string): Path {
    if c == "" || c == "." then p else if c == ".." then Parent(p) else p + [c]
  }

  /** `path.resolve(base, components)`. */
  function Resolved(base: Path, components: seq<string>): Path
    decreases |components|
  {
    if components == [] then base else Resolved(Enter(base, components[0]), components[1..])
  }

  lemma {:induction false} ResolvedIsNormal(base: Path, components: seq<string>)
    requires Normal(base)
    ensures Normal(Resolved(base, components))
    decreases |components|
  {
    if components != [] {
      ResolvedIsNormal(Enter(base, components[0]), components[1..]);
    }
  }

  lemma {:induction false} ResolvedNames(base: Path, p: Path)
    requires Normal(p)
    ensures Resolved(base, p) == base + p
    decreases |p|
  {
    if p == [] {
      assert base + p == base;
    } else {
      ResolvedNames(base + [p[0]], p[1..]);
      assert base + [p[0]] + p[1..] == base + p;
    }
  }

  /** Names are appended, empty components and dots dropped, and two dots take back the name before them. */
  lemma {:induction false} ResolvedCancels(base: Path, before: seq<string>, c: string, after: seq<string>)
    ensures c == "" || c == "." ==> Resolved(base, before + [c] + after) == Resolved(base, before + after)
    ensures c != "" && c != "." && c != ".." ==>
              Resolved(base, before + [c, ".."] + after) == Resolved(base, before + after)
    ensures Resolved([], [".."] + after) == Resolved([], after)
    decreases |before|
  {
    if before == [] {
      assert before + [c] + after == [c] + after && before + [c, ".."] + after == [c] + ([".."] + after);
      assert ([c] + ([".."] + after))[1..] == [".."] + after && before + after == after;
      assert ([c] + after)[1..] == after && ([".."] + after)[1..] == after;
      assert Parent(base + [c]) == base;
    } else {
      ResolvedCancels(Enter(base, before[0]), before[1..], c, after);
      assert (before + [c] + after)[1..] == before[1..] + [c] + after && (before + after)[1..] == before[1..] + after;
      assert (before + [c, ".."] + after)[1..] == before[1..] + [c, ".."] + after;
    }
  }

  // ---------- relative paths ----------

  function Common(a: Path, b: Path): nat {
    if a != [] && b != [] && a[0] == b[0] then 1 + Common(a[1..], b[1..]) else 0
  }

  /** `path.relative(from, to)`: up to what they have in common, and down again. */
  function Relative(from: Path, to: Path): seq<string> {
    var k := Common(from, to);
    CommonIsShared(from, to);
    seq(|from| - k, _ => "..") + to[k..]
  }

  lemma {:induction false} CommonIsShared(a: Path, b: Path)
    ensures Common(a, b) <= |a| && Common(a, b) <= |b| && a[..Common(a, b)] == b[..Common(a, b)]
    ensures Common(a, b) == |a| <==> a <= b
  {
    if a != [] && b != [] && a[0] == b[0] {
      var k := Common(a[1..], b[1..]);
      CommonIsShared(a[1..], b[1..]);
      assert a[..k + 1] == [a[0]] + a[1..][..k] && b[..k + 1] == [b[0]] + b[1..][..k];
      assert a[1..] <= b[1..] <==> a <= b by {
        assert a == [a[0]] + a[1..] && b == [b[0]] + b[1..];
      }
    }
  }

  predicate DotDot(c: string) {
    ".." <= c
  }

  /** The test of the program: the relative path is empty or its text does not start with two dots. */
  predicate IsSubpath(child: Path, parent: Path) {
    var relative := Relative(parent, child);
    relative == [] || !DotDot(relative[0])
  }

  /** It accepts exactly the paths below the parent whose next component does not start with two dots. */
  lemma IsSubpathIff(child: Path, parent: Path)
    ensures IsSubpath(child, parent) <==> parent <= child && (child == parent || !DotDot(child[|parent|]))
    ensures parent <= child ==> Relative(parent, child) == child[|parent|..]
  {
    CommonIsShared(parent, child);
    var relative := Relative(parent, child);
    if !(parent <= child) {
      assert relative[0] == "..";
    } else {
      assert relative == child[|parent|..];
    }
  }

  // ---------- the file tree ----------

  /** Follows `todo` from the directory `at`. */
  function Walk(tree: Tree, at: Path, todo: seq<string>, links: nat): Option<Path>
    decreases links, |todo|
  {
    if todo == [] then Some(at)
    else if !Name(todo[0]) then Walk(tree, Enter(at, todo[0]), todo[1..], links)
    else
      var next := at + [todo[0]];
      if next !in tree then None
      else match tree[next]
        case Directory => Walk(tree, next, todo[1..], links)
        case File => if |todo| == 1 then Some(next) else None
        case Link(absolute, target) =>
          if links == 0 then None
          else Walk(tree, if absolute then [] else at, target + todo[1..], links - 1)
  }

  /** The real path of an existing path. */
  function Real(tree: Tree, p: Path): Option<Path> {
    Walk(tree, [], p, MAX_LINKS)
  }

  predicate Exists(tree: Tree, p: Path) {
    Real(tree, p).Some?
  }

  /** A directory reached without links. */
  predicate RealDirectory(tree: Tree, p: Path) {
    p != [] ==> RealDirectory(tree, Parent(p)) && Name(p[|p| - 1]) && p in tree && tree[p] == Directory
  }

  predicate RealPath(tree: Tree, p: Path) {
    || RealDirectory(tree, p)
    || (p != [] && RealDirectory(tree, Parent(p)) && Name(p[|p| - 1]) && p in tree && tree[p] == File)
  }

  lemma BelowDirectory(tree: Tree, at: Path, c: string)
    requires RealDirectory(tree, at) && Name(c) && at + [c] in tree
    ensures tree[at + [c]].Directory? ==> RealDirectory(tree, at + [c])
    ensures tree[at + [c]].File? ==> RealPath(tree, at + [c])
  {
    assert Parent(at + [c]) == at;
  }

  lemma {:induction false} WalkEndsAtRealPath(tree: Tree, at: Path, todo: seq<string>, links: nat)
    requires RealDirectory(tree, at)
    ensures Walk(tree, at, todo, links).Some? ==> RealPath(tree, Walk(tree, at, todo, links).value)
    decreases links, |todo|
  {
    if todo != [] {
      var next := at + [todo[0]];
      if !Name(todo[0]) {
        WalkEndsAtRealPath(tree, Enter(at, todo[0]), todo[1..], links);
      } else if next in tree {
        BelowDirectory(tree, at, todo[0]);
        match tree[next]
        case Directory => WalkEndsAtRealPath(tree, next, todo[1..], links);
        case File => 
        case Link(absolute, target) =>
          if links > 0 {
            WalkEndsAtRealPath(tree, if absolute then [] else at, target + todo[1..], links - 1);
          }
      }
    }
  }

  lemma {:induction false} WalkDown(tree: Tree, p: Path, rest: seq<string>, links: nat)
    requires RealDirectory(tree, p)
    ensures Walk(tree, [], p + rest, links) == Walk(tree, p, rest, links)
    decreases |p|
  {
    if p == [] {
      assert p + rest == rest;
    } else {
      var last := p[|p| - 1];
      WalkDown(tree, Parent(p), [last] + rest, links);
      assert Parent(p) + ([last] + rest) == p + rest && Parent(p) + [last] == p;
      assert ([last] + rest)[1..] == rest;
    }
  }

  lemma {:induction false} MoreLinks(tree: Tree, at: Path, todo: seq<string>, links: nat)
    requires Walk(tree, at, todo, links).Some?
    ensures Walk(tree, at, todo, links + 1) == Walk(tree, at, todo, links)
    decreases links, |todo|
  {
    if todo != [] {
      var next := at + [todo[0]];
      if !Name(todo[0]) {
        MoreLinks(tree, Enter(at, todo[0]), todo[1..], links);
      } else {
        match tree[next]
        case Directory => MoreLinks(tree, next, todo[1..], links);
        case File =>
        case Link(absolute, target) => MoreLinks(tree, if absolute then [] else at, target + todo[1..], links - 1);
      }
    }
  }

  lemma ThroughLinkOf(tree: Tree, dir: Path, name: string, rest: seq<string>, links: nat)
    requires Name(name) && dir + [name] in tree && tree[dir + [name]].Link?
    ensures var link := tree[dir + [name]];
            Walk(tree, dir, [name] + rest, links + 1) ==
            Walk(tree, if link.absolute then [] else dir, link.target + rest, links)
  {
    assert ([name] + rest)[1..] == rest;
  }

  /** A link in a real directory leads where its target leads, read from the root or from that directory. */
  lemma LinkIsFollowed(tree: Tree, dir: Path, name: string, rest: seq<string>)
    requires RealDirectory(tree, dir) && Name(name) && dir + [name] in tree && tree[dir + [name]].Link?
    requires Real(tree, dir + ([name] + rest)).Some?
    ensures var link := tree[dir + [name]];
            Real(tree, dir + ([name] + rest)) == Real(tree, (if link.absolute then [] else dir) + (link.target + rest))
  {
    var link := tree[dir + [name]];
    var (base, path) := (if link.absolute then [] else dir, link.target + rest);
    WalkDown(tree, dir, [name] + rest, MAX_LINKS);
    ThroughLinkOf(tree, dir, name, rest, MAX_LINKS - 1);
    MoreLinks(tree, base, path, MAX_LINKS - 1);
    WalkDown(tree, base, path, MAX_LINKS);
  }

  /** A path of directories down to a directory or file, without links, is its own real path. */
  lemma RealPathIsReal(tree: Tree, p: Path)
    requires RealPath(tree, p)
    ensures Real(tree, p) == Some(p)
  {
    if RealDirectory(tree, p) {
      WalkDown(tree, p, [], MAX_LINKS);
      assert p + [] == p;
    } else {
      WalkDown(tree, Parent(p), [p[|p| - 1]], MAX_LINKS);
      assert Parent(p) + [p[|p| - 1]] == p;
    }
  }

  /** The real path of a real path is itself. */
  lemma RealOfReal(tree: Tree, p: Path)
    requires Real(tree, p).Some?
    ensures Real(tree, Real(tree, p).value) == Real(tree, p)
  {
    WalkEndsAtRealPath(tree, [], p, MAX_LINKS);
    RealPathIsReal(tree, Real(tree, p).value);
  }

  lemma RealIsNormal(tree: Tree, p: Path)
    requires Real(tree, p).Some?
    ensures Normal(Real(tree, p).value)
  {
    WalkEndsAtRealPath(tree, [], p, MAX_LINKS);
    var r := Real(tree, p).value;
    if RealDirectory(tree, r) {
      RealDirectoryIsNormal(tree, r);
    } else {
      RealDirectoryIsNormal(tree, Parent(r));
    }
  }

  lemma {:induction false} RealDirectoryIsNormal(tree: Tree, p: Path)
    requires RealDirectory(tree, p)
    ensures Normal(p)
    decreases |p|
  {
    if p != [] {
      RealDirectoryIsNormal(tree, Parent(p));
      assert forall i | 0 <= i < |p| - 1 :: p[i] == Parent(p)[i];
    }
  }

  /** `lstat` finds a symbolic link. */
  predicate IsLink(tree: Tree, p: Path) {
    p != [] &&
    match Real(tree, Parent(p))
    case None => false
    case Some(dir) => dir + [p[|p| - 1]] in tree && tree[dir + [p[|p| - 1]]].Link?
  }

  /** The longest prefix that exists. */
  function Nearest(tree: Tree, p: Path): (r: Path)
    ensures r <= p && Exists(tree, r)
    ensures forall k | |r| < k <= |p| :: !Exists(tree, p[..k])
    decreases |p|
  {
    if Exists(tree, p) then p else
      assert forall k | 0 <= k < |p| :: Parent(p)[..k] == p[..k];
      assert p[..|p|] == p;
      Nearest(tree, Parent(p))
  }

  method ClosestExistingParent(tree: Tree, p: Path) returns (current: Path)
    ensures current == Nearest(tree, p)
  {
    current := p;
    while !Exists(tree, current)
      invariant Nearest(tree, current) == Nearest(tree, p)
      decreases |current|
    {
      current := Parent(current);
    }
  }

  // ---------- resolving inside the workspace ----------

  /** No longer prefix of the path exists than that of `k` names. */
  ghost predicate LongestReal(tree: Tree, p: Path, k: nat) {
    && k <= |p| && Real(tree, p[..k]).Some?
    && forall j | k < j <= |p| :: Real(tree, p[..j]).None?
  }

  lemma LongestIsNearest(tree: Tree, p: Path)
    ensures forall k: nat :: LongestReal(tree, p, k) <==> k == |Nearest(tree, p)|
    ensures p[..|Nearest(tree, p)|] == Nearest(tree, p)
  {
    var n := |Nearest(tree, p)|;
    assert p[..n] == Nearest(tree, p) && Exists(tree, p[..n]);
    forall k: nat | LongestReal(tree, p, k) ensures k == n {
    }
  }

  lemma LinkMeans(tree: Tree, p: Path)
    ensures IsLink(tree, p) <==> exists dir, name :: p == dir + [name] && Real(tree, dir).Some? &&
                                   Real(tree, dir).value + [name] in tree && tree[Real(tree, dir).value + [name]].Link?
  {
    forall dir, name | p == dir + [name] ensures dir == Parent(p) && name == p[|p| - 1] {
    }
    assert p != [] ==> p == Parent(p) + [p[|p| - 1]];
  }

  /** A path as the caller writes it, split at the slashes. */
  datatype Input = Input(absolute: bool, components: seq<string>)
  datatype GuardError = Escapes | Blocked | ResolvesOutside | ThroughLink | ParentOutside
  datatype Place = Place(absPath: Path, relPath: seq<string>)

  /** The workspace: its root and the relative paths its rules block. */
  datatype Workspace = Workspace(root: Path, blocked: seq<string> -> bool) {
    predicate Blocks(relPath: seq<string>) {
      relPath != [] && blocked(relPath)
    }

    /** Inside the root, and not blocked there. */
    predicate Allows(p: Path) {
      IsSubpath(p, root) && !Blocks(Relative(root, p))
    }

    function Candidate(input: Input): Path {
      Resolved(if input.absolute then [] else root, input.components)
    }

    /** The path that stands for `lexical`, if any does. */
    function Target(tree: Tree, lexical: Path, forWrite: bool): Option<Path> {
      var realPath := Real(tree, lexical);
      var parent := Nearest(tree, Parent(lexical));
      if IsSubpath(lexical, root) then Some(lexical)
      else if realPath.Some? && IsSubpath(realPath.value, root) then realPath
      else if forWrite && IsSubpath(Real(tree, parent).value, root) then
        Some(Resolved(Real(tree, parent).value, Relative(parent, lexical)))
      else None
    }

    /** What is checked of the path that was found. */
    predicate Permits(tree: Tree, lexical: Path, target: Path, forWrite: bool) {
      && !Blocks(Relative(root, target))
      && (Exists(tree, lexical) ==> Allows(Real(tree, lexical).value))
      && (forWrite ==> !IsLink(tree, target) && Allows(Real(tree, Nearest(tree, target)).value))
    }

    /** Under the root, and not blocked there. */
    predicate Clear(p: Path) {
      root <= p && (p != root ==> !blocked(p[|root|..]))
    }

    /** Under the root, its first name there not starting with two dots. */
    predicate Inside(p: Path) {
      root <= p && (p != root ==> !(".." <= p[|root|]))
    }

    /** What a caller may rely on. */
    ghost predicate Safe(tree: Tree, place: Place, forWrite: bool) {
      && Clear(place.absPath) && Normal(place.absPath)
      && place.absPath == root + place.relPath == Resolved(root, place.relPath)
      && (Real(tree, place.absPath).Some? ==> Clear(Real(tree, place.absPath).value))
      && (forWrite ==> WriteIsSafe(tree, place.absPath))
    }

    /** What exists of the path lies inside, unblocked, and no link stands where the file would be. */
    ghost predicate WriteIsSafe(tree: Tree, p: Path) {
      && (forall k: nat :: LongestReal(tree, p, k) ==>
            Inside(Real(tree, p[..k]).value) && Clear(Real(tree, p[..k]).value))
      && forall dir, name :: p == dir + [name] && Real(tree, dir).Some? ==>
            var at := Real(tree, dir).value + [name]; at in tree ==> !tree[at].Link?
    }

    /** The path that may be answered for `lexical`: itself, its real path, or for writes what it would be. */
    ghost predicate LeadsTo(tree: Tree, lexical: Path, forWrite: bool, p: Path) {
      if Inside(lexical) then p == lexical
      else if Real(tree, lexical).Some? && Inside(Real(tree, lexical).value) then Some(p) == Real(tree, lexical)
      else
        forWrite && lexical != [] && var parent := lexical[..|lexical| - 1];
        exists k: nat :: LongestReal(tree, parent, k) && Inside(Real(tree, parent[..k]).value) &&
                    p == Real(tree, parent[..k]).value + lexical[k..]
    }

    /** When `p` is answered for `lexical`. */
    ghost predicate Answers(tree: Tree, lexical: Path, forWrite: bool, p: Path) {
      && LeadsTo(tree, lexical, forWrite, p) && Clear(p)
      && (Real(tree, lexical).Some? ==> Inside(Real(tree, lexical).value) && Clear(Real(tree, lexical).value))
      && (forWrite ==> WriteIsSafe(tree, p))
    }

    /** Why no path is answered. */
    ghost predicate Explains(tree: Tree, lexical: Path, forWrite: bool, error: GuardError) {
      match error
      case Escapes => forall p :: !LeadsTo(tree, lexical, forWrite, p)
      case ResolvesOutside => Real(tree, lexical).Some? && !Inside(Real(tree, lexical).value)
      case ThroughLink => forWrite && exists p :: LeadsTo(tree, lexical, forWrite, p) && IsLink(tree, p)
      case ParentOutside =>
        forWrite && exists p, k: nat ::
          LeadsTo(tree, lexical, forWrite, p) && LongestReal(tree, p, k) && !Inside(Real(tree, p[..k]).value)
      case Blocked => exists p :: root < p && blocked(p[|root|..]) && Concerns(tree, lexical, forWrite, p)
    }

    /** A path the rules are asked about: the target, or what exists of it when links are resolved. */
    ghost predicate Concerns(tree: Tree, lexical: Path, forWrite: bool, p: Path) {
      || LeadsTo(tree, lexical, forWrite, p)
      || Real(tree, lexical) == Some(p)
      || (forWrite && exists q, k: nat ::
            LeadsTo(tree, lexical, forWrite, q) && LongestReal(tree, q, k) && Real(tree, q[..k]) == Some(p))
    }

    lemma AllowsIff(p: Path)
      ensures Inside(p) <==> IsSubpath(p, root)
      ensures Inside(p) && Clear(p) <==> Allows(p)
      ensures root <= p ==> (Blocks(Relative(root, p)) <==> p != root && blocked(p[|root|..]))
    {
      IsSubpathIff(p, root);
    }

    lemma WritesSafely(tree: Tree, p: Path)
      ensures WriteIsSafe(tree, p) <==> !IsLink(tree, p) && Allows(Real(tree, Nearest(tree, p)).value)
    {
      LongestIsNearest(tree, p);
      AllowsIff(Real(tree, Nearest(tree, p)).value);
      LinkMeans(tree, p);
    }

    lemma LeadsToTarget(tree: Tree, lexical: Path, forWrite: bool, p: Path)
      requires Normal(root) && Normal(lexical)
      ensures LeadsTo(tree, lexical, forWrite, p) <==> Target(tree, lexical, forWrite) == Some(p)
    {
      var parent := Nearest(tree, Parent(lexical));
      AllowsIff(lexical);
      if Real(tree, lexical).Some? {
        AllowsIff(Real(tree, lexical).value);
      }
      var realParent := Real(tree, parent).value;
      AllowsIff(realParent);
      RelativeGoesOn(realParent, parent, lexical);
      LongestIsNearest(tree, Parent(lexical));
    }

    /** How the checks of the program come out. */
    predicate Refuses(tree: Tree, lexical: Path, target: Path, forWrite: bool, error: GuardError) {
      var (realPath, anchor) := (Real(tree, lexical), Real(tree, Nearest(tree, target)).value);
      match error
      case Escapes => false
      case Blocked =>
        || Blocks(Relative(root, target))
        || (realPath.Some? && IsSubpath(realPath.value, root) && Blocks(Relative(root, realPath.value)))
        || (forWrite && IsSubpath(anchor, root) && Blocks(Relative(root, anchor)))
      case ResolvesOutside => realPath.Some? && !IsSubpath(realPath.value, root)
      case ThroughLink => forWrite && IsLink(tree, target)
      case ParentOutside => forWrite && !IsSubpath(anchor, root)
    }

    lemma RefusalExplained(tree: Tree, lexical: Path, target: Path, forWrite: bool, error: GuardError)
      requires Normal(root) && Normal(lexical) && Target(tree, lexical, forWrite) == Some(target)
      requires Refuses(tree, lexical, target, forWrite, error)
      ensures Explains(tree, lexical, forWrite, error)
    {
      LeadsToTarget(tree, lexical, forWrite, target);
      LongestIsNearest(tree, target);
      var anchor := Real(tree, Nearest(tree, target)).value;
      match error
      case ResolvesOutside => AllowsIff(Real(tree, lexical).value);
      case ThroughLink =>
      case ParentOutside => AllowsIff(anchor);
      case Blocked =>
        var p := if Blocks(Relative(root, target)) then target
                 else if forWrite && IsSubpath(anchor, root) && Blocks(Relative(root, anchor)) then anchor
                 else Real(tree, lexical).value;
        TargetIsBelow(tree, lexical, forWrite);
        AllowsIff(p);
        assert Concerns(tree, lexical, forWrite, p);
    }

    /** A blocked target, and a blocked real path inside, are reported as such. */
    ghost predicate ReportsBlocked(tree: Tree, lexical: Path, forWrite: bool, r: Result<Place, GuardError>) {
      forall p :: root < p && blocked(p[|root|..]) &&
                  (LeadsTo(tree, lexical, forWrite, p) || (Inside(p) && Real(tree, lexical) == Some(p))) ==>
        r == Err(Blocked)
    }

    lemma NothingFound(tree: Tree, lexical: Path, forWrite: bool)
      requires Normal(root) && Normal(lexical) && Target(tree, lexical, forWrite).None?
      ensures Explains(tree, lexical, forWrite, Escapes) && ReportsBlocked(tree, lexical, forWrite, Err(Escapes))
      ensures forall p :: !Answers(tree, lexical, forWrite, p)
    {
      OnlyTarget(tree, lexical, forWrite);
      if Real(tree, lexical).Some? {
        AllowsIff(Real(tree, lexical).value);
      }
    }

    lemma Refused(tree: Tree, lexical: Path, target: Path, forWrite: bool, error: GuardError)
      requires Normal(root) && Normal(lexical) && Target(tree, lexical, forWrite) == Some(target)
      requires !Permits(tree, lexical, target, forWrite) && Refuses(tree, lexical, target, forWrite, error)
      requires Blocks(Relative(root, target)) ==> error == Blocked
      requires var realPath := Real(tree, lexical);
               realPath.Some? && IsSubpath(realPath.value, root) && Blocks(Relative(root, realPath.value)) ==>
                 error == Blocked
      ensures Explains(tree, lexical, forWrite, error) && ReportsBlocked(tree, lexical, forWrite, Err(error))
      ensures forall p :: !Answers(tree, lexical, forWrite, p)
    {
      OnlyTarget(tree, lexical, forWrite);
      RefusalExplained(tree, lexical, target, forWrite, error);
      AnswersIff(tree, lexical, forWrite, target);
      AllowsIff(target);
      if Real(tree, lexical).Some? {
        AllowsIff(Real(tree, lexical).value);
      }
    }

    lemma Answered(tree: Tree, lexical: Path, target: Path, forWrite: bool)
      requires Normal(root) && Normal(lexical) && Target(tree, lexical, forWrite) == Some(target)
      requires Permits(tree, lexical, target, forWrite)
      ensures var place := Place(target, Relative(root, target));
              Safe(tree, place, forWrite) && ReportsBlocked(tree, lexical, forWrite, Ok(place))
      ensures forall p :: Answers(tree, lexical, forWrite, p) <==> p == target
    {
      OnlyTarget(tree, lexical, forWrite);
      TargetIsSafe(tree, lexical, forWrite);
      AnswersIff(tree, lexical, forWrite, target);
    }

    lemma OnlyTarget(tree: Tree, lexical: Path, forWrite: bool)
      requires Normal(root) && Normal(lexical)
      ensures forall p :: LeadsTo(tree, lexical, forWrite, p) <==> Target(tree, lexical, forWrite) == Some(p)
    {
      forall p
        ensures LeadsTo(tree, lexical, forWrite, p) <==> Target(tree, lexical, forWrite) == Some(p)
      {
        LeadsToTarget(tree, lexical, forWrite, p);
      }
    }

    lemma AnswersIff(tree: Tree, lexical: Path, forWrite: bool, p: Path)
      requires Normal(root) && Normal(lexical) && Target(tree, lexical, forWrite) == Some(p)
      ensures Answers(tree, lexical, forWrite, p) <==> Permits(tree, lexical, p, forWrite)
    {
      LeadsToTarget(tree, lexical, forWrite, p);
      TargetIsBelow(tree, lexical, forWrite);
      AllowsIff(p);
      if Real(tree, lexical).Some? {
        AllowsIff(Real(tree, lexical).value);
      }
      WritesSafely(tree, p);
    }

    lemma TargetIsSafe(tree: Tree, lexical: Path, forWrite: bool)
      requires Normal(root) && Normal(lexical)
      requires Target(tree, lexical, forWrite).Some?
      requires Permits(tree, lexical, Target(tree, lexical, forWrite).value, forWrite)
      ensures var p := Target(tree, lexical, forWrite).value; Safe(tree, Place(p, Relative(root, p)), forWrite)
    {
      var p := Target(tree, lexical, forWrite).value;
      TargetIsBelow(tree, lexical, forWrite);
      RelativeLeadsBack(p);
      AllowsIff(p);
      IsSubpathIff(p, root);
      if Exists(tree, p) {
        TargetLeadsInside(tree, lexical, forWrite);
        AllowsIff(Real(tree, p).value);
      }
      WritesSafely(tree, p);
    }

    lemma RelativeLeadsBack(p: Path)
      requires Normal(p) && root <= p
      ensures Resolved(root, Relative(root, p)) == p
    {
      IsSubpathIff(p, root);
      ResolvedNames(root, p[|root|..]);
    }

    lemma TargetLeadsInside(tree: Tree, lexical: Path, forWrite: bool)
      requires Target(tree, lexical, forWrite).Some?
      requires Permits(tree, lexical, Target(tree, lexical, forWrite).value, forWrite)
      requires Exists(tree, Target(tree, lexical, forWrite).value)
      ensures Allows(Real(tree, Target(tree, lexical, forWrite).value).value)
    {
      if Exists(tree, lexical) {
        TargetIsTheSame(tree, lexical, forWrite);
      }
    }

    lemma TargetIsBelow(tree: Tree, lexical: Path, forWrite: bool)
      requires Normal(root) && Normal(lexical) && Target(tree, lexical, forWrite).Some?
      ensures var p := Target(tree, lexical, forWrite).value; root <= p && Normal(p)
    {
      var realPath, parent := Real(tree, lexical), Nearest(tree, Parent(lexical));
      IsSubpathIff(lexical, root);
      if IsSubpath(lexical, root) {
      } else if realPath.Some? && IsSubpath(realPath.value, root) {
        IsSubpathIff(realPath.value, root);
        RealIsNormal(tree, lexical);
      } else {
        IsSubpathIff(Real(tree, parent).value, root);
        RealIsNormal(tree, parent);
        RelativeGoesOn(Real(tree, parent).value, parent, lexical);
      }
    }

    lemma RelativeGoesOn(realParent: Path, parent: Path, lexical: Path)
      requires Normal(lexical) && parent <= lexical
      ensures Resolved(realParent, Relative(parent, lexical)) == realParent + lexical[|parent|..]
    {
      IsSubpathIff(lexical, parent);
      ResolvedNames(realParent, lexical[|parent|..]);
    }

    /** A path that exists is answered with one that leads to the same place. */
    lemma TargetIsTheSame(tree: Tree, lexical: Path, forWrite: bool)
      requires Exists(tree, lexical) && Target(tree, lexical, forWrite).Some?
      requires Permits(tree, lexical, Target(tree, lexical, forWrite).value, forWrite)
      ensures Real(tree, Target(tree, lexical, forWrite).value) == Real(tree, lexical)
    {
      RealOfReal(tree, lexical);
    }

    /** What is read and what is written under one name are the same path. */
    lemma ReadsAndWritesAgree(tree: Tree, lexical: Path)
      requires Target(tree, lexical, false).Some?
      ensures Target(tree, lexical, true) == Target(tree, lexical, false)
    {
    }

    /**
      A file or directory that lies below the root without any link, and is not blocked, can be read
      exactly if its first name below the root does not start with two dots.
    */
    lemma PlainPathIsReadIff(tree: Tree, p: Path)
      requires Real(tree, p) == Some(p) && Clear(p)
      ensures (Target(tree, p, false) == Some(p) && Permits(tree, p, p, false)) <==> p == root || !DotDot(p[|root|])
      ensures Target(tree, p, false).None? <==> p != root && DotDot(p[|root|])
    {
      IsSubpathIff(p, root);
    }
  }

  method Resolve(tree: Tree, w: Workspace, input: Input, forWrite: bool) returns (r: Result<Place, GuardError>)
    requires Normal(w.root)
    ensures var target := w.Target(tree, w.Candidate(input), forWrite);
            && (r == Err(Escapes) <==> target.None?)
            && (r.Ok? <==> target.Some? && w.Permits(tree, w.Candidate(input), target.value, forWrite))
            && (r.Ok? ==> r.value == Place(target.value, Relative(w.root, target.value)))
    ensures r.Ok? ==> w.Safe(tree, r.value, forWrite)
    ensures r.Ok? && r.value.relPath != [] ==> !w.blocked(r.value.relPath)
    ensures (forall relPath :: !w.blocked(relPath)) ==> r != Err(Blocked)
    ensures var lexical := Resolved(if input.absolute then [] else w.root, input.components);
            && (r.Err? ==> w.Explains(tree, lexical, forWrite, r.error))
            && (forall p :: w.Answers(tree, lexical, forWrite, p) <==> r.Ok? && p == r.value.absPath)
            && w.ReportsBlocked(tree, lexical, forWrite, r)
  {
    var absPath := Resolved(if input.absolute then [] else w.root, input.components);
    ResolvedIsNormal(if input.absolute then [] else w.root, input.components);
    var target := FindTarget(tree, w, absPath, forWrite);
    if target.None? {
      w.NothingFound(tree, absPath, forWrite);
      return Err(Escapes);
    }
    var refusal := CheckTarget(tree, w, absPath, target.value, forWrite);
    if refusal.Some? {
      w.Refused(tree, absPath, target.value, forWrite, refusal.value);
      return Err(refusal.value);
    }
    w.Answered(tree, absPath, target.value, forWrite);
    return Ok(Place(target.value, Relative(w.root, target.value)));
  }

  method FindTarget(tree: Tree, w: Workspace, lexical: Path, forWrite: bool) returns (r: Option<Path>)
    ensures r == w.Target(tree, lexical, forWrite)
  {
    var realTarget := Real(tree, lexical);
    if IsSubpath(lexical, w.root) {
      return Some(lexical);
    }
    if realTarget.Some? && IsSubpath(realTarget.value, w.root) {
      return realTarget;
    }
    if !forWrite {
      return None;
    }
    var parent := ClosestExistingParent(tree, Parent(lexical));
    var realParent := Real(tree, parent);
    if realParent.None? || !IsSubpath(realParent.value, w.root) {
      return None;
    }
    return Some(Resolved(realParent.value, Relative(parent, lexical)));
  }

  method CheckTarget(tree: Tree, w: Workspace, lexical: Path, target: Path, forWrite: bool)
    returns (refusal: Option<GuardError>)
    ensures refusal.None? <==> w.Permits(tree, lexical, target, forWrite)
    ensures refusal.Some? ==> w.Refuses(tree, lexical, target, forWrite, refusal.value)
    ensures w.Blocks(Relative(w.root, target)) ==> refusal == Some(Blocked)
    ensures var realTarget := Real(tree, lexical);
            realTarget.Some? && IsSubpath(realTarget.value, w.root) && w.Blocks(Relative(w.root, realTarget.value)) ==>
              refusal == Some(Blocked)
  {
    var realTarget := Real(tree, lexical);
    if w.Blocks(Relative(w.root, target)) {
      return Some(Blocked);
    }
    if realTarget.Some? {
      if !IsSubpath(realTarget.value, w.root) {
        return Some(ResolvesOutside);
      }
      if w.Blocks(Relative(w.root, realTarget.value)) {
        return Some(Blocked);
      }
    }
    if forWrite {
      if IsLink(tree, target) {
        return Some(ThroughLink);
      }
      var parent := ClosestExistingParent(tree, if Exists(tree, target) then target else Parent(target));
      assert parent == Nearest(tree, target);
      var realParent := Real(tree, parent);
      if realParent.Some? && !IsSubpath(realParent.value, w.root) {
        return Some(ParentOutside);
      }
      if realParent.Some? && w.Blocks(Relative(w.root, realParent.value)) {
        return Some(Blocked);
      }
    }
    return None;
  }
}
