/**
 filepath.Join on absolute slash-separated paths, as lists of path elements:
 which relative paths name the same directory, and which stay below one.
 */
module Paths {
  import opened Names

  /** An absolute, clean path from the root down. */
  type Dir = seq<string>

  /** The elements of a path, between its slashes. */
  function Elements(path: string): (es: seq<string>)
    ensures es != []
  {
    if path == [] then [""]
    else
      var es, c := Elements(path[..|path| - 1]), path[|path| - 1];
      if c == '/' then es + [""] else es[..|es| - 1] + [es[|es| - 1] + [c]]
  }

  /** One element: empty and dot ones stay, a double dot goes up, though never above the root. */
  function Enter(dir: Dir, e: string): Dir {
    if e == "" || e == "." then dir
    else if e == ".." then (if dir == [] then [] else dir[..|dir| - 1])
    else dir + [e]
  }

  function Walk(dir: Dir, es: seq<string>): Dir
    decreases |es|
  {
    if es == [] then dir else Walk(Enter(dir, es[0]), es[1..])
  }

  function Join(dir: Dir, path: string): Dir { Walk(dir, Elements(path)) }

  /** A path reduced to what it does anywhere: so many steps up, then down these. */
  datatype Route = Route(ups: nat, downs: Dir)

  function Extend(r: Route, e: string): Route {
    if e == "" || e == "." then r
    else if e == ".." then
      (if r.downs == [] then r.(ups := r.ups + 1) else r.(downs := r.downs[..|r.downs| - 1]))
    else r.(downs := r.downs + [e])
  }

  function Reduce(r: Route, es: seq<string>): Route
    decreases |es|
  {
    if es == [] then r else Reduce(Extend(r, es[0]), es[1..])
  }

  function RouteOf(path: string): Route { Reduce(Route(0, []), Elements(path)) }

  function Take(dir: Dir, r: Route): Dir { dir[..if r.ups <= |dir| then |dir| - r.ups else 0] + r.downs }

  lemma TakeExtend(dir: Dir, r: Route, e: string)
    ensures Enter(Take(dir, r), e) == Take(dir, Extend(r, e))
  {
    var up := if r.ups <= |dir| then |dir| - r.ups else 0;
    if e == ".." {
      if r.downs == [] {
        assert Take(dir, r) == dir[..up];
      } else {
        assert (dir[..up] + r.downs)[..up + |r.downs| - 1] == dir[..up] + r.downs[..|r.downs| - 1];
      }
    } else if e != "" && e != "." {
      assert dir[..up] + r.downs + [e] == dir[..up] + (r.downs + [e]);
    }
  }

  lemma {:induction false} WalkIsReduce(dir: Dir, r: Route, es: seq<string>)
    ensures Walk(Take(dir, r), es) == Take(dir, Reduce(r, es))
    decreases |es|
  {
    if es != [] {
      TakeExtend(dir, r, es[0]);
      WalkIsReduce(dir, Extend(r, es[0]), es[1..]);
    }
  }

  /** Joining a path is following its route. */
  lemma JoinIsRoute(dir: Dir, path: string)
    ensures Join(dir, path) == Take(dir, RouteOf(path))
  {
    assert Take(dir, Route(0, [])) == dir;
    WalkIsReduce(dir, Route(0, []), Elements(path));
  }

  /** A single path element. */
  predicate Plain(name: string) { name != "" && name != "." && name != ".." && '/' !in name }

  lemma {:induction false} OneElement(name: string)
    requires '/' !in name
    ensures Elements(name) == [name]
  {
    if name != [] {
      OneElement(name[..|name| - 1]);
      assert name == name[..|name| - 1] + [name[|name| - 1]];
    }
  }

  lemma PlainJoin(dir: Dir, name: string)
    requires Plain(name)
    ensures Join(dir, name) == dir + [name]
  {
    OneElement(name);
    assert Walk(dir, [name]) == Walk(Enter(dir, name), []);
  }

  /** Two files share a place exactly when their directories and their names agree. */
  lemma SamePlaceIff(staging: Dir, a: string, n: string, b: string, m: string)
    requires Plain(n) && Plain(m)
    ensures Join(Join(staging, a), n) == Join(Join(staging, b), m) <==> Join(staging, a) == Join(staging, b) && n == m
  {
    var p, q := Join(staging, a), Join(staging, b);
    PlainJoin(p, n);
    PlainJoin(q, m);
    if p + [n] == q + [m] {
      assert p == (p + [n])[..|p|] && q == (q + [m])[..|q|];
      assert (p + [n])[|p|] == n && (q + [m])[|q|] == m;
    }
  }

  /** Paths that go up equally far name the same directory exactly when they then go down the same way. */
  lemma SameDirIff(staging: Dir, a: string, b: string)
    requires RouteOf(a).ups == RouteOf(b).ups
    ensures Join(staging, a) == Join(staging, b) <==> RouteOf(a).downs == RouteOf(b).downs
  {
    var r, s := RouteOf(a), RouteOf(b);
    JoinIsRoute(staging, a);
    JoinIsRoute(staging, b);
    var up := if r.ups <= |staging| then |staging| - r.ups else 0;
    assert Take(staging, r)[up..] == r.downs && Take(staging, s)[up..] == s.downs;
  }

  /** Plain names are directories of their own. */
  lemma PlainDirsDiffer(staging: Dir, a: string, b: string)
    requires Plain(a) && Plain(b)
    ensures Join(staging, a) == Join(staging, b) <==> a == b
  {
    PlainJoin(staging, a);
    PlainJoin(staging, b);
    assert (staging + [a])[|staging|] == a && (staging + [b])[|staging|] == b;
  }

  /** The path goes up no further than it then comes down again, to where it was. */
  predicate StaysBelow(staging: Dir, path: string) {
    var r := RouteOf(path);
    staging[if r.ups <= |staging| then |staging| - r.ups else 0..] <= r.downs
  }

  /** A file in the directory a path names lies below staging exactly when the path stays below. */
  lemma BelowIff(staging: Dir, path: string, name: string)
    requires Plain(name)
    ensures staging < Join(Join(staging, path), name) <==> StaysBelow(staging, path)
    ensures staging <= Join(staging, path) <==> StaysBelow(staging, path)
  {
    var r := RouteOf(path);
    var up := if r.ups <= |staging| then |staging| - r.ups else 0;
    var dir := Join(staging, path);
    JoinIsRoute(staging, path);
    PlainJoin(dir, name);
    assert staging == staging[..up] + staging[up..] && dir == staging[..up] + r.downs;
    PrefixIff(staging[..up], staging[up..], r.downs);
    ProperPrefixIff(staging, dir, name);
  }

  lemma PrefixIff(p: Dir, a: Dir, b: Dir)
    ensures p + a <= p + b <==> a <= b
  {
    if p + a <= p + b {
      assert |a| <= |b|;
      forall k | 0 <= k < |a| ensures a[k] == b[k] {
        assert (p + a)[|p| + k] == a[k] && (p + b)[|p| + k] == b[k];
      }
    }
  }

  lemma ProperPrefixIff(p: Dir, dir: Dir, name: string)
    ensures p < dir + [name] <==> p <= dir
  {
    if p < dir + [name] { assert |p| <= |dir| && (dir + [name])[..|p|] == dir[..|p|]; }
  }

  /** A path that never goes up stays below, and so does a plain name. */
  lemma NoUpsStay(staging: Dir, path: string)
    requires RouteOf(path).ups == 0
    ensures StaysBelow(staging, path)
  {
    assert staging[|staging|..] == [];
  }

  lemma PlainStays(staging: Dir, name: string)
    requires Plain(name)
    ensures StaysBelow(staging, name)
  {
    OneElement(name);
    assert Reduce(Route(0, []), [name]) == Reduce(Extend(Route(0, []), name), []);
    NoUpsStay(staging, name);
  }

  lemma AddChar(path: string, c: char)
    ensures var es := Elements(path);
            Elements(path + [c]) == if c == '/' then es + [""] else es[..|es| - 1] + [es[|es| - 1] + [c]]
  {
    assert (path + [c])[..|path|] == path;
  }

  /** A leading dot element changes nothing. */
  lemma DotSlash(staging: Dir)
    ensures Join(staging, "./t") == Join(staging, "t") == staging + ["t"]
  {
    AddChar(".", '/');
    AddChar("./", 't');
    OneElement(".");
    assert "." + ['/'] == "./" && "./" + ['t'] == "./t" && "" + ['t'] == "t";
    assert Elements("./t") == [".", "t"];
    PlainJoin(staging, "t");
    OneElement("t");
    assert Walk(staging, [".", "t"]) == Walk(Enter(staging, "."), ["t"]);
  }

  /** A double dot leaves any directory but the root. */
  lemma DoubleDot(staging: Dir)
    requires staging != []
    ensures !StaysBelow(staging, "..") && Join(staging, "..") == staging[..|staging| - 1]
  {
    OneElement("..");
    assert Walk(staging, [".."]) == Walk(Enter(staging, ".."), []);
    assert Reduce(Route(0, []), [".."]) == Reduce(Extend(Route(0, []), ".."), []);
  }
}
