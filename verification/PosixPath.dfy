/**
 Path text: Python's `posixpath.normpath`, `str(Path(text))` and `Path(text).resolve()`
 on a file system without symbolic links.
 */
module PosixPath {
  import opened Text

  /** A component a parsed path can hold; ".." is one. */
  predicate Plain(c: string) {
    c != "" && c != "." && '/' !in c
  }

  ghost predicate AllPlain(parts: seq<string>) {
    forall i :: 0 <= i < |parts| ==> Plain(parts[i])
  }

  function KeepPlain(parts: seq<string>): (r: seq<string>)
    requires forall i :: 0 <= i < |parts| ==> '/' !in parts[i]
    ensures AllPlain(r)
  {
    if parts == [] then []
    else (if parts[0] == "" || parts[0] == "." then [] else [parts[0]]) + KeepPlain(parts[1..])
  }

  function Parts(s: string): (r: seq<string>)
    ensures AllPlain(r)
  {
    KeepPlain(Split(s, '/'))
  }

  /** Leading slashes that count: exactly two are kept, any other number means one. */
  function Slashes(s: string): (k: nat)
    ensures k <= 2
  {
    if !StartsWith(s, "/") then 0
    else if StartsWith(s, "//") && !StartsWith(s, "///") then 2
    else 1
  }

  function Root(k: nat): string
    requires k <= 2
  {
    if k == 0 then "" else if k == 1 then "/" else "//"
  }

  function Render(k: nat, comps: seq<string>): string
    requires k <= 2
  {
    if k == 0 && comps == [] then "." else Root(k) + Join(comps, '/')
  }

  /** `str(Path(s))` */
  function PathStr(s: string): string {
    Render(Slashes(s), Parts(s))
  }

  // ------------------------------------------------------ Collapsing ".."

  function Push(absolute: bool, stack: seq<string>, c: string): seq<string> {
    if c != ".." || (!absolute && stack == []) || (stack != [] && stack[|stack| - 1] == "..") then stack + [c]
    else if stack != [] then stack[..|stack| - 1]
    else stack
  }

  function Collapse(absolute: bool, stack: seq<string>, parts: seq<string>): seq<string>
    decreases |parts|
  {
    if parts == [] then stack else Collapse(absolute, Push(absolute, stack, parts[0]), parts[1..])
  }

  function NormComps(s: string): seq<string> {
    Collapse(Slashes(s) > 0, [], Parts(s))
  }

  /** `posixpath.normpath(s)` */
  function NormPath(s: string): string {
    Render(Slashes(s), NormComps(s))
  }

  /** Nothing left to collapse: ".." only in front, and never in an absolute path. */
  ghost predicate Normal(absolute: bool, comps: seq<string>) {
    && AllPlain(comps)
    && (absolute ==> ".." !in comps)
    && (forall i, j :: 0 <= i < j < |comps| && comps[j] == ".." ==> comps[i] == "..")
  }

  lemma {:induction false} CollapseIsNormal(absolute: bool, stack: seq<string>, parts: seq<string>)
    requires Normal(absolute, stack) && AllPlain(parts)
    ensures Normal(absolute, Collapse(absolute, stack, parts))
    decreases |parts|
  {
    if parts != [] {
      CollapseIsNormal(absolute, Push(absolute, stack, parts[0]), parts[1..]);
    }
  }

  lemma {:induction false} CollapseIsFixed(absolute: bool, stack: seq<string>, parts: seq<string>)
    requires Normal(absolute, stack + parts)
    ensures Collapse(absolute, stack, parts) == stack + parts
    decreases |parts|
  {
    if parts == [] {
      assert stack + parts == stack;
    } else {
      var c, whole := parts[0], stack + parts;
      assert whole[|stack|] == c;
      if c == ".." && stack != [] {
        assert whole[|stack| - 1] == "..";
      }
      assert stack + [c] + parts[1..] == stack + parts;
      CollapseIsFixed(absolute, stack + [c], parts[1..]);
    }
  }

  lemma {:induction false} CollapseConcat(absolute: bool, stack: seq<string>, a: seq<string>, b: seq<string>)
    ensures Collapse(absolute, stack, a + b) == Collapse(absolute, Collapse(absolute, stack, a), b)
    decreases |a|
  {
    if a == [] {
      assert a + b == b;
    } else {
      CollapseConcat(absolute, Push(absolute, stack, a[0]), a[1..], b);
      assert (a + b)[1..] == a[1..] + b;
    }
  }

  // -------------------------------------------------- Rendering, reparsed

  lemma {:induction false} KeepPlainFixed(parts: seq<string>)
    requires AllPlain(parts)
    ensures KeepPlain(parts) == parts
  {
    if parts != [] {
      KeepPlainFixed(parts[1..]);
    }
  }

  lemma {:induction false} SplitAfterRoot(k: nat, s: string)
    requires k <= 2
    ensures KeepPlain(Split(Root(k) + s, '/')) == KeepPlain(Split(s, '/'))
    decreases k
  {
    if k == 0 {
      assert Root(k) + s == s;
    } else {
      assert Root(k) + s == "" + ['/'] + (Root(k - 1) + s);
      SplitConcat("", '/', Root(k - 1) + s);
      SplitAfterRoot(k - 1, s);
      var rest := Split(Root(k - 1) + s, '/');
      assert ([""] + rest)[1..] == rest;
    }
  }

  lemma JoinStartsPlain(comps: seq<string>)
    requires AllPlain(comps) && comps != []
    ensures Join(comps, '/') != "" && Join(comps, '/')[0] != '/'
  {
    assert comps[0][0] in comps[0];
  }

  /** Rendering loses nothing: the slashes and the components can be read back. */
  lemma RenderReadsBack(k: nat, comps: seq<string>)
    requires k <= 2 && AllPlain(comps)
    ensures Slashes(Render(k, comps)) == k && Parts(Render(k, comps)) == comps
  {
    if comps == [] {
      if k == 0 {
        SplitPlain(".", '/');
        assert KeepPlain(["."]) == [];
      } else {
        SplitPlain("", '/');
        SplitAfterRoot(k, "");
        assert Root(k) + "" == Root(k);
        assert KeepPlain([""]) == [];
      }
    } else {
      JoinStartsPlain(comps);
      SplitJoin(comps, '/');
      KeepPlainFixed(comps);
      SplitAfterRoot(k, Join(comps, '/'));
      var s := Render(k, comps);
      assert s[|Root(k)|] == Join(comps, '/')[0];
    }
  }

  lemma NormCompsAreNormal(s: string)
    ensures Normal(Slashes(s) > 0, NormComps(s))
  {
    CollapseIsNormal(Slashes(s) > 0, [], Parts(s));
  }

  /** Normalising is idempotent. */
  lemma NormPathIdempotent(s: string)
    ensures NormPath(NormPath(s)) == NormPath(s)
    ensures NormComps(NormPath(s)) == NormComps(s) && Slashes(NormPath(s)) == Slashes(s)
  {
    NormCompsAreNormal(s);
    RenderReadsBack(Slashes(s), NormComps(s));
    CollapseIsFixed(Slashes(s) > 0, [], NormComps(s));
    assert [] + NormComps(s) == NormComps(s);
  }

  // ------------------------------------------------------------ Resolving

  /** The components of `Path(s).resolve()` from a working directory; always absolute. */
  function ResolveComps(cwd: seq<string>, s: string): seq<string> {
    Collapse(true, if Slashes(s) > 0 then [] else cwd, Parts(s))
  }

  lemma ResolvedIsNormal(cwd: seq<string>, s: string)
    requires Normal(true, cwd)
    ensures Normal(true, ResolveComps(cwd, s))
  {
    CollapseIsNormal(true, if Slashes(s) > 0 then [] else cwd, Parts(s));
  }

  /** Resolving what was resolved changes nothing. */
  lemma ResolvedIsFixed(cwd: seq<string>, comps: seq<string>)
    requires Normal(true, comps)
    ensures ResolveComps(cwd, Render(1, comps)) == comps
  {
    RenderReadsBack(1, comps);
    CollapseIsFixed(true, [], comps);
    assert [] + comps == comps;
  }

  // ----------------------------------------------- Where a path leads

  /** One step from a directory, as the operating system takes it; the root is its own parent. */
  function Step(dir: seq<string>, c: string): seq<string> {
    if c == "" || c == "." then dir
    else if c != ".." then dir + [c]
    else if dir == [] then dir
    else dir[..|dir| - 1]
  }

  function Follow(dir: seq<string>, comps: seq<string>): seq<string> {
    if comps == [] then dir else Step(Follow(dir, comps[..|comps| - 1]), comps[|comps| - 1])
  }

  /** Where the text leads from a directory. */
  function Leads(dir: seq<string>, s: string): seq<string> {
    Follow(if StartsWith(s, "/") then [] else dir, Split(s, '/'))
  }

  lemma {:induction false} FollowConcat(dir: seq<string>, a: seq<string>, b: seq<string>)
    ensures Follow(dir, a + b) == Follow(Follow(dir, a), b)
    decreases |b|
  {
    if b == [] {
      assert a + b == a;
    } else {
      assert (a + b)[..|a + b| - 1] == a + b[..|b| - 1];
      FollowConcat(dir, a, b[..|b| - 1]);
    }
  }

  lemma FollowOne(dir: seq<string>, c: string)
    ensures Follow(dir, [c]) == Step(dir, c)
  {
    assert [c][..0] == [];
  }

  /** A component pushed on a normal stack leads one step further. */
  lemma PushFollows(absolute: bool, dir: seq<string>, stack: seq<string>, c: string)
    requires Normal(absolute, stack) && Plain(c) && (absolute ==> dir == [])
    ensures Follow(dir, Push(absolute, stack, c)) == Step(Follow(dir, stack), c)
  {
    FollowConcat(dir, stack, [c]);
    FollowOne(Follow(dir, stack), c);
  }

  /** Collapsing ".." does not change where a path leads, from any directory. */
  lemma {:induction false} CollapseFollows(absolute: bool, dir: seq<string>, stack: seq<string>, parts: seq<string>)
    requires Normal(absolute, stack) && AllPlain(parts) && (absolute ==> dir == [])
    ensures Follow(dir, Collapse(absolute, stack, parts)) == Follow(Follow(dir, stack), parts)
    decreases |parts|
  {
    if parts != [] {
      var next := Push(absolute, stack, parts[0]);
      CollapseIsNormal(absolute, stack, [parts[0]]);
      assert Collapse(absolute, stack, [parts[0]]) == next by {
        assert [parts[0]][1..] == [];
      }
      CollapseFollows(absolute, dir, next, parts[1..]);
      PushFollows(absolute, dir, stack, parts[0]);
      FollowConcat(Follow(dir, stack), [parts[0]], parts[1..]);
      FollowOne(Follow(dir, stack), parts[0]);
      assert [parts[0]] + parts[1..] == parts;
    }
  }

  lemma {:induction false} KeepPlainFollows(dir: seq<string>, parts: seq<string>)
    requires forall i :: 0 <= i < |parts| ==> '/' !in parts[i]
    ensures Follow(dir, KeepPlain(parts)) == Follow(dir, parts)
    decreases |parts|
  {
    if parts != [] {
      FollowConcat(dir, [parts[0]], parts[1..]);
      assert [parts[0]] + parts[1..] == parts;
      FollowOne(dir, parts[0]);
      KeepPlainFollows(Step(dir, parts[0]), parts[1..]);
      if parts[0] == "" || parts[0] == "." {
        assert KeepPlain(parts) == KeepPlain(parts[1..]);
      } else {
        FollowConcat(dir, [parts[0]], KeepPlain(parts[1..]));
        assert KeepPlain(parts) == [parts[0]] + KeepPlain(parts[1..]);
      }
    }
  }

  lemma {:induction false} FollowFromRoot(comps: seq<string>)
    requires Normal(true, comps)
    ensures Follow([], comps) == comps
  {
    if comps != [] {
      FollowFromRoot(comps[..|comps| - 1]);
    }
  }

  /** Resolving gives the directory the text leads to. */
  lemma ResolvingFollows(cwd: seq<string>, s: string)
    requires Normal(true, cwd)
    ensures ResolveComps(cwd, s) == Leads(cwd, s)
  {
    var stack := if Slashes(s) > 0 then [] else cwd;
    CollapsingGoes(stack, Parts(s));
    KeepPlainFollows(stack, Split(s, '/'));
  }

  /** From a normal stack of components, which is a directory, collapsing goes where the rest leads. */
  lemma CollapsingGoes(stack: seq<string>, parts: seq<string>)
    requires Normal(true, stack) && AllPlain(parts)
    ensures Collapse(true, stack, parts) == Follow(stack, parts)
  {
    CollapseFollows(true, [], stack, parts);
    CollapseIsNormal(true, stack, parts);
    FollowFromRoot(stack);
    FollowFromRoot(Collapse(true, stack, parts));
  }

  lemma RenderIsNotEmpty(k: nat, comps: seq<string>)
    requires k <= 2 && AllPlain(comps)
    ensures Render(k, comps) != ""
  {
    if comps != [] {
      JoinStartsPlain(comps);
    }
  }

  lemma NormalisedIsNotEmpty(s: string)
    ensures NormPath(s) != "" && PathStr(s) != ""
  {
    NormCompsAreNormal(s);
    RenderIsNotEmpty(Slashes(s), NormComps(s));
    RenderIsNotEmpty(Slashes(s), Parts(s));
  }

  /** A normalised path leads where the path did, from every directory. */
  lemma NormalisingKeepsDestination(dir: seq<string>, s: string)
    ensures Leads(dir, NormPath(s)) == Leads(dir, s)
    ensures Leads(dir, PathStr(s)) == Leads(dir, s)
  {
    var start := if StartsWith(s, "/") then [] else dir;
    NormCompsAreNormal(s);
    RenderedLeads(dir, Slashes(s), NormComps(s));
    RenderedLeads(dir, Slashes(s), Parts(s));
    CollapseFollows(Slashes(s) > 0, start, [], Parts(s));
    KeepPlainFollows(start, Split(s, '/'));
  }

  lemma RenderedLeads(dir: seq<string>, k: nat, comps: seq<string>)
    requires k <= 2 && AllPlain(comps)
    ensures Leads(dir, Render(k, comps)) == Follow(if k > 0 then [] else dir, comps)
  {
    var s := Render(k, comps);
    RenderReadsBack(k, comps);
    KeepPlainFollows(if k > 0 then [] else dir, Split(s, '/'));
  }

  // --------------------------------------------- Prefixes of rendered text

  lemma {:induction false} SplitJoinConcat(a: seq<string>, rest: string)
    requires a != [] && forall i :: 0 <= i < |a| ==> '/' !in a[i]
    ensures Split(Join(a, '/') + "/" + rest, '/') == a + Split(rest, '/')
  {
    if |a| == 1 {
      SplitConcat(a[0], '/', rest);
    } else {
      SplitJoinConcat(a[1..], rest);
      var tail := Join(a[1..], '/') + "/" + rest;
      SplitConcat(a[0], '/', tail);
      assert Join(a, '/') == a[0] + ['/'] + Join(a[1..], '/');
      assert Join(a, '/') + "/" + rest == a[0] + ['/'] + tail;
      assert a == [a[0]] + a[1..];
    }
  }

  lemma {:induction false} JoinConcat(a: seq<string>, b: seq<string>)
    requires a != [] && b != []
    ensures Join(a + b, '/') == Join(a, '/') + "/" + Join(b, '/')
  {
    if |a| == 1 {
      assert (a + b)[1..] == b;
    } else {
      JoinConcat(a[1..], b);
      assert (a + b)[1..] == a[1..] + b;
    }
  }

  lemma SlashesBelow(k: nat, r: seq<string>, rest: string)
    requires k <= 2 && AllPlain(r) && r != []
    ensures Slashes(Render(k, r) + rest) == k
  {
    JoinStartsPlain(r);
    var s := Render(k, r) + rest;
    assert s[|Root(k)|] == Join(r, '/')[0];
  }

  lemma PartsBelow(k: nat, r: seq<string>, rest: string)
    requires k <= 2 && AllPlain(r) && r != []
    ensures Parts(Render(k, r) + "/" + rest) == r + KeepPlain(Split(rest, '/'))
  {
    assert Render(k, r) + "/" + rest == Root(k) + (Join(r, '/') + "/" + rest);
    SplitAfterRoot(k, Join(r, '/') + "/" + rest);
    SplitJoinConcat(r, rest);
    KeepPlainConcat(r, Split(rest, '/'));
  }

  lemma RenderBelow(k: nat, r: seq<string>, q: seq<string>)
    requires k <= 2 && r != [] && q != []
    ensures Render(k, r + q) == Render(k, r) + "/" + Join(q, '/')
  {
    JoinConcat(r, q);
  }

  /** What `path.startswith(prefix + "/")` means on components. */
  lemma RenderedPrefix(m: nat, p: seq<string>, k: nat, r: seq<string>)
    requires m <= 2 && k <= 2 && AllPlain(p) && AllPlain(r) && r != []
    ensures StartsWith(Render(m, p), Render(k, r) + "/") <==> m == k && |r| < |p| && r <= p
  {
    var path, prefix := Render(m, p), Render(k, r) + "/";
    if StartsWith(path, prefix) {
      assert path == prefix + path[|prefix|..];
      PrefixComps(m, p, k, r, path[|prefix|..]);
    }
    if m == k && |r| < |p| && r <= p {
      assert p == r + p[|r|..];
      RenderBelow(k, r, p[|r|..]);
    }
  }

  lemma PrefixComps(m: nat, p: seq<string>, k: nat, r: seq<string>, rest: string)
    requires m <= 2 && k <= 2 && AllPlain(p) && AllPlain(r) && r != []
    requires Render(m, p) == Render(k, r) + "/" + rest
    ensures m == k && |r| < |p| && r <= p
  {
    RenderReadsBack(m, p);
    assert Render(k, r) + "/" + rest == Render(k, r) + ("/" + rest);
    SlashesBelow(k, r, "/" + rest);
    PartsBelow(k, r, rest);
    TextIsLonger(k, r, rest);
    assert p != r;
  }

  lemma TextIsLonger(k: nat, r: seq<string>, rest: string)
    requires k <= 2
    ensures Render(k, r) != Render(k, r) + "/" + rest
  {
    assert |Render(k, r) + "/" + rest| == |Render(k, r)| + 1 + |rest|;
  }

  lemma {:induction false} KeepPlainConcat(a: seq<string>, b: seq<string>)
    requires AllPlain(a) && forall i :: 0 <= i < |b| ==> '/' !in b[i]
    ensures KeepPlain(a + b) == a + KeepPlain(b)
  {
    if a == [] {
      assert a + b == b;
    } else {
      KeepPlainConcat(a[1..], b);
      assert (a + b)[1..] == a[1..] + b;
    }
  }
}
