/**
 Which lists of mappings translate every server path there and back: the exact condition behind
 the round trip of `remap_server_path` (packages/shared/encodr_shared/path_mappings.py:37-47) and
 `remap_worker_path_to_server_path` (apps/api/app/services/path_safety.py:100-110).
 */
module RoundTripExactness {
  import opened Wrappers
  import opened PosixPath
  import opened PathMappings
  import opened PathTranslation

  /** The components of a mapping's server root and of its normalised worker root. */
  function ServerComps(m: Mapping): seq<string> { Parts(m.serverPath) }

  function WorkerComps(m: Mapping): seq<string> { NormComps(m.workerPath) }

  /** What normalisation makes of absolute POSIX mappings without backslashes. */
  ghost predicate PosixMappings(ms: seq<Mapping>) {
    LongestFirst(ms) && forall i :: 0 <= i < |ms| ==> PlainPosix(ms[i])
  }

  /** The server path is there and back again, unless it has no worker path or holds a backslash. */
  ghost predicate TranslatesBack(cwd: seq<string>, path: string, ms: seq<Mapping>) {
    var source, worker := Render(1, ResolveComps(cwd, path)), RemapServerPath(cwd, path, ms);
    '\\' !in source && worker.Some? ==> RemapWorkerPath(worker.value, ms) == source
  }

  /** The shallowest path of `m` whose worker path lies at or below `other`'s worker root. */
  function Shadow(m: Mapping, other: Mapping): Option<seq<string>> {
    var w, o := WorkerComps(m), WorkerComps(other);
    if o != [] && Slashes(m.workerPath) != Slashes(other.workerPath) then None
    else if o <= w then Some(ServerComps(m))
    else if w <= o then Some(ServerComps(m) + o[|w|..])
    else None
  }

  /** An earlier worker root does no harm to `ms[i]` when the path it shadows goes to another mapping. */
  predicate Harmless(ms: seq<Mapping>, i: nat, j: nat)
    requires i < |ms| && j < |ms|
  {
    var shadow := Shadow(ms[i], ms[j]);
    shadow.Some? ==> FirstCovering(Render(1, shadow.value), ms) != Some(i)
  }

  lemma BelowAbsolute(m: nat, p: seq<string>, k: nat, r: seq<string>)
    requires m > 0 && k > 0
    ensures Below(false, m, p, k, r) == if (r == [] || m == k) && r <= p then Some(p[|r|..]) else None
  {
    assert r <= p && |r| == |p| ==> p == r && p[|r|..] == [];
    assert r == [] ==> p[|r|..] == p;
  }

  /** The worker path of `m` with `t` below it. */
  function WorkerPath(m: Mapping, t: seq<string>): string {
    Render(Slashes(m.workerPath), Parts(m.workerPath) + t)
  }

  /** That path lies at or below `other`'s worker root. */
  predicate Claims(m: Mapping, other: Mapping, t: seq<string>) {
    && (WorkerComps(other) == [] || Slashes(m.workerPath) == Slashes(other.workerPath))
    && WorkerComps(other) <= WorkerComps(m) + t
  }

  function Rest(m: Mapping, other: Mapping, t: seq<string>): seq<string>
    requires Claims(m, other, t)
  {
    (WorkerComps(m) + t)[|WorkerComps(other)|..]
  }

  ghost predicate PlainPosix(m: Mapping) {
    WellFormed(m) && PosixRoot(m) && '\\' !in m.serverPath
  }

  /** Components a server path can have: no "..", no backslash. */
  ghost predicate Tame(c: seq<string>) {
    Normal(true, c) && forall k :: 0 <= k < |c| ==> '\\' !in c[k]
  }

  lemma Claim(m: Mapping, other: Mapping, t: seq<string>)
    requires PlainPosix(m) && PlainPosix(other) && Tame(t)
    ensures WorkerPathSuffix(WorkerPath(m, t), other.workerPath) == if Claims(m, other, t) then Some(Rest(m, other, t)) else None
  {
    OwnRootMatches(m, t);
    WorkerPathComps(m, t);
    SuffixMeaning(WorkerPath(m, t), other.workerPath);
    BelowAbsolute(Slashes(m.workerPath), WorkerComps(m) + t, Slashes(other.workerPath), WorkerComps(other));
  }

  lemma TameSuffix(c: seq<string>, n: nat)
    requires Normal(true, c) && '\\' !in Render(1, c) && n <= |c|
    ensures Tame(c[n..])
  {
    RenderHolds(1, c, '\\');
    SuffixIsNormal(c, n);
  }

  /** Where a covered server path goes and what is left of it below the chosen root. */
  lemma Chosen(ms: seq<Mapping>, c: seq<string>, i: nat)
    requires PosixMappings(ms) && Normal(true, c) && '\\' !in Render(1, c)
    requires FirstCovering(Render(1, c), ms) == Some(i)
    ensures i < |ms| && ServerComps(ms[i]) <= c && (ServerComps(ms[i]) == [] ==> c == [])
    ensures var t := c[|ServerComps(ms[i])|..];
      Tame(t) && WorkerText(Render(1, c), ms[i]) == WorkerPath(ms[i], t)
  {
    ChosenBy(ms[i], c);
    TameSuffix(c, |ServerComps(ms[i])|);
  }

  lemma ChosenBy(m: Mapping, c: seq<string>)
    requires PlainPosix(m) && Normal(true, c) && Covers(m.serverPath, Render(1, c))
    ensures ServerComps(m) <= c && (ServerComps(m) == [] ==> c == [])
    ensures WorkerText(Render(1, c), m) == WorkerPath(m, c[|ServerComps(m)|..])
  {
    WorkerTextComps(m, c);
    CoveredComps(m, c);
  }

  /** A path is claimed only if the shadow reaches it. */
  lemma ClaimedBelowShadow(m: Mapping, other: Mapping, t: seq<string>)
    requires Claims(m, other, t)
    ensures Shadow(m, other).Some? && Shadow(m, other).value <= ServerComps(m) + t
    ensures ServerComps(m) <= Shadow(m, other).value
  {
    var w, o := WorkerComps(m), WorkerComps(other);
    if |o| <= |w| {
      assert (w + t)[..|o|] == w[..|o|];
      assert o <= w;
    } else {
      assert (w + t)[..|w|] == w && o[..|w|] == w;
      assert w <= o && o[|w|..] <= t;
    }
  }

  /** Covering a path is covering everything below it, but for the root. */
  lemma CoversBelow(m: Mapping, p: seq<string>, c: seq<string>)
    requires WellFormed(m) && Normal(true, p) && Normal(true, c) && p <= c && (p == [] ==> c == [])
    requires Covers(m.serverPath, Render(1, p))
    ensures Covers(m.serverPath, Render(1, c))
  {
    CoveredComps(m, p);
    CoveredComps(m, c);
  }

  lemma PrefixIsNormal(p: seq<string>, c: seq<string>)
    requires Normal(true, c) && p <= c
    ensures Normal(true, p)
  {
  }

  predicate EarlierHarmless(ms: seq<Mapping>, i: nat)
    requires i < |ms|
  {
    forall j :: 0 <= j < i ==> Harmless(ms, i, j)
  }

  /** If every earlier worker root is harmless, the path comes back. */
  lemma HarmlessComesBack(cwd: seq<string>, path: string, ms: seq<Mapping>)
    requires Normal(true, cwd) && PosixMappings(ms)
    requires forall i, j :: 0 <= j < i < |ms| ==> Harmless(ms, i, j)
    ensures TranslatesBack(cwd, path, ms)
  {
    var c := ResolveComps(cwd, path);
    ResolvedIsNormal(cwd, path);
    if '\\' !in Render(1, c) && RemapServerPath(cwd, path, ms).Some? {
      var i := FirstCovering(Render(1, c), ms).value;
      Chosen(ms, c, i);
      assert EarlierHarmless(ms, i);
      var t := c[|ServerComps(ms[i])|..];
      assert ServerComps(ms[i]) + t == c;
      NoneClaims(ms, c, i, t);
      UnclaimedComesBack(ms, i, t);
    }
  }

  lemma NoneClaims(ms: seq<Mapping>, c: seq<string>, i: nat, t: seq<string>)
    requires PosixMappings(ms) && i < |ms| && EarlierHarmless(ms, i)
    requires Normal(true, c) && ServerComps(ms[i]) + t == c && (ServerComps(ms[i]) == [] ==> c == [])
    requires FirstCovering(Render(1, c), ms) == Some(i)
    ensures forall j :: 0 <= j < i ==> !Claims(ms[i], ms[j], t)
  {
    forall j | 0 <= j < i ensures !Claims(ms[i], ms[j], t) {
      if Claims(ms[i], ms[j], t) {
        ClaimIsHarmful(ms, c, i, j, t);
      }
    }
  }

  lemma UnclaimedComesBack(ms: seq<Mapping>, i: nat, t: seq<string>)
    requires PosixMappings(ms) && i < |ms| && Tame(t)
    requires forall j :: 0 <= j < i ==> !Claims(ms[i], ms[j], t)
    ensures RemapWorkerPath(WorkerPath(ms[i], t), ms) == Render(1, ServerComps(ms[i]) + t)
  {
    OwnClaim(ms[i], t);
    EarlierSuffixes(ms, i, t);
    FirstSomeIs(Suffixes(WorkerPath(ms[i], t), ms), i);
    CollapseIsFixed(true, ServerComps(ms[i]), t);
  }

  lemma OwnClaim(m: Mapping, t: seq<string>)
    requires PlainPosix(m) && Tame(t)
    ensures WorkerPathSuffix(WorkerPath(m, t), m.workerPath) == Some(t)
  {
    Claim(m, m, t);
    assert Rest(m, m, t) == t;
  }

  lemma EarlierSuffixes(ms: seq<Mapping>, i: nat, t: seq<string>)
    requires PosixMappings(ms) && i < |ms| && Tame(t)
    requires forall j :: 0 <= j < i ==> !Claims(ms[i], ms[j], t)
    ensures forall j :: 0 <= j < i ==> Suffixes(WorkerPath(ms[i], t), ms)[j].None?
  {
    forall j | 0 <= j < i ensures Suffixes(WorkerPath(ms[i], t), ms)[j].None? {
      Claim(ms[i], ms[j], t);
    }
  }

  lemma ClaimIsHarmful(ms: seq<Mapping>, c: seq<string>, i: nat, j: nat, t: seq<string>)
    requires PosixMappings(ms) && j < i < |ms| && Normal(true, c)
    requires ServerComps(ms[i]) + t == c && (ServerComps(ms[i]) == [] ==> c == [])
    requires Claims(ms[i], ms[j], t) && FirstCovering(Render(1, c), ms) == Some(i)
    ensures !Harmless(ms, i, j)
  {
    ClaimedBelowShadow(ms[i], ms[j], t);
    FirstAbove(ms, Shadow(ms[i], ms[j]).value, c, i);
  }

  /** The mapping of a path is also that of every path above it that it covers. */
  lemma FirstAbove(ms: seq<Mapping>, p: seq<string>, c: seq<string>, i: nat)
    requires PosixMappings(ms) && i < |ms| && Normal(true, c) && p <= c
    requires ServerComps(ms[i]) <= p && (ServerComps(ms[i]) == [] ==> c == [])
    requires FirstCovering(Render(1, c), ms) == Some(i)
    ensures FirstCovering(Render(1, p), ms) == Some(i)
  {
    PrefixIsNormal(p, c);
    CoveredComps(ms[i], p);
    forall k | 0 <= k < i ensures !Covers(ms[k].serverPath, Render(1, p)) {
      NotAbove(ms[k], p, c);
    }
    FirstIs(Render(1, p), ms, i);
  }

  lemma NotAbove(m: Mapping, p: seq<string>, c: seq<string>)
    requires WellFormed(m) && Normal(true, p) && Normal(true, c) && p <= c && (p == [] ==> c == [])
    requires !Covers(m.serverPath, Render(1, c))
    ensures !Covers(m.serverPath, Render(1, p))
  {
    if Covers(m.serverPath, Render(1, p)) {
      CoversBelow(m, p, c);
    }
  }

  lemma FirstIs(source: string, ms: seq<Mapping>, i: nat)
    requires i < |ms| && Covers(ms[i].serverPath, source)
    requires forall k :: 0 <= k < i ==> !Covers(ms[k].serverPath, source)
    ensures FirstCovering(source, ms) == Some(i)
  {
    assert exists k :: 0 <= k < |ms| && Covers(ms[k].serverPath, source);
    assert FirstCovering(source, ms).Some?;
  }

  // -------------------------------------------------------- The path that does not come back

  lemma {:induction false} CollapseHolds(absolute: bool, stack: seq<string>, parts: seq<string>, x: char)
    requires forall c :: c in stack || c in parts ==> x !in c
    ensures forall c :: c in Collapse(absolute, stack, parts) ==> x !in c
    decreases |parts|
  {
    if parts != [] {
      assert forall c :: c in Push(absolute, stack, parts[0]) ==> c in stack || c == parts[0];
      CollapseHolds(absolute, Push(absolute, stack, parts[0]), parts[1..], x);
    }
  }

  lemma RootsAreTame(m: Mapping)
    requires PlainPosix(m)
    ensures Tame(ServerComps(m)) && Tame(WorkerComps(m))
  {
    RenderHolds(1, ServerComps(m), '\\');
    RenderHolds(Slashes(m.workerPath), Parts(m.workerPath), '\\');
    CollapseHolds(true, [], Parts(m.workerPath), '\\');
    NormCompsAreNormal(m.workerPath);
  }

  /** The shadowed path is a server path like any other. */
  lemma ShadowIsAPath(m: Mapping, other: Mapping)
    requires PlainPosix(m) && PlainPosix(other) && Shadow(m, other).Some?
    ensures var p := Shadow(m, other).value;
      && Tame(p) && '\\' !in Render(1, p) && ServerComps(m) <= p
      && Claims(m, other, p[|ServerComps(m)|..])
  {
    RootsAreTame(m);
    RootsAreTame(other);
    var p, w, o := Shadow(m, other).value, WorkerComps(m), WorkerComps(other);
    RenderHolds(1, p, '\\');
    if o <= w {
      assert p[|ServerComps(m)|..] == [] && w + [] == w;
    } else {
      assert p[|ServerComps(m)|..] == o[|w|..] && w + o[|w|..] == o;
    }
  }

  lemma RootIsShortest(m: Mapping)
    requires WellFormed(m)
    ensures |m.serverPath| >= 1 && (|m.serverPath| == 1 <==> ServerComps(m) == [])
  {
    if ServerComps(m) != [] {
      JoinStartsPlain(ServerComps(m));
    }
  }

  /** A root at least as long as one that covers `p`, and which does not cover it, has nothing at `p`. */
  lemma OtherRootElsewhere(m: Mapping, other: Mapping, p: seq<string>, suffix: seq<string>)
    requires WellFormed(m) && WellFormed(other) && Normal(true, p) && |other.serverPath| >= |m.serverPath|
    requires Covers(m.serverPath, Render(1, p)) && !Covers(other.serverPath, Render(1, p))
    ensures ServerComps(other) + suffix != p
  {
    CoveredComps(m, p);
    CoveredComps(other, p);
    RootIsShortest(m);
    RootIsShortest(other);
    assert ServerComps(other) + suffix == p ==> ServerComps(other) <= p;
    assert suffix == [] ==> ServerComps(other) + suffix == ServerComps(other);
  }

  lemma HarmfulDoesNotComeBack(cwd: seq<string>, ms: seq<Mapping>, i: nat, j: nat) returns (path: string)
    requires Normal(true, cwd) && PosixMappings(ms) && j < i < |ms| && !Harmless(ms, i, j)
    ensures !TranslatesBack(cwd, path, ms)
  {
    var p := Shadow(ms[i], ms[j]).value;
    path := Render(1, p);
    ShadowIsAPath(ms[i], ms[j]);
    ResolvedIsFixed(cwd, p);
    Chosen(ms, p, i);
    var t := p[|ServerComps(ms[i])|..];
    var first := FirstClaim(ms, i, j, t);
    Elsewhere(ms, p, i, first, t);
  }

  /** The earliest mapping that claims a worker path translates it. */
  lemma FirstClaim(ms: seq<Mapping>, i: nat, j: nat, t: seq<string>) returns (first: nat)
    requires PosixMappings(ms) && j < i < |ms| && Tame(t) && Claims(ms[i], ms[j], t)
    ensures first <= j && Claims(ms[i], ms[first], t)
    ensures RemapWorkerPath(WorkerPath(ms[i], t), ms) == Render(1, Joined(ms[first], Rest(ms[i], ms[first], t)))
  {
    var w := WorkerPath(ms[i], t);
    Claim(ms[i], ms[j], t);
    assert Suffixes(w, ms)[j].Some?;
    first := FirstSome(Suffixes(w, ms)).value.0;
    Claim(ms[i], ms[first], t);
  }

  /** The earliest claim translates the worker path of `p` to another path. */
  lemma Elsewhere(ms: seq<Mapping>, p: seq<string>, i: nat, first: nat, t: seq<string>)
    requires PosixMappings(ms) && first < i < |ms| && Tame(p) && Tame(t)
    requires FirstCovering(Render(1, p), ms) == Some(i) && Claims(ms[i], ms[first], t)
    ensures Render(1, Joined(ms[first], Rest(ms[i], ms[first], t))) != Render(1, p)
  {
    var suffix := Rest(ms[i], ms[first], t);
    JoinedIsAppended(ms[i], ms[first], t);
    OtherRootElsewhere(ms[i], ms[first], p, suffix);
    RenderDiffers(ServerComps(ms[first]) + suffix, p);
  }

  lemma JoinedIsAppended(m: Mapping, other: Mapping, t: seq<string>)
    requires PlainPosix(m) && PlainPosix(other) && Tame(t) && Claims(m, other, t)
    ensures Joined(other, Rest(m, other, t)) == ServerComps(other) + Rest(m, other, t)
    ensures AllPlain(ServerComps(other) + Rest(m, other, t))
  {
    RestIsNormal(m, other, t);
    RootsAreTame(other);
    CollapseIsFixed(true, ServerComps(other), Rest(m, other, t));
  }

  lemma RestIsNormal(m: Mapping, other: Mapping, t: seq<string>)
    requires PlainPosix(m) && Tame(t) && Claims(m, other, t)
    ensures Normal(true, Rest(m, other, t))
  {
    RootsAreTame(m);
    SuffixIsNormal(WorkerComps(m) + t, |WorkerComps(other)|);
  }

  lemma RenderDiffers(a: seq<string>, b: seq<string>)
    requires AllPlain(a) && AllPlain(b) && a != b
    ensures Render(1, a) != Render(1, b)
  {
    RenderReadsBack(1, a);
    RenderReadsBack(1, b);
  }

  lemma SuffixIsNormal(c: seq<string>, n: nat)
    requires n <= |c| && AllPlain(c) && ".." !in c
    ensures Normal(true, c[n..])
  {
  }

  /**
   The round trip, exactly: over mappings as normalisation makes them, every server path comes back
   if and only if every earlier worker root that is nested with a later one is harmless to it.
   */
  lemma RoundTripExactly(cwd: seq<string>, ms: seq<Mapping>)
    requires Normal(true, cwd) && PosixMappings(ms)
    ensures (forall path: string :: TranslatesBack(cwd, path, ms)) <==> (forall i, j :: 0 <= j < i < |ms| ==> Harmless(ms, i, j))
  {
    if forall i, j :: 0 <= j < i < |ms| ==> Harmless(ms, i, j) {
      forall path: string ensures TranslatesBack(cwd, path, ms) {
        HarmlessComesBack(cwd, path, ms);
      }
    } else {
      var i, j :| 0 <= j < i < |ms| && !Harmless(ms, i, j);
      var path := HarmfulDoesNotComeBack(cwd, ms, i, j);
    }
  }
}
