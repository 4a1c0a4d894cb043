/** Version order (packages/shared/encodr_shared/versioning.py:26-44), over ASCII text. */
module Versions {
  import opened Wrappers
  import opened Text

  /** The dotted parts before the first hyphen. */
  function CoreParts(version: string): seq<string> { Split(Split(Strip(version), '-')[0], '.') }

  /** `parse_version`; `None` where the source raises ValueError. */
  function ParseVersion(version: string): Option<seq<nat>> {
    ParseParts(CoreParts(version))
  }

  function ParseParts(parts: seq<string>): Option<seq<nat>> {
    if parts == [] then Some([])
    else if !IsDigits(parts[0]) then None
    else
      var rest :- ParseParts(parts[1..]);
      Some([DigitsToNat(parts[0])] + rest)
  }

  predicate Numeric(part: string) { part != "" && forall i :: 0 <= i < |part| ==> '0' <= part[i] <= '9' }

  /** A text parses exactly when each dotted part before its first hyphen is digits, and gives their numbers. */
  lemma ParsesExactly(version: string)
    ensures var parts := CoreParts(version);
      && (ParseVersion(version).Some? <==> forall i :: 0 <= i < |parts| ==> Numeric(parts[i]))
      && (ParseVersion(version).Some? ==>
            && |ParseVersion(version).value| == |parts|
            && forall i :: 0 <= i < |parts| ==> IsDigits(parts[i]) && ParseVersion(version).value[i] == DigitsToNat(parts[i]))
  {
    var parts := CoreParts(version);
    PartsParseExactly(parts);
    forall i | 0 <= i < |parts| ensures Numeric(parts[i]) <==> IsDigits(parts[i]) {
      NumericIsDigits(parts[i]);
    }
  }

  lemma NumericIsDigits(part: string)
    ensures Numeric(part) <==> IsDigits(part)
  {
    assert forall i :: 0 <= i < |part| ==> (IsDigit(part[i]) <==> '0' <= part[i] <= '9');
  }

  lemma {:induction false} PartsParseExactly(parts: seq<string>)
    ensures ParseParts(parts).Some? <==> forall i :: 0 <= i < |parts| ==> IsDigits(parts[i])
    ensures ParseParts(parts).Some? ==>
      && |ParseParts(parts).value| == |parts|
      && forall i :: 0 <= i < |parts| ==> ParseParts(parts).value[i] == DigitsToNat(parts[i])
  {
    if parts != [] {
      PartsParseExactly(parts[1..]);
      assert forall i :: 1 <= i < |parts| ==> parts[i] == parts[1..][i - 1];
    }
  }

  /** The numbers in decimal. */
  function Decimals(v: seq<nat>): (parts: seq<string>)
    ensures |parts| == |v| && forall i :: 0 <= i < |v| ==> parts[i] == Decimal(v[i])
  {
    seq(|v|, i requires 0 <= i < |v| => Decimal(v[i]))
  }

  /** Versions as they are written, with any pre-release part or none, read back as their numbers. */
  lemma FormattedReadsBack(v: seq<nat>, release: string)
    requires v != [] && (release == "" || (release[0] == '-' && !IsSpace(release[|release| - 1])))
    ensures ParseVersion(Join(Decimals(v), '.') + release) == Some(v)
  {
    var parts, core := Decimals(v), Join(Decimals(v), '.');
    DecimalsReadBack(v);
    CoreIsPlain(parts);
    CoreIsReached(core, release);
    DigitsHoldNoDot(parts);
    SplitJoin(parts, '.');
  }

  lemma {:induction false} DecimalsReadBack(v: seq<nat>)
    ensures forall i :: 0 <= i < |v| ==> IsDigits(Decimals(v)[i])
    ensures ParseParts(Decimals(v)) == Some(v)
  {
    if v != [] {
      DecimalReadsBack(v[0]);
      DecimalsReadBack(v[1..]);
      assert Decimals(v)[1..] == Decimals(v[1..]);
      assert [v[0]] + v[1..] == v;
      assert forall i :: 1 <= i < |v| ==> Decimals(v)[i] == Decimals(v[1..])[i - 1];
    }
  }

  lemma DigitsHoldNoDot(parts: seq<string>)
    requires forall i :: 0 <= i < |parts| ==> IsDigits(parts[i])
    ensures forall i :: 0 <= i < |parts| ==> '.' !in parts[i]
  {
    forall i | 0 <= i < |parts| ensures '.' !in parts[i] {
      assert IsDigits(parts[i]);
    }
  }

  lemma CoreIsReached(core: string, release: string)
    requires Trimmed(core) && '-' !in core
    requires release == "" || (release[0] == '-' && !IsSpace(release[|release| - 1]))
    ensures Split(Strip(core + release), '-')[0] == core
  {
    var whole := core + release;
    assert whole[0] == core[0] && whole[|whole| - 1] == if release == "" then core[|core| - 1] else release[|release| - 1];
    StripFixed(whole);
    CoreIsCutOff(core, release);
  }

  lemma CoreIsCutOff(core: string, release: string)
    requires '-' !in core && (release == "" || release[0] == '-')
    ensures Split(core + release, '-')[0] == core
  {
    if release == "" {
      assert core + release == core;
      SplitPlain(core, '-');
    } else {
      assert core + release == core + ['-'] + release[1..];
      SplitConcat(core, '-', release[1..]);
    }
  }

  lemma {:induction false} CoreIsPlain(parts: seq<string>)
    requires parts != [] && forall i :: 0 <= i < |parts| ==> IsDigits(parts[i])
    ensures var core := Join(parts, '.'); Trimmed(core) && '-' !in core
  {
    DigitsArePlain(parts[0]);
    if |parts| > 1 {
      CoreIsPlain(parts[1..]);
    }
  }

  lemma DigitsArePlain(s: string)
    requires IsDigits(s)
    ensures Trimmed(s) && '-' !in s
  {
    assert IsDigit(s[0]) && IsDigit(s[|s| - 1]);
    assert forall i :: 0 <= i < |s| ==> IsDigit(s[i]);
  }

  function PadTo(v: seq<nat>, n: nat): seq<nat>
    requires |v| <= n
  {
    v + seq(n - |v|, _ => 0)
  }

  /** Python's `>` on tuples. */
  predicate TupleGreater(a: seq<nat>, b: seq<nat>) {
    if a == [] then false
    else if b == [] then true
    else if a[0] != b[0] then a[0] > b[0]
    else TupleGreater(a[1..], b[1..])
  }

  function Max(a: nat, b: nat): nat { if a >= b then a else b }

  predicate NewerTuple(current: seq<nat>, candidate: seq<nat>) {
    var n := Max(|current|, |candidate|);
    TupleGreater(PadTo(candidate, n), PadTo(current, n))
  }

  /** `is_version_newer` */
  predicate IsVersionNewer(current: string, candidate: string) {
    match (ParseVersion(current), ParseVersion(candidate))
    case (Some(a), Some(b)) => NewerTuple(a, b)
    case _ => Strip(candidate) != Strip(current)
  }

  // ------------------------------------------------- What the order means

  /** A version read as an infinite list of numbers, zero from some point on. */
  function At(v: seq<nat>, i: nat): nat {
    if i < |v| then v[i] else 0
  }

  /** `b` is greater than `a` at the first place where they differ. */
  ghost predicate FirstDifference(a: seq<nat>, b: seq<nat>, i: nat) {
    At(b, i) > At(a, i) && forall k: nat :: k < i ==> At(a, k) == At(b, k)
  }

  lemma {:induction false} TupleGreaterMeaning(a: seq<nat>, b: seq<nat>)
    requires |a| == |b|
    ensures TupleGreater(b, a) <==> exists i: nat :: i < |a| && FirstDifference(a, b, i)
  {
    if a != [] {
      var a', b' := a[1..], b[1..];
      TupleGreaterMeaning(a', b');
      if a[0] == b[0] {
        if i: nat :| i < |a'| && FirstDifference(a', b', i) {
          forall k: nat | k < i + 1 ensures At(a, k) == At(b, k) {
            if k > 0 {
              assert At(a', k - 1) == At(b', k - 1);
            }
          }
          assert FirstDifference(a, b, i + 1);
        }
        if i: nat :| i < |a| && FirstDifference(a, b, i) {
          assert At(a, 0) == At(b, 0);
          forall k: nat | k < i - 1 ensures At(a', k) == At(b', k) {
            assert At(a, k + 1) == At(b, k + 1);
          }
          assert FirstDifference(a', b', i - 1);
        }
      } else if a[0] < b[0] {
        assert FirstDifference(a, b, 0);
      } else {
        forall i: nat | i < |a| ensures !FirstDifference(a, b, i) {
          assert At(a, 0) != At(b, 0);
        }
      }
    }
  }

  /** Padding to the length of each comparison does not show: the order is that of the infinite lists. */
  lemma NewerTupleMeaning(a: seq<nat>, b: seq<nat>)
    ensures NewerTuple(a, b) <==> exists i: nat :: FirstDifference(a, b, i)
  {
    var n := Max(|a|, |b|);
    var a', b' := PadTo(a, n), PadTo(b, n);
    assert forall k: nat :: At(a', k) == At(a, k) && At(b', k) == At(b, k);
    TupleGreaterMeaning(a', b');
    if i: nat :| FirstDifference(a, b, i) {
      assert FirstDifference(a', b', i) && i < n;
    }
    if i: nat :| i < n && FirstDifference(a', b', i) {
      assert FirstDifference(a, b, i);
    }
  }

  lemma NewerIsIrreflexive(a: seq<nat>)
    ensures !NewerTuple(a, a)
  {
    NewerTupleMeaning(a, a);
  }

  lemma NewerIsAsymmetric(a: seq<nat>, b: seq<nat>)
    requires NewerTuple(a, b)
    ensures !NewerTuple(b, a)
  {
    NewerTupleMeaning(a, b);
    NewerTupleMeaning(b, a);
    var i: nat :| FirstDifference(a, b, i);
    forall j: nat ensures !FirstDifference(b, a, j) {
      assert j > i ==> At(a, i) != At(b, i);
    }
  }

  /** Transitive, although the three comparisons may pad to three different lengths. */
  lemma NewerIsTransitive(a: seq<nat>, b: seq<nat>, c: seq<nat>)
    requires NewerTuple(a, b) && NewerTuple(b, c)
    ensures NewerTuple(a, c)
  {
    NewerTupleMeaning(a, b);
    NewerTupleMeaning(b, c);
    NewerTupleMeaning(a, c);
    var i: nat :| FirstDifference(a, b, i);
    var j: nat :| FirstDifference(b, c, j);
    var k := if i <= j then i else j;
    assert FirstDifference(a, c, k);
  }

  function DropTrailingZeros(v: seq<nat>): seq<nat> {
    if v != [] && v[|v| - 1] == 0 then DropTrailingZeros(v[..|v| - 1]) else v
  }

  lemma {:induction false} DropTrailingZerosKeeps(v: seq<nat>)
    ensures forall i: nat :: At(DropTrailingZeros(v), i) == At(v, i)
    ensures var d := DropTrailingZeros(v); d != [] ==> d[|d| - 1] != 0
  {
    if v != [] && v[|v| - 1] == 0 {
      DropTrailingZerosKeeps(v[..|v| - 1]);
      assert forall i: nat :: At(v[..|v| - 1], i) == At(v, i);
    }
  }

  lemma {:induction false} LeastDifference(a: seq<nat>, b: seq<nat>, i: nat) returns (k: nat)
    requires At(a, i) != At(b, i)
    ensures FirstDifference(a, b, k) || FirstDifference(b, a, k)
  {
    if j: nat :| j < i && At(a, j) != At(b, j) {
      k := LeastDifference(a, b, j);
    } else {
      k := i;
    }
  }

  /** Two versions are incomparable exactly when they agree after dropping trailing zeros. */
  lemma IncomparableMeansEqualUpToZeros(a: seq<nat>, b: seq<nat>)
    ensures !NewerTuple(a, b) && !NewerTuple(b, a) <==> DropTrailingZeros(a) == DropTrailingZeros(b)
  {
    NewerTupleMeaning(a, b);
    NewerTupleMeaning(b, a);
    DropTrailingZerosKeeps(a);
    DropTrailingZerosKeeps(b);
    var da, db := DropTrailingZeros(a), DropTrailingZeros(b);
    if da == db {
      assert forall i: nat :: At(a, i) == At(da, i) == At(b, i);
    } else {
      var i := Differ(da, db);
      assert At(a, i) != At(b, i);
      var k := LeastDifference(a, b, i);
    }
  }

  lemma Differ(a: seq<nat>, b: seq<nat>) returns (i: nat)
    requires a != b
    requires a != [] ==> a[|a| - 1] != 0
    requires b != [] ==> b[|b| - 1] != 0
    ensures At(a, i) != At(b, i)
  {
    if |a| == |b| {
      i :| 0 <= i < |a| && a[i] != b[i];
    } else {
      i := Max(|a|, |b|) - 1;
    }
  }

  /**
   On any two texts the order is asymmetric exactly when both parse, or their stripped texts
   agree: two different texts of which one does not parse are each newer than the other.
   */
  lemma AsymmetricExactlyWhenParseable(a: string, b: string)
    ensures !(IsVersionNewer(a, b) && IsVersionNewer(b, a)) <==>
      (ParseVersion(a).Some? && ParseVersion(b).Some?) || Strip(a) == Strip(b)
  {
    if ParseVersion(a).Some? && ParseVersion(b).Some? {
      if NewerTuple(ParseVersion(a).value, ParseVersion(b).value) {
        NewerIsAsymmetric(ParseVersion(a).value, ParseVersion(b).value);
      }
    }
  }

  /** A text that does not parse and one that does are each newer than the other. */
  lemma UnparsedIsNewerBothWays()
    ensures IsVersionNewer("1", "next") && IsVersionNewer("next", "1")
  {
    NextDoesNotParse();
    AsymmetricExactlyWhenParseable("1", "next");
    assert Strip("1")[0] != Strip("next")[0];
  }

  lemma NextDoesNotParse()
    ensures ParseVersion("next").None? && Strip("next") == "next" && Strip("1") == "1"
  {
    SplitPlain("next", '-');
    SplitPlain("next", '.');
    assert !IsDigits("next") by {
      assert "next"[0] == 'n';
    }
  }
}
