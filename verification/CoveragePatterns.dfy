/** The patterns that pick packages in the coverage policy. */
module CoveragePatterns {
  import opened Wrappers
  import opened GoStrings
  import opened CoverageRatchet

  const RECURSIVE := "/..."

  /** path.Match on one segment; a malformed pattern matches nothing. */
  type Glob = (string, string) -> bool

  predicate SegmentsMatch(glob: Glob, pattern: seq<string>, segs: seq<string>) {
    |pattern| == |segs| && forall i :: 0 <= i < |pattern| ==> glob(pattern[i], segs[i])
  }

  /** A plain pattern is matched segment by segment; one that ends in "/..." is
      matched against the leading segments. */
  predicate Matches(glob: Glob, pattern: string, pkg: string) {
    var prefix := TrimSuffix(pattern, RECURSIVE);
    var pat, segs := Split(prefix), Split(pkg);
    if prefix != pattern then |pat| <= |segs| && SegmentsMatch(glob, pat, segs[..|pat|])
    else SegmentsMatch(glob, pat, segs)
  }

  method MatchPattern(glob: Glob, pattern: string, pkg: string) returns (r: bool)
    ensures r == Matches(glob, pattern, pkg)
  {
    var prefix := TrimSuffix(pattern, RECURSIVE);
    var recursive := prefix != pattern;
    var patSegs := Split(prefix);
    var pkgSegs := Split(pkg);
    if recursive {
      if |pkgSegs| < |patSegs| { return false; }
      pkgSegs := pkgSegs[..|patSegs|];
    } else if |patSegs| != |pkgSegs| {
      return false;
    }
    for i := 0 to |patSegs|
      invariant forall j :: 0 <= j < i ==> glob(patSegs[j], pkgSegs[j])
    {
      if !glob(patSegs[i], pkgSegs[i]) { return false; }
    }
    return true;
  }

  /** "p/..." is "this package and everything under it", with any globs in p:
      it matches exactly the packages at or under one that p matches. */
  lemma RecursiveCoversTheTree(glob: Glob, prefix: string, pkg: string)
    requires !HasSuffix(prefix, "/...")
    ensures Matches(glob, prefix + "/...", pkg)
       <==> exists a :: AtOrUnder(a, pkg) && Matches(glob, prefix, a)
  {
    var pattern := prefix + "/...";
    assert pattern[|prefix|..] == RECURSIVE && pattern[..|prefix|] == prefix;
    assert TrimSuffix(pattern, RECURSIVE) == prefix;
    assert TrimSuffix(prefix, RECURSIVE) == prefix;
    if Matches(glob, pattern, pkg) {
      var a := Ancestor(pkg, |Split(prefix)|);
      assert Matches(glob, prefix, a);
    }
    forall a | AtOrUnder(a, pkg) && Matches(glob, prefix, a)
      ensures Matches(glob, pattern, pkg)
    {
      SegmentsUnder(a, pkg);
    }
  }

  /** Without globs, matching by segment is a comparison of the text up to a
      segment boundary: "a/b" does not cover "a/bc". */
  lemma LiteralPatterns(prefix: string, pkg: string)
    requires !HasSuffix(prefix, "/...")
    ensures var same: Glob := (x, y) => x == y;
            && (Matches(same, prefix, pkg) <==> pkg == prefix)
            && (Matches(same, prefix + "/...", pkg) <==> AtOrUnder(prefix, pkg))
  {
    var same: Glob := (x, y) => x == y;
    LiteralIsEquality(same, prefix, pkg);
    RecursiveCoversTheTree(same, prefix, pkg);
    forall a | AtOrUnder(a, pkg) && Matches(same, prefix, a)
      ensures a == prefix
    {
      LiteralIsEquality(same, prefix, a);
    }
    LiteralIsEquality(same, prefix, prefix);
  }

  lemma LiteralIsEquality(same: Glob, p: string, pkg: string)
    requires !HasSuffix(p, RECURSIVE) && forall x, y :: same(x, y) <==> x == y
    ensures Matches(same, p, pkg) <==> pkg == p
  {
    assert TrimSuffix(p, RECURSIVE) == p;
    if Matches(same, p, pkg) {
      assert Split(p) == Split(pkg);
      SplitIsInjective(p, pkg);
    }
  }

  lemma {:induction false} SplitIsInjective(a: string, b: string)
    requires Split(a) == Split(b)
    ensures a == b
  {
    if a != "" && b != "" {
      var s, t := Split(a[1..]), Split(b[1..]);
      if a[0] == '/' {
        assert Split(a)[1..] == s && Split(b)[1..] == t;
        SplitIsInjective(a[1..], b[1..]);
      } else {
        assert Split(a)[0][1..] == s[0] && Split(b)[0][1..] == t[0];
        assert Split(a)[1..] == s[1..] && Split(b)[1..] == t[1..];
        assert s == [s[0]] + s[1..] && t == [t[0]] + t[1..];
        SplitIsInjective(a[1..], b[1..]);
      }
    }
  }

  // ------------------------------------------------------------ the policy's lists

  predicate Any(glob: Glob, patterns: seq<string>, pkg: string) {
    exists i :: 0 <= i < |patterns| && Matches(glob, patterns[i], pkg)
  }

  method MatchesAny(glob: Glob, patterns: seq<string>, pkg: string) returns (r: bool)
    ensures r == Any(glob, patterns, pkg)
  {
    for i := 0 to |patterns|
      invariant forall j :: 0 <= j < i ==> !Matches(glob, patterns[j], pkg)
    {
      var m := MatchPattern(glob, patterns[i], pkg);
      if m { return true; }
    }
    return false;
  }

  datatype Floor = Floor(pattern: string, min: real)

  /** The minimum of the first floor that matches. */
  function FirstFloor(glob: Glob, floors: seq<Floor>, pkg: string): (r: Option<real>)
    ensures r.None? <==> forall i :: 0 <= i < |floors| ==> !Matches(glob, floors[i].pattern, pkg)
    ensures r.Some? ==> exists i ::
                          && 0 <= i < |floors| && Matches(glob, floors[i].pattern, pkg) && r.value == floors[i].min
                          && forall j :: 0 <= j < i ==> !Matches(glob, floors[j].pattern, pkg)
  {
    if floors == [] then None
    else if Matches(glob, floors[0].pattern, pkg) then Some(floors[0].min)
    else
      var rest := FirstFloor(glob, floors[1..], pkg);
      assert forall i :: 0 < i < |floors| ==> floors[i] == floors[1..][i - 1];
      rest
  }

  method FloorFor(glob: Glob, floors: seq<Floor>, pkg: string) returns (r: Option<real>)
    ensures r == FirstFloor(glob, floors, pkg)
  {
    for i := 0 to |floors|
      invariant FirstFloor(glob, floors, pkg) == FirstFloor(glob, floors[i..], pkg)
    {
      var m := MatchPattern(glob, floors[i].pattern, pkg);
      if m { return Some(floors[i].min); }
      assert floors[i..][1..] == floors[i + 1..];
    }
    return None;
  }

  /** What the lists of a policy file say of a package. */
  function RulesOf(glob: Glob, floors: seq<Floor>, exempt: seq<string>, requiresDatabase: seq<string>): Rules {
    Rules((p: Package) => Any(glob, exempt, p.path),
          (p: Package) => Any(glob, requiresDatabase, p.path),
          (p: Package) => FirstFloor(glob, floors, p.path))
  }

  /** A floor on "p/..." placed first binds everything at or under p and leaves
      every other package to the floors after it. */
  lemma FirstFloorCoversTheTree(glob: Glob, prefix: string, min: real, floors: seq<Floor>, pkg: string)
    requires !HasSuffix(prefix, "/...")
    ensures var under := exists a :: AtOrUnder(a, pkg) && Matches(glob, prefix, a);
            FirstFloor(glob, [Floor(prefix + "/...", min)] + floors, pkg)
            == if under then Some(min) else FirstFloor(glob, floors, pkg)
  {
    var all := [Floor(prefix + "/...", min)] + floors;
    assert all[1..] == floors;
    RecursiveCoversTheTree(glob, prefix, pkg);
  }

  /** What the patterns of a policy file make of a check and of an update: a
      package at or under one that an exempt "p/..." matches is in none of the
      findings, and its recorded number is never touched, whatever it reports. */
  lemma ExemptTreeIsLeftAlone(
    glob: Glob, floors: seq<Floor>, exempt: seq<string>, requiresDatabase: seq<string>,
    i: nat, prefix: string, a: string, pkg: Package,
    baseline: Coverage, coverage: Coverage, allowDecrease: bool, withDatabase: bool)
    requires i < |exempt| && exempt[i] == prefix + "/..." && !HasSuffix(prefix, "/...")
    requires AtOrUnder(a, pkg.path) && Matches(glob, prefix, a)
    ensures var rules := RulesOf(glob, floors, exempt, requiresDatabase);
            var f := Check(rules, baseline, coverage, withDatabase);
            var after := Recorded(rules, baseline, coverage, allowDecrease, withDatabase);
            && pkg !in f.floor + f.ratchet + f.missing + f.unchecked
            && (pkg in after <==> pkg in baseline) && (pkg in baseline ==> after[pkg] == baseline[pkg])
  {
    RecursiveCoversTheTree(glob, prefix, pkg.path);
    assert RulesOf(glob, floors, exempt, requiresDatabase).exempt(pkg);
  }

  /** A package that is measured and lies in the tree of the first floor passes
      exactly when it comes within the tolerance of that floor. */
  lemma FirstTreeIsHeldToItsFloor(
    glob: Glob, prefix: string, min: real, floors: seq<Floor>, exempt: seq<string>, requiresDatabase: seq<string>,
    a: string, pkg: Package, baseline: Coverage, coverage: Coverage, withDatabase: bool)
    requires !HasSuffix(prefix, "/...") && AtOrUnder(a, pkg.path) && Matches(glob, prefix, a)
    requires pkg in coverage && !Any(glob, exempt, pkg.path)
    requires withDatabase || !Any(glob, requiresDatabase, pkg.path)
    ensures var rules := RulesOf(glob, [Floor(prefix + "/...", min)] + floors, exempt, requiresDatabase);
            pkg in Check(rules, baseline, coverage, withDatabase).floor <==> coverage[pkg] + TOLERANCE < min
  {
    FirstFloorCoversTheTree(glob, prefix, min, floors, pkg.path);
  }
}
