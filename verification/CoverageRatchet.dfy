/** The coverage policy: floors, and a baseline that only moves up. Percentages
    are reals. */
module CoverageRatchet {
  import opened Wrappers
  import opened MessageText

  const TOLERANCE := 0.05

  datatype Package = Package(path: string)

  // --------------------------------------------------------------- the profile

  /** One block of the profile: its package, its statements, how often it ran. */
  datatype Block = Block(pkg: Package, stmts: int, execCount: int)

  datatype Counts = Counts(total: int, covered: int)

  function Tally(blocks: seq<Block>, pkg: Package): Counts {
    if blocks == [] then Counts(0, 0)
    else
      var c, b := Tally(blocks[..|blocks| - 1], pkg), blocks[|blocks| - 1];
      if b.pkg != pkg then c
      else Counts(c.total + b.stmts, c.covered + if b.execCount > 0 then b.stmts else 0)
  }

  function Percent(c: Counts): real {
    if c.total == 0 then 100.0 else c.covered as real / c.total as real * 100.0
  }

  predicate Reported(blocks: seq<Block>, pkg: Package) {
    exists b :: b in blocks && b.pkg == pkg
  }

  const MODE := "mode:"

  /** The lines that are not blank, trimmed. */
  function Content(lines: seq<string>): seq<string> {
    if lines == [] then []
    else
      var before, line := Content(lines[..|lines| - 1]), TrimSpace(lines[|lines| - 1]);
      if line == "" then before else before + [line]
  }

  /** A mode line, and then only lines that parse. */
  predicate IsProfile(parse: string -> Option<Block>, content: seq<string>) {
    content != [] ==> "mode:" <= content[0] && forall i :: 0 < i < |content| ==> parse(content[i]).Some?
  }

  function BlocksOf(parse: string -> Option<Block>, content: seq<string>): seq<Block>
    requires IsProfile(parse, content)
    decreases |content|
  {
    if |content| <= 1 then []
    else BlocksOf(parse, content[..|content| - 1]) + [parse(content[|content| - 1]).value]
  }

  /** What has been counted of some blocks. */
  ghost predicate IsCount(perPkg: map<Package, Counts>, blocks: seq<Block>) {
    && (forall pkg :: pkg in perPkg <==> Reported(blocks, pkg))
    && (forall pkg :: (if pkg in perPkg then perPkg[pkg] else Counts(0, 0)) == Tally(blocks, pkg))
  }

  /** One block goes into its package's counts. */
  method CountBlock(perPkg: map<Package, Counts>, b: Block, ghost blocks: seq<Block>)
    returns (counted: map<Package, Counts>)
    requires IsCount(perPkg, blocks)
    ensures IsCount(counted, blocks + [b])
  {
    var c := if b.pkg in perPkg then perPkg[b.pkg] else Counts(0, 0);
    c := c.(total := c.total + b.stmts);
    if b.execCount > 0 {
      c := c.(covered := c.covered + b.stmts);
    }
    counted := perPkg[b.pkg := c];
    forall pkg {
      OneMoreTally(blocks, b, pkg);
    }
    assert forall p :: p in blocks + [b] <==> p in blocks || p == b;
  }

  lemma OneMoreTally(blocks: seq<Block>, b: Block, pkg: Package)
    ensures Tally(blocks + [b], pkg) ==
            var c := Tally(blocks, pkg);
            if b.pkg != pkg then c
            else Counts(c.total + b.stmts, c.covered + if b.execCount > 0 then b.stmts else 0)
  {
    assert (blocks + [b])[..|blocks|] == blocks;
  }

  /** Coverage per package, over the statements of its blocks. A line that does
      not parse, a missing mode line, or a failing read gives no coverage at all;
      `parse` reads one line. */
  method ParseProfile(lines: seq<string>, parse: string -> Option<Block>, scans: bool)
    returns (r: Result<Coverage, string>)
    ensures r.Ok? <==> scans && IsProfile(parse, Content(lines))
    ensures r.Ok? ==>
              var blocks := BlocksOf(parse, Content(lines));
              && (forall pkg :: pkg in r.value <==> Reported(blocks, pkg))
              && (forall pkg :: pkg in r.value ==> r.value[pkg] == Percent(Tally(blocks, pkg)))
  {
    var perPkg: map<Package, Counts> := map[];
    var first := true;
    ghost var content: seq<string> := [];
    for i := 0 to |lines|
      invariant content == Content(lines[..i]) && (first <==> content == [])
      invariant IsProfile(parse, content)
      invariant IsCount(perPkg, BlocksOf(parse, content))
    {
      assert lines[..i + 1][..i] == lines[..i];
      var line := TrimSpace(lines[i]);
      if line == "" {
        continue;
      }
      ghost var longer := content + [line];
      assert longer[..|content|] == content;
      assert Content(lines[..i + 1]) == longer;
      if first {
        if !(MODE <= line) {
          assert longer[0] == line;
          NotAProfile(parse, lines, i + 1, longer);
          return Err("no mode line");
        }
        first := false;
      } else {
        var b := parse(line);
        if b.None? {
          assert longer[|content|] == line;
          NotAProfile(parse, lines, i + 1, longer);
          return Err("malformed line");
        }
        perPkg := CountBlock(perPkg, b.value, BlocksOf(parse, content));
      }
      content := longer;
    }
    assert lines[..|lines|] == lines;
    if !scans {
      return Err("the profile cannot be read");
    }
    return Ok(map pkg | pkg in perPkg :: Percent(perPkg[pkg]));
  }

  /** One line that does not belong spoils the profile, whatever follows. */
  lemma {:induction false} ContentGrows(lines: seq<string>, i: nat)
    requires i <= |lines|
    ensures Content(lines[..i]) <= Content(lines)
    decreases |lines|
  {
    if i == |lines| {
      assert lines[..i] == lines;
    } else {
      var before := lines[..|lines| - 1];
      ContentGrows(before, i);
      assert before[..i] == lines[..i];
    }
  }

  lemma PrefixIsProfile(parse: string -> Option<Block>, part: seq<string>, all: seq<string>)
    requires part <= all && IsProfile(parse, all)
    ensures IsProfile(parse, part)
  {
  }

  lemma NotAProfile(parse: string -> Option<Block>, lines: seq<string>, i: nat, part: seq<string>)
    requires i <= |lines| && part == Content(lines[..i]) && !IsProfile(parse, part)
    ensures !IsProfile(parse, Content(lines))
  {
    ContentGrows(lines, i);
    if IsProfile(parse, Content(lines)) {
      PrefixIsProfile(parse, part, Content(lines));
    }
  }

  lemma OneBlock(b: Block, pkg: Package)
    ensures Tally([b], pkg) ==
            if b.pkg != pkg then Counts(0, 0) else Counts(b.stmts, if b.execCount > 0 then b.stmts else 0)
  {
    assert [b][..0] == [];
  }

  /** Blocks count once each, in whatever order they come: the counts of two
      stretches of a profile add up. */
  lemma {:induction false} TalliesAdd(a: seq<Block>, b: seq<Block>, pkg: Package)
    ensures Tally(a + b, pkg) == Counts(Tally(a, pkg).total + Tally(b, pkg).total,
                                        Tally(a, pkg).covered + Tally(b, pkg).covered)
  {
    if b == [] {
      assert a + b == a;
    } else {
      var rest := b[..|b| - 1];
      assert (a + b)[..|a + b| - 1] == a + rest;
      TalliesAdd(a, rest, pkg);
    }
  }

  /** Covered statements out of a hundred; nothing to cover is all covered. */
  lemma PercentInFull(c: Counts)
    ensures c.total == 0 ==> Percent(c) == 100.0
    ensures c.total != 0 ==> Percent(c) * c.total as real == 100.0 * c.covered as real
  {
  }

  predicate Counted(blocks: seq<Block>) {
    forall b :: b in blocks ==> b.stmts >= 0
  }

  lemma {:induction false} TallyIsOrdered(blocks: seq<Block>, pkg: Package)
    requires Counted(blocks)
    ensures 0 <= Tally(blocks, pkg).covered <= Tally(blocks, pkg).total
  {
    if blocks != [] {
      TallyIsOrdered(blocks[..|blocks| - 1], pkg);
    }
  }

  lemma RatioRange(covered: int, total: int)
    requires 0 <= covered <= total && 0 < total
    ensures 0.0 <= covered as real / total as real <= 1.0
  {
  }

  lemma PercentInRange(blocks: seq<Block>, pkg: Package)
    requires Counted(blocks)
    ensures 0.0 <= Percent(Tally(blocks, pkg)) <= 100.0
  {
    TallyIsOrdered(blocks, pkg);
    var c := Tally(blocks, pkg);
    if c.total != 0 {
      RatioRange(c.covered, c.total);
    }
  }

  // --------------------------------------------------------------------- rounding

  /** int(x): toward zero. */
  function Truncate(x: real): int {
    if x >= 0.0 then x.Floor else -((-x).Floor)
  }

  function Round1(v: real): real {
    Truncate(v * 10.0 + 0.5) as real / 10.0
  }

  predicate IsTenth(v: real) {
    (v * 10.0).Floor as real == v * 10.0
  }

  lemma Rounded(pct: real) returns (n: int)
    requires pct >= 0.0
    ensures n >= 0 && Round1(pct) == n as real / 10.0
    ensures n as real <= pct * 10.0 + 0.5 < (n + 1) as real
  {
    n := (pct * 10.0 + 0.5).Floor;
  }

  lemma WholeTenths(v: real, n: int)
    requires v == n as real / 10.0
    ensures IsTenth(v)
  {
    assert v * 10.0 == n as real;
  }

  lemma IntegersAreOneApart(n: int, m: int)
    requires (n as real) < (m + 1) as real
    ensures n <= m
  {
  }

  /** Rounding lands on a tenth, less than the tolerance below and at most the
      tolerance above. */
  lemma RoundingFitsTheTolerance(pct: real)
    requires pct >= 0.0
    ensures IsTenth(Round1(pct)) && Round1(pct) >= 0.0
    ensures pct - TOLERANCE < Round1(pct) <= pct + TOLERANCE
  {
    var n := Rounded(pct);
    WholeTenths(Round1(pct), n);
  }

  /** One percentage that passes the ratchet against a multiple of 0.1. */
  lemma PassingIsRecordedNoLower(was: real, pct: real)
    requires pct >= 0.0 && IsTenth(was) && pct + TOLERANCE >= was
    ensures Round1(pct) >= was
  {
    var n := Rounded(pct);
    var m := (was * 10.0).Floor;
    assert m as real <= pct * 10.0 + 0.5;
    IntegersAreOneApart(m, n);
    assert was == m as real / 10.0;
  }

  /** The lowest percentage that passes against anything else. */
  lemma SlackBetweenTenths(was: real) returns (pct: real)
    requires was >= 0.0 && !IsTenth(was)
    ensures pct >= 0.0 && pct + TOLERANCE >= was && Round1(pct) < was
  {
    pct := if was >= TOLERANCE then was - TOLERANCE else 0.0;
    var n := Rounded(pct);
    if was >= TOLERANCE {
      assert pct * 10.0 + 0.5 == was * 10.0;
      if n as real == was * 10.0 {
        WholeTenths(was, n);
      }
    } else {
      assert (n as real) < 1.0;
    }
  }

  /** A percentage the ratchet lets through is recorded no lower than what was
      recorded before. That is so for every percentage exactly when the old
      value is a multiple of 0.1: the tolerance is half the rounding step. */
  lemma ToleranceMatchesRounding(was: real)
    requires was >= 0.0
    ensures (forall pct :: pct >= 0.0 && pct + TOLERANCE >= was ==> Round1(pct) >= was) <==> IsTenth(was)
  {
    if IsTenth(was) {
      forall pct | pct >= 0.0 && pct + TOLERANCE >= was
        ensures Round1(pct) >= was
      {
        PassingIsRecordedNoLower(was, pct);
      }
    } else {
      var pct := SlackBetweenTenths(was);
    }
  }

  // -------------------------------------------------------------------- policy

  /** What the policy's patterns say of a package. */
  datatype Rules = Rules(exempt: Package -> bool, needsDatabase: Package -> bool, floor: Package -> Option<real>)
  {
    predicate Measured(pkg: Package, withDatabase: bool) {
      !exempt(pkg) && (withDatabase || !needsDatabase(pkg))
    }

    predicate BelowFloor(pkg: Package, pct: real) {
      floor(pkg).Some? && pct + TOLERANCE < floor(pkg).value
    }
  }

  type Coverage = map<Package, real>

  /** A drop below the baseline by more than the tolerance. */
  predicate Drops(baseline: Coverage, pkg: Package, pct: real) {
    pkg in baseline && pct + TOLERANCE < baseline[pkg]
  }

  /** The packages an update refuses to lower. */
  function Lowered(r: Rules, baseline: Coverage, coverage: Coverage, withDatabase: bool): set<Package> {
    set pkg | pkg in coverage && r.Measured(pkg, withDatabase) && Drops(baseline, pkg, coverage[pkg])
  }

  /** The packages whose number an update writes down. */
  function Rewritten(r: Rules, baseline: Coverage, coverage: Coverage, allowDecrease: bool, withDatabase: bool):
    set<Package>
  {
    set pkg | pkg in coverage && r.Measured(pkg, withDatabase)
            && (allowDecrease || !Drops(baseline, pkg, coverage[pkg]))
  }

  /** The baseline with the numbers of some packages replaced. */
  function Overlaid(baseline: Coverage, coverage: Coverage, written: set<Package>): (r: Coverage)
    requires written <= coverage.Keys
    ensures r.Keys == baseline.Keys + written
    ensures forall pkg :: pkg in r ==> r[pkg] == if pkg in written then Round1(coverage[pkg]) else baseline[pkg]
  {
    map pkg | pkg in baseline.Keys + written :: if pkg in written then Round1(coverage[pkg]) else baseline[pkg]
  }

  lemma OneMoreOverlaid(baseline: Coverage, coverage: Coverage, written: set<Package>, seen: set<Package>, pkg: Package)
    requires written <= coverage.Keys && pkg in coverage && pkg !in seen
    ensures Overlaid(baseline, coverage, written * (seen + {pkg}))
            == (var was := Overlaid(baseline, coverage, written * seen);
                if pkg in written then was[pkg := Round1(coverage[pkg])] else was)
    ensures Drops(Overlaid(baseline, coverage, written * seen), pkg, coverage[pkg])
            == Drops(baseline, pkg, coverage[pkg])
  {
  }

  function Recorded(r: Rules, baseline: Coverage, coverage: Coverage, allowDecrease: bool, withDatabase: bool):
    Coverage
  {
    Overlaid(baseline, coverage, Rewritten(r, baseline, coverage, allowDecrease, withDatabase))
  }

  /** What a check reports: the packages below their floor, those below the
      baseline, those of the baseline that are gone, those not measured. */
  datatype Findings = Findings(
    floor: set<Package>, ratchet: set<Package>, missing: set<Package>, unchecked: set<Package>)

  function Check(r: Rules, baseline: Coverage, coverage: Coverage, withDatabase: bool): Findings {
    Findings(
      (set pkg | pkg in coverage && r.Measured(pkg, withDatabase) && r.BelowFloor(pkg, coverage[pkg])),
      Lowered(r, baseline, coverage, withDatabase),
      (set pkg | pkg in baseline && pkg !in coverage && r.Measured(pkg, withDatabase)),
      (set pkg | pkg in coverage && !r.exempt(pkg) && !r.Measured(pkg, withDatabase)))
  }

  predicate Passes(f: Findings) {
    f.floor == {} && f.ratchet == {} && f.missing == {}
  }

  /** Not exempt, and not in need of a database that was not there. */
  predicate IsMeasured(r: Rules, pkg: Package, withDatabase: bool) {
    !r.exempt(pkg) && (withDatabase || !r.needsDatabase(pkg))
  }

  /** The findings, package by package. */
  ghost predicate FindsInFull(r: Rules, baseline: Coverage, coverage: Coverage, withDatabase: bool, f: Findings) {
    forall pkg ::
      && (pkg in f.floor <==>
            && pkg in coverage && IsMeasured(r, pkg, withDatabase)
            && r.floor(pkg).Some? && coverage[pkg] + 0.05 < r.floor(pkg).value)
      && (pkg in f.ratchet <==>
            && pkg in coverage && IsMeasured(r, pkg, withDatabase)
            && pkg in baseline && coverage[pkg] + 0.05 < baseline[pkg])
      && (pkg in f.missing <==> pkg in baseline && pkg !in coverage && IsMeasured(r, pkg, withDatabase))
      && (pkg in f.unchecked <==> pkg in coverage && !r.exempt(pkg) && !withDatabase && r.needsDatabase(pkg))
  }

  lemma CheckInFull(r: Rules, baseline: Coverage, coverage: Coverage, withDatabase: bool)
    ensures FindsInFull(r, baseline, coverage, withDatabase, Check(r, baseline, coverage, withDatabase))
  {
  }

  /** The new baseline, package by package: a measured number is written down,
      rounded, unless it is more than the tolerance below the one recorded and
      that is not allowed; every other recorded number stays. */
  ghost predicate RecordsInFull(
    r: Rules, was: Coverage, coverage: Coverage, allowDecrease: bool, withDatabase: bool, now: Coverage)
  {
    forall pkg ::
      var written := && pkg in coverage && IsMeasured(r, pkg, withDatabase)
                     && (allowDecrease || pkg !in was || coverage[pkg] + 0.05 >= was[pkg]);
      && (pkg in now <==> pkg in was || written)
      && (pkg in now ==> now[pkg] == if written then Round1(coverage[pkg]) else was[pkg])
  }

  lemma RecordedInFull(r: Rules, was: Coverage, coverage: Coverage, allowDecrease: bool, withDatabase: bool)
    ensures RecordsInFull(r, was, coverage, allowDecrease, withDatabase,
                          Recorded(r, was, coverage, allowDecrease, withDatabase))
  {
  }

  /** The keys of a map, in no particular order. */
  method Packages(m: Coverage) returns (pkgs: seq<Package>)
    ensures forall p :: p in pkgs <==> p in m
    ensures forall i, j :: 0 <= i < j < |pkgs| ==> pkgs[i] != pkgs[j]
  {
    pkgs := [];
    var todo := m.Keys;
    while todo != {}
      invariant forall p :: p in m <==> p in todo || p in pkgs
      invariant forall p :: p in pkgs ==> p !in todo
      invariant forall i, j :: 0 <= i < j < |pkgs| ==> pkgs[i] != pkgs[j]
      decreases |todo|
    {
      var p :| p in todo;
      todo := todo - {p};
      pkgs := pkgs + [p];
    }
  }

  class Policy {
    const rules: Rules
    /** The committed file's baseline, and the copy in memory. */
    var file: Coverage
    var baseline: Coverage

    constructor (rules: Rules, file: Coverage)
      ensures this.rules == rules && this.file == file && baseline == file
    {
      this.rules, this.file, this.baseline := rules, file, file;
    }

    /** The loop body of UpdateBaseline: refused, or written down if measured. */
    method UpdateOne(pkg: Package, pct: real, allowDecrease: bool, withDatabase: bool) returns (refused: bool)
      modifies this
      ensures file == old(file)
      ensures refused <==> rules.Measured(pkg, withDatabase) && !allowDecrease && Drops(old(baseline), pkg, pct)
      ensures baseline == if rules.Measured(pkg, withDatabase) && !refused then old(baseline)[pkg := Round1(pct)]
                          else old(baseline)
    {
      if !rules.Measured(pkg, withDatabase) {
        return false;
      }
      if pkg in baseline && pct + TOLERANCE < baseline[pkg] && !allowDecrease {
        return true;
      }
      baseline := baseline[pkg := Round1(pct)];
      return false;
    }

    /** The loop, over the packages in no particular order. */
    method UpdateAll(pkgs: seq<Package>, coverage: Coverage, allowDecrease: bool, withDatabase: bool)
      returns (lowered: set<Package>)
      requires forall p :: p in pkgs <==> p in coverage
      requires forall i, j :: 0 <= i < j < |pkgs| ==> pkgs[i] != pkgs[j]
      modifies this
      ensures file == old(file)
      ensures baseline == Recorded(rules, old(baseline), coverage, allowDecrease, withDatabase)
      ensures lowered == if allowDecrease then {} else Lowered(rules, old(baseline), coverage, withDatabase)
    {
      ghost var was := baseline;
      ghost var written := Rewritten(rules, was, coverage, allowDecrease, withDatabase);
      ghost var drops := if allowDecrease then {} else Lowered(rules, was, coverage, withDatabase);
      ghost var seen: set<Package> := {};
      lowered := {};
      for i := 0 to |pkgs|
        invariant seen <= coverage.Keys && forall p :: p in seen <==> p in pkgs[..i]
        invariant file == old(file) && baseline == Overlaid(was, coverage, written * seen)
        invariant lowered == drops * seen
      {
        var pkg := pkgs[i];
        OneMoreOverlaid(was, coverage, written, seen, pkg);
        var refused := UpdateOne(pkg, coverage[pkg], allowDecrease, withDatabase);
        seen := seen + {pkg};
        if refused {
          lowered := lowered + {pkg};
        }
      }
      assert written * seen == written && drops * seen == drops;
    }

    /** A refusal comes only after every package: the copy in memory then holds
        what the others raised, and the file does not. */
    method UpdateBaseline(coverage: Coverage, allowDecrease: bool, withDatabase: bool, writable: bool)
      returns (r: Result<(), set<Package>>)
      modifies this
      ensures baseline == Recorded(rules, old(baseline), coverage, allowDecrease, withDatabase)
      ensures r.Ok? <==> writable && (allowDecrease || Lowered(rules, old(baseline), coverage, withDatabase) == {})
      ensures file == if r.Ok? then baseline else old(file)
      ensures r.Err? && !allowDecrease && Lowered(rules, old(baseline), coverage, withDatabase) != {}
              ==> r.error == Lowered(rules, old(baseline), coverage, withDatabase)
      ensures RecordsInFull(rules, old(baseline), coverage, allowDecrease, withDatabase, baseline)
      ensures r.Ok? <==>
                && writable
                && (allowDecrease || forall pkg :: pkg in coverage && pkg in old(baseline)
                                                   && IsMeasured(rules, pkg, withDatabase) ==>
                                       coverage[pkg] + 0.05 >= old(baseline)[pkg])
    {
      RecordedInFull(rules, baseline, coverage, allowDecrease, withDatabase);
      CheckInFull(rules, baseline, coverage, withDatabase);
      assert Lowered(rules, baseline, coverage, withDatabase) == Check(rules, baseline, coverage, withDatabase).ratchet;
      var pkgs := Packages(coverage);
      var lowered := UpdateAll(pkgs, coverage, allowDecrease, withDatabase);
      if lowered != {} {
        return Err(lowered);
      }
      if !writable {
        return Err({});
      }
      file := baseline;
      return Ok(());
    }

    /** What the baseline names and the profile does not: not a pass. */
    method Missing(coverage: Coverage, withDatabase: bool) returns (missing: set<Package>)
      ensures missing == Check(rules, baseline, coverage, withDatabase).missing
    {
      ghost var all := Check(rules, baseline, coverage, withDatabase);
      missing := {};
      var pkgs := Packages(baseline);
      for i := 0 to |pkgs|
        invariant forall p :: p in missing <==> p in pkgs[..i] && p in all.missing
      {
        if pkgs[i] !in coverage && rules.Measured(pkgs[i], withDatabase) {
          missing := missing + {pkgs[i]};
        }
      }
      assert pkgs[..|pkgs|] == pkgs;
    }

    /** Every violation is found, not the first. */
    method CheckCoverage(coverage: Coverage, withDatabase: bool) returns (f: Findings, ok: bool)
      ensures f == Check(rules, baseline, coverage, withDatabase) && ok == Passes(f)
      ensures FindsInFull(rules, baseline, coverage, withDatabase, f)
      ensures ok <==> f.floor == {} && f.ratchet == {} && f.missing == {}
    {
      CheckInFull(rules, baseline, coverage, withDatabase);
      var floors: set<Package>, ratchet: set<Package>, unchecked: set<Package> := {}, {}, {};
      ghost var all := Check(rules, baseline, coverage, withDatabase);
      var pkgs := Packages(coverage);
      for i := 0 to |pkgs|
        invariant forall p :: p in floors <==> p in pkgs[..i] && p in all.floor
        invariant forall p :: p in ratchet <==> p in pkgs[..i] && p in all.ratchet
        invariant forall p :: p in unchecked <==> p in pkgs[..i] && p in all.unchecked
      {
        var pkg := pkgs[i];
        if rules.exempt(pkg) {
          continue;
        }
        if !withDatabase && rules.needsDatabase(pkg) {
          unchecked := unchecked + {pkg};
          continue;
        }
        var pct, floor := coverage[pkg], rules.floor(pkg);
        if floor.Some? && pct + TOLERANCE < floor.value {
          floors := floors + {pkg};
        }
        if pkg in baseline && pct + TOLERANCE < baseline[pkg] {
          ratchet := ratchet + {pkg};
        }
      }
      assert pkgs[..|pkgs|] == pkgs;
      assert floors == all.floor && ratchet == all.ratchet && unchecked == all.unchecked;
      var missing := Missing(coverage, withDatabase);
      f := Findings(floors, ratchet, missing, unchecked);
      ok := floors == {} && ratchet == {} && missing == {};
    }
  }

  // ------------------------------------------------------------------- the ratchet

  predicate NonNegative(coverage: Coverage) {
    forall pkg :: pkg in coverage ==> coverage[pkg] >= 0.0
  }

  predicate Tenths(baseline: Coverage) {
    forall pkg :: pkg in baseline ==> baseline[pkg] >= 0.0 && IsTenth(baseline[pkg])
  }

  predicate AtLeast(after: Coverage, before: Coverage) {
    forall pkg :: pkg in before ==> pkg in after && after[pkg] >= before[pkg]
  }

  /** However the update went and whatever it was allowed, no drop is left for
      a check of the same profile to find, except what it refused to lower. */
  lemma NoDropAfterUpdate(r: Rules, baseline: Coverage, coverage: Coverage, allowDecrease: bool, withDatabase: bool)
    requires NonNegative(coverage)
    ensures var after := Recorded(r, baseline, coverage, allowDecrease, withDatabase);
            Check(r, after, coverage, withDatabase).ratchet
            == if allowDecrease then {} else Check(r, baseline, coverage, withDatabase).ratchet
  {
    var after := Recorded(r, baseline, coverage, allowDecrease, withDatabase);
    forall pkg | pkg in Rewritten(r, baseline, coverage, allowDecrease, withDatabase)
      ensures pkg in after && !Drops(after, pkg, coverage[pkg])
    {
      RoundingFitsTheTolerance(coverage[pkg]);
    }
  }

  /** A successful update lowers nothing that it was not allowed to lower, and
      writes tenths again. */
  lemma UpdateKeepsTheRatchet(r: Rules, baseline: Coverage, coverage: Coverage, withDatabase: bool)
    requires NonNegative(coverage) && Tenths(baseline)
    ensures var after := Recorded(r, baseline, coverage, false, withDatabase);
            Tenths(after) && AtLeast(after, baseline)
  {
    var after := Recorded(r, baseline, coverage, false, withDatabase);
    forall pkg | pkg in Rewritten(r, baseline, coverage, false, withDatabase)
      ensures after[pkg] >= 0.0 && IsTenth(after[pkg]) && (pkg in baseline ==> after[pkg] >= baseline[pkg])
    {
      RoundingFitsTheTolerance(coverage[pkg]);
      if pkg in baseline {
        PassingIsRecordedNoLower(baseline[pkg], coverage[pkg]);
      }
    }
  }

  /** One use of the tool with -update and without -allow-decrease. */
  datatype Update = Update(coverage: Coverage, withDatabase: bool, writable: bool)

  function Committed(r: Rules, file: Coverage, u: Update): Coverage {
    if u.writable && Lowered(r, file, u.coverage, u.withDatabase) == {}
    then Recorded(r, file, u.coverage, false, u.withDatabase)
    else file
  }

  function Ratcheted(r: Rules, file: Coverage, updates: seq<Update>): Coverage {
    if updates == [] then file
    else Committed(r, Ratcheted(r, file, updates[..|updates| - 1]), updates[|updates| - 1])
  }

  /** Over any sequence of updates, refused or not, no recorded number goes
      down and none disappears. */
  lemma {:induction false} TheRatchetOnlyMovesUp(r: Rules, file: Coverage, updates: seq<Update>, k: nat)
    requires Tenths(file) && k <= |updates|
    requires forall u :: u in updates ==> NonNegative(u.coverage)
    ensures Tenths(Ratcheted(r, file, updates))
    ensures AtLeast(Ratcheted(r, file, updates), Ratcheted(r, file, updates[..k]))
    decreases |updates|
  {
    if updates == [] {
      assert updates[..k] == updates;
    } else {
      var before, u := updates[..|updates| - 1], updates[|updates| - 1];
      var j := if k < |updates| then k else |before|;
      TheRatchetOnlyMovesUp(r, file, before, j);
      assert before[..j] == updates[..j];
      UpdateKeepsTheRatchet(r, Ratcheted(r, file, before), u.coverage, u.withDatabase);
      assert updates[..|updates|] == updates;
    }
  }
}
