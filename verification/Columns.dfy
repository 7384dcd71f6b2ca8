/** Column targets of an ingest (src/tools.rs) and the duplicate check they meet (src/scratchpad.rs). */
module Columns {
  import opened Basics
  import opened Numerals
  import opened Identifiers

  datatype Transform = Identity | ParseGaDate | ParseGaDateHour

  datatype Column = Column(name: string, logicalType: Option<string>)

  datatype Mapping = Mapping(source: string, target: string, logicalType: string, transform: Transform)

  // ---------- the deduplicator ----------

  /** The target of the k-th occurrence of a base name: the name itself, then `_2`, `_3`, ... */
  function TargetName(base: string, k: nat): string {
    if k <= 1 then base else base + "_" + ToDecimal(k)
  }

  function Count(bases: seq<string>, base: string): nat {
    if bases == [] then 0 else Count(bases[..|bases| - 1], base) + if bases[|bases| - 1] == base then 1 else 0
  }

  function Targets(bases: seq<string>): seq<string> {
    if bases == [] then []
    else
      var before, base := bases[..|bases| - 1], bases[|bases| - 1];
      Targets(before) + [TargetName(base, Count(before, base) + 1)]
  }

  /** The counts kept for the base names seen so far. */
  ghost predicate Counts(dedupe: map<string, nat>, bases: seq<string>) {
    forall b :: Seen(dedupe, b) == Count(bases, b)
  }

  function Seen(dedupe: map<string, nat>, base: string): nat { if base in dedupe then dedupe[base] else 0 }

  method NextMappingTarget(dedupe: map<string, nat>, base: string) returns (target: string, updated: map<string, nat>)
    ensures target == TargetName(base, Seen(dedupe, base) + 1)
    ensures updated == dedupe[base := Seen(dedupe, base) + 1]
  {
    var next := if base in dedupe then dedupe[base] else 0;
    target := if next == 0 then base else base + "_" + ToDecimal(next + 1);
    updated := dedupe[base := next + 1];
  }

  lemma CountsOneMore(dedupe: map<string, nat>, bases: seq<string>, base: string)
    requires Counts(dedupe, bases)
    ensures Counts(dedupe[base := Seen(dedupe, base) + 1], bases + [base])
  {
    assert (bases + [base])[..|bases|] == bases;
    forall b ensures Seen(dedupe[base := Seen(dedupe, base) + 1], b) == Count(bases + [base], b) {
      assert Seen(dedupe, b) == Count(bases, b);
    }
  }

  // ---------- the mappings ----------

  function Letters(s: string): string {
    if s == "" then "" else (if IsAlnum(s[0]) then [Lower(s[0])] else "") + Letters(s[1..])
  }

  /** The derived column of a date or date-hour dimension: logical type and transform. */
  function Temporal(name: string): Option<(string, Transform)> {
    var n := Letters(name);
    if n == "date" then Some(("date", ParseGaDate))
    else if n == "datehour" then Some(("timestamp", ParseGaDateHour))
    else None
  }

  /** The letters and digits of `s`, whatever their case, spell this word. */
  ghost predicate Spells(s: string, word: string) { exists at: seq<nat> :: SpellsAt(s, word, at) }

  ghost predicate SpellsAt(s: string, word: string, at: seq<nat>) {
    Picks(s, 0, at) && |at| == |word| && forall k | 0 <= k < |at| :: Lower(s[at[k]]) == word[k]
  }

  lemma {:induction false} LettersArePicked(s: string, i: nat, at: seq<nat>)
    requires i <= |s| && Picks(s, i, at) && forall k | 0 <= k < |at| :: at[k] < |s|
    ensures |Letters(s[i..])| == |at| && forall k | 0 <= k < |at| :: Letters(s[i..])[k] == Lower(s[at[k]])
    decreases |s| - i
  {
    PicksInside(s, i, at);
    if i == |s| {
      PicksNothing(s, at);
    } else {
      PicksNext(s, i, at);
      assert s[i..][1..] == s[i + 1..];
      hide Picks, Letters;
      LettersTurn(s[i..]);
      LettersArePicked(s, i + 1, if IsAlnum(s[i]) then at[1..] else at);
    }
  }

  lemma LettersTurn(s: string)
    requires s != ""
    ensures Letters(s) == if IsAlnum(s[0]) then [Lower(s[0])] + Letters(s[1..]) else Letters(s[1..])
  {}

  lemma SpellsIff(s: string, word: string)
    ensures Letters(s) == word <==> Spells(s, word)
  {
    hide Picks, Letters;
    assert s[0..] == s;
    var at := PicksExist(s, 0);
    PicksInside(s, 0, at);
    LettersArePicked(s, 0, at);
    if Letters(s) == word { assert SpellsAt(s, word, at); }
    if other: seq<nat> :| SpellsAt(s, word, other) {
      PicksInside(s, 0, other);
      LettersArePicked(s, 0, other);
    }
  }

  /** Which names get a second, parsed column, and of what type: those that spell "date" or "datehour". */
  lemma TemporalIs(name: string)
    ensures Temporal(name) == Some(("date", ParseGaDate)) <==> Spells(name, "date")
    ensures Temporal(name) == Some(("timestamp", ParseGaDateHour)) <==> Spells(name, "datehour")
    ensures Temporal(name).None? <==> !Spells(name, "date") && !Spells(name, "datehour")
  {
    hide Spells, Letters;
    SpellsIff(name, "date");
    SpellsIff(name, "datehour");
    assert |"date"| != |"datehour"|;
  }

  function BaseOf(columns: seq<Column>, i: nat): string
    requires i < |columns|
  {
    Normalize(columns[i].name, "col_" + ToDecimal(i + 1))
  }

  /** What column `i` maps to, its targets not yet made distinct. */
  function Planned(columns: seq<Column>, i: nat): seq<Mapping>
    requires i < |columns|
  {
    var c, base := columns[i], BaseOf(columns, i);
    var plain := Mapping(c.name, base, if c.logicalType.Some? then c.logicalType.value else "string", Identity);
    match Temporal(c.name)
    case None => [plain]
    case Some((logicalType, transform)) => [plain, Mapping(c.name, base + "_parsed", logicalType, transform)]
  }

  function PlannedUpTo(columns: seq<Column>, n: nat): seq<Mapping>
    requires n <= |columns|
  {
    if n == 0 then [] else PlannedUpTo(columns, n - 1) + Planned(columns, n - 1)
  }

  /** The mappings of all columns, their targets not yet made distinct. */
  function Plan(columns: seq<Column>): seq<Mapping> { PlannedUpTo(columns, |columns|) }

  function TargetsOf(ms: seq<Mapping>): seq<string> { seq(|ms|, i requires 0 <= i < |ms| => ms[i].target) }

  /** The plan with its targets made distinct. */
  ghost predicate Resolves(ms: seq<Mapping>, plan: seq<Mapping>) {
    && |ms| == |plan|
    && TargetsOf(ms) == Targets(TargetsOf(plan))
    && forall i | 0 <= i < |ms| :: ms[i].(target := plan[i].target) == plan[i]
  }

  lemma ResolvesOneMore(ms: seq<Mapping>, plan: seq<Mapping>, p: Mapping)
    requires Resolves(ms, plan)
    ensures var k := Count(TargetsOf(plan), p.target) + 1;
            Resolves(ms + [p.(target := TargetName(p.target, k))], plan + [p])
  {
    var bases := TargetsOf(plan + [p]);
    assert bases == TargetsOf(plan) + [p.target];
    assert bases[..|bases| - 1] == TargetsOf(plan);
    var m := p.(target := TargetName(p.target, Count(TargetsOf(plan), p.target) + 1));
    assert TargetsOf(ms + [m]) == TargetsOf(ms) + [m.target];
  }

  method BuildIngestColumnMappings(columns: seq<Column>) returns (mappings: seq<Mapping>)
    ensures Resolves(mappings, Plan(columns))
  {
    hide *;
    var dedupe: map<string, nat> := map[];
    mappings := [];
    ghost var plan: seq<Mapping> := [];
    NothingCounted();
    NothingPlanned(columns);
    for index := 0 to |columns|
      invariant plan == PlannedUpTo(columns, index)
      invariant Resolves(mappings, plan)
      invariant Counts(dedupe, TargetsOf(plan))
    {
      var column := columns[index];
      var base := NormalizeSqlIdentifier(column.name, "col_" + ToDecimal(index + 1));
      var logicalType := if column.logicalType.Some? then column.logicalType.value else "string";
      var target, updated := NextMappingTarget(dedupe, base);
      ghost var p := Mapping(column.name, base, logicalType, Identity);
      OneMore(mappings, plan, p, dedupe);
      mappings := mappings + [Mapping(column.name, target, logicalType, Identity)];
      dedupe, plan := updated, plan + [p];
      var temporal := Temporal(column.name);
      if temporal.Some? {
        var derivedBase := base + "_parsed";
        target, updated := NextMappingTarget(dedupe, derivedBase);
        ghost var d := Mapping(column.name, derivedBase, temporal.value.0, temporal.value.1);
        OneMore(mappings, plan, d, dedupe);
        mappings := mappings + [Mapping(column.name, target, temporal.value.0, temporal.value.1)];
        dedupe, plan := updated, plan + [d];
      }
      PlannedTurn(columns, index);
    }
    PlanIsAll(columns);
  }

  lemma PlanIsAll(columns: seq<Column>)
    ensures Plan(columns) == PlannedUpTo(columns, |columns|)
  {}

  lemma NothingPlanned(columns: seq<Column>)
    ensures PlannedUpTo(columns, 0) == []
  {}

  lemma PlannedTurn(columns: seq<Column>, i: nat)
    requires i < |columns|
    ensures var c, base, temporal := columns[i], Normalize(columns[i].name, "col_" + ToDecimal(i + 1)), Temporal(columns[i].name);
            var p := Mapping(c.name, base, if c.logicalType.Some? then c.logicalType.value else "string", Identity);
            PlannedUpTo(columns, i + 1) ==
            if temporal.None? then PlannedUpTo(columns, i) + [p]
            else PlannedUpTo(columns, i) + [p] + [Mapping(c.name, base + "_parsed", temporal.value.0, temporal.value.1)]
  {
    hide Normalize, Temporal;
  }

  lemma NothingCounted()
    ensures Counts(map[], TargetsOf([])) && Resolves([], [])
  {
    assert TargetsOf([]) == [];
  }

  lemma OneMore(ms: seq<Mapping>, plan: seq<Mapping>, p: Mapping, dedupe: map<string, nat>)
    requires Resolves(ms, plan) && Counts(dedupe, TargetsOf(plan))
    ensures var k := Seen(dedupe, p.target) + 1;
            Resolves(ms + [p.(target := TargetName(p.target, k))], plan + [p])
            && Counts(dedupe[p.target := k], TargetsOf(plan + [p]))
  {
    hide Resolves, Count, TargetName, Seen;
    assert Seen(dedupe, p.target) == Count(TargetsOf(plan), p.target);
    ResolvesOneMore(ms, plan, p);
    CountsOneMore(dedupe, TargetsOf(plan), p.target);
    hide Counts;
    assert TargetsOf(plan + [p]) == TargetsOf(plan) + [p.target];
  }

  // ---------- when the targets are distinct ----------

  /** Some base name is another base name with the suffix of one of that other's occurrences. */
  ghost predicate Clash(bases: seq<string>) {
    exists b, c, k: nat :: b in bases && c in bases && 2 <= k <= Count(bases, b) && c == TargetName(b, k)
  }

  lemma {:induction false} TargetAt(bases: seq<string>, i: nat)
    requires i < |bases|
    ensures |Targets(bases)| == |bases|
    ensures Targets(bases)[i] == TargetName(bases[i], Count(bases[..i], bases[i]) + 1)
    decreases |bases|
  {
    var n := |bases| - 1;
    if n > 0 { TargetAt(bases[..n], if i < n then i else 0); }
    if i < n { assert bases[..n][..i] == bases[..i]; }
  }

  lemma {:induction false} TargetsLength(bases: seq<string>)
    ensures |Targets(bases)| == |bases|
  {
    if bases != [] { TargetsLength(bases[..|bases| - 1]); }
  }

  lemma {:induction false} CountGrows(bases: seq<string>, i: nat, j: nat, b: string)
    requires i <= j <= |bases|
    ensures Count(bases[..i], b) <= Count(bases[..j], b)
    ensures i < j && bases[i] == b ==> Count(bases[..i], b) < Count(bases[..j], b)
    decreases j
  {
    if i < j {
      assert bases[..j][..j - 1] == bases[..j - 1];
      CountGrows(bases, i, j - 1, b);
    }
  }

  /** A base name that occurs k times has a k-th occurrence. */
  lemma {:induction false} Occurrence(bases: seq<string>, b: string, k: nat) returns (j: nat)
    requires 1 <= k <= Count(bases, b)
    ensures j < |bases| && bases[j] == b && Count(bases[..j], b) == k - 1
  {
    var n := |bases| - 1;
    if k <= Count(bases[..n], b) {
      j := Occurrence(bases[..n], b, k);
      assert bases[..n][..j] == bases[..j];
    } else {
      j := n;
    }
  }

  lemma {:induction false} CountsMembers(bases: seq<string>, b: string)
    ensures b in bases <==> Count(bases, b) >= 1
  {
    if bases != [] {
      var n := |bases| - 1;
      CountsMembers(bases[..n], b);
      assert bases == bases[..n] + [bases[n]];
    }
  }

  /** The last underscore is where the digits start: at it, the longer text cannot have a digit. */
  lemma NotShorter(a: string, d: string, b: string, e: string)
    requires Digits(d) && a + "_" + d == b + "_" + e
    ensures |a| >= |b|
  {
    var s := a + "_" + d;
    assert s[|b|] == (b + "_" + e)[|b|] == '_';
    assert forall i | |a| < i < |s| :: IsDigit(s[i]) by { assert forall i | |a| < i < |s| :: s[i] == d[i - |a| - 1]; }
  }

  /** Suffixed names name their base and their number. */
  lemma SuffixInjective(a: string, m: nat, b: string, n: nat)
    requires a + "_" + ToDecimal(m) == b + "_" + ToDecimal(n)
    ensures a == b && m == n
  {
    hide ToDecimal, Digits, Value;
    var d, e := ToDecimal(m), ToDecimal(n);
    DecimalValue(m);
    DecimalValue(n);
    NotShorter(a, d, b, e);
    NotShorter(b, e, a, d);
    assert (a + "_" + d)[..|a|] == a && (b + "_" + e)[..|a|] == b;
    assert (a + "_" + d)[|a| + 1..] == d && (b + "_" + e)[|a| + 1..] == e;
  }

  lemma TargetNamesDiffer(b: string, j: nat, k: nat)
    requires 1 <= j < k
    ensures TargetName(b, j) != TargetName(b, k)
  {
    if j > 1 && TargetName(b, j) == TargetName(b, k) { SuffixInjective(b, j, b, k); }
  }

  lemma ClashMeets(bases: seq<string>)
    requires Clash(bases)
    ensures !Distinct(Targets(bases))
  {
    var b, c, k: nat :| b in bases && c in bases && 2 <= k <= Count(bases, b) && c == TargetName(b, k);
    CountsMembers(bases, c);
    var i := Occurrence(bases, c, 1);
    var j := Occurrence(bases, b, k);
    TargetAt(bases, i);
    TargetAt(bases, j);
    assert |c| > |b|;
    assert Targets(bases)[i] == Targets(bases)[j] && i != j;
  }

  lemma MeetingClashes(bases: seq<string>, i: nat, j: nat)
    requires i < j < |bases|
    requires |Targets(bases)| == |bases| && Targets(bases)[i] == Targets(bases)[j]
    ensures Clash(bases)
  {
    TargetAt(bases, i);
    TargetAt(bases, j);
    var b, c := bases[i], bases[j];
    var m, n := Count(bases[..i], b) + 1, Count(bases[..j], c) + 1;
    CountGrows(bases, i, |bases|, b);
    CountGrows(bases, j, |bases|, c);
    assert bases[..|bases|] == bases;
    if b == c {
      CountGrows(bases, i, j, b);
      TargetNamesDiffer(b, m, n);
    } else if m > 1 && n > 1 {
      SuffixInjective(b, m, c, n);
    } else if m > 1 {
      assert b in bases && c in bases && 2 <= m <= Count(bases, b) && c == TargetName(b, m);
    } else {
      assert b in bases && c in bases && 2 <= n <= Count(bases, c) && b == TargetName(c, n);
    }
  }

  /** The targets are pairwise distinct exactly when no base name is another one with a suffix in use. */
  lemma TargetsDistinctIff(bases: seq<string>)
    ensures Distinct(Targets(bases)) <==> !Clash(bases)
  {
    TargetsLength(bases);
    if Clash(bases) { ClashMeets(bases); }
    if !Distinct(Targets(bases)) {
      var i, j :| 0 <= i < j < |Targets(bases)| && Targets(bases)[i] == Targets(bases)[j];
      MeetingClashes(bases, i, j);
    }
  }

  // ---------- the manager's check ----------

  datatype ColumnError = NoColumns | BadName | DuplicateName

  /** The names before `i` are accepted and distinct. */
  ghost predicate PassesUpTo(names: seq<string>, i: nat)
    requires i <= |names|
  {
    Distinct(names[..i]) && forall j | 0 <= j < i :: ValidateSqlIdentifier(names[j])
  }

  /** The column checks at the head of ingest_rows_with_mode: the first fault is the one reported. */
  method CheckColumns(names: seq<string>) returns (r: Result<(), ColumnError>)
    ensures r.Ok? <==> names != [] && PassesUpTo(names, |names|)
    ensures r == Err(NoColumns) <==> names == []
    ensures r.Err? && names != [] ==>
              exists i | 0 <= i < |names| ::
                && PassesUpTo(names, i)
                && (if r.error == BadName then !ValidateSqlIdentifier(names[i])
                    else ValidateSqlIdentifier(names[i]) && names[i] in names[..i])
  {
    hide ValidateSqlIdentifier;
    if names == [] { return Err(NoColumns); }
    var seen: set<string> := {};
    for i := 0 to |names|
      invariant seen == set n | n in names[..i]
      invariant PassesUpTo(names, i)
    {
      if !ValidateSqlIdentifier(names[i]) { return Err(BadName); }
      assert names[..i + 1] == names[..i] + [names[i]];
      if names[i] in seen {
        var j :| 0 <= j < i && names[..i][j] == names[i];
        assert names[j] == names[i];
        return Err(DuplicateName);
      }
      seen := seen + {names[i]};
    }
    return Ok(());
  }

  /** An accepted name whatever word is appended to it. */
  ghost predicate Extends(base: string) { forall suffix | Words(suffix) :: ValidateSqlIdentifier(base + suffix) }

  lemma TargetIsValid(base: string, k: nat)
    requires Extends(base)
    ensures ValidateSqlIdentifier(TargetName(base, k))
  {
    hide ValidateSqlIdentifier, ToDecimal;
    DecimalValue(k);
    var suffix := if k <= 1 then "" else "_" + ToDecimal(k);
    assert Words(suffix);
    assert base + suffix == TargetName(base, k);
  }

  lemma BaseExtends(columns: seq<Column>, i: nat)
    requires i < |columns|
    ensures Extends(BaseOf(columns, i)) && Extends(BaseOf(columns, i) + "_parsed")
  {
    hide ValidateSqlIdentifier, Normalize, ToDecimal;
    DecimalValue(i + 1);
    var name, fallback := columns[i].name, "col_" + ToDecimal(i + 1);
    forall suffix | Words(suffix)
      ensures ValidateSqlIdentifier(Normalize(name, fallback) + suffix)
      ensures ValidateSqlIdentifier(Normalize(name, fallback) + "_parsed" + suffix)
    {
      NormalizedIsValid(name, fallback, suffix);
      NormalizedIsValid(name, fallback, "_parsed" + suffix);
      assert Normalize(name, fallback) + "_parsed" + suffix == Normalize(name, fallback) + ("_parsed" + suffix);
    }
  }

  lemma {:induction false} PlannedExtend(columns: seq<Column>, n: nat)
    requires n <= |columns|
    ensures forall i | 0 <= i < |PlannedUpTo(columns, n)| :: Extends(PlannedUpTo(columns, n)[i].target)
  {
    hide Extends, BaseOf, Temporal;
    if n > 0 {
      PlannedExtend(columns, n - 1);
      BaseExtends(columns, n - 1);
    }
  }

  /** The targets of any columns pass the manager's check exactly when there is a column and no clash:
      every target is an accepted name, so duplicates are all that can fail. */
  lemma {:induction false} MappingsPassIff(columns: seq<Column>, mappings: seq<Mapping>)
    requires Resolves(mappings, Plan(columns))
    ensures var names := TargetsOf(mappings);
            names != [] && PassesUpTo(names, |names|)
            <==> columns != [] && !Clash(TargetsOf(Plan(columns)))
  {
    hide ValidateSqlIdentifier, Extends, Clash, Planned, TargetName, Targets, Count;
    var plan := Plan(columns);
    var bases := TargetsOf(plan);
    TargetsDistinctIff(bases);
    PlannedExtend(columns, |columns|);
    PlannedSomething(columns, |columns|);
    PlanIsAll(columns);
    forall i | 0 <= i < |mappings| ensures ValidateSqlIdentifier(TargetsOf(mappings)[i]) {
      TargetAt(bases, i);
      TargetIsValid(bases[i], Count(bases[..i], bases[i]) + 1);
    }
    var names := TargetsOf(mappings);
    assert names[..|names|] == names;
  }

  lemma PlannedSomething(columns: seq<Column>, n: nat)
    requires n <= |columns|
    ensures PlannedUpTo(columns, n) == [] <==> n == 0
  {
    hide BaseOf, Temporal;
  }

  // ---------- a clash ----------

  lemma CountTwo(a: string, b: string, c: string)
    ensures Count([], c) == 0
    ensures Count([a], c) == if a == c then 1 else 0
    ensures Count([a, b], c) == (if a == c then 1 else 0) + if b == c then 1 else 0
  {
    assert [a, b][..1] == [a] && [a][..0] == [];
  }

  lemma ClashingTargets()
    ensures Targets(["a", "a", "a_2"]) == ["a", "a_2", "a_2"]
  {
    hide Targets, Count, ToDecimal;
    var bases := ["a", "a", "a_2"];
    assert TargetName("a", 2) == "a_2" by { DecimalOfTwo(); }
    TargetAt(bases, 0);
    TargetAt(bases, 1);
    TargetAt(bases, 2);
    assert bases[..0] == [] && bases[..1] == ["a"] && bases[..2] == ["a", "a"];
    CountTwo("a", "a", "a");
    CountTwo("a", "a", "a_2");
  }

  lemma DecimalOfTwo()
    ensures ToDecimal(2) == "2"
  {}

  /** The third column has the name that the second one is given. */
  const CLASHING: seq<Column> := [Column("a", None), Column("a", None), Column("a_2", None)]

  lemma CoreNameKept(name: string, fallback: string)
    requires name != "" && CoreShape(name) && !IsDigit(name[0])
    ensures Normalize(name, fallback) == name
  {
    hide Core;
    CoreOfCore(name);
  }

  lemma NotTemporal()
    ensures Temporal("a").None? && Temporal("a_2").None?
  {
    assert Letters("a") == "a" && Letters("a_2") == "a2";
  }

  lemma ClashingPlan()
    ensures TargetsOf(Plan(CLASHING)) == ["a", "a", "a_2"]
  {
    hide Temporal, Normalize, ToDecimal;
    NotTemporal();
    CoreNameKept("a", "col_" + ToDecimal(1));
    CoreNameKept("a", "col_" + ToDecimal(2));
    CoreNameKept("a_2", "col_" + ToDecimal(3));
    PlanOfThree(CLASHING);
  }

  lemma PlanOfThree(columns: seq<Column>)
    requires |columns| == 3 && forall i | 0 <= i < 3 :: Temporal(columns[i].name).None?
    ensures TargetsOf(Plan(columns)) == [BaseOf(columns, 0), BaseOf(columns, 1), BaseOf(columns, 2)]
  {
    hide BaseOf, Temporal;
    assert PlannedUpTo(columns, 1) == Planned(columns, 0);
    assert PlannedUpTo(columns, 2) == Planned(columns, 0) + Planned(columns, 1);
    assert PlannedUpTo(columns, 3) == Planned(columns, 0) + Planned(columns, 1) + Planned(columns, 2);
  }

  /** Whatever mappings the builder makes of these columns, the manager refuses them. */
  lemma {:induction false} ClashExample(mappings: seq<Mapping>)
    requires Resolves(mappings, Plan(CLASHING))
    ensures TargetsOf(mappings) == ["a", "a_2", "a_2"]
    ensures !PassesUpTo(TargetsOf(mappings), |mappings|)
  {
    hide Plan, Targets, ValidateSqlIdentifier;
    ClashingPlan();
    ClashingTargets();
    var names := TargetsOf(mappings);
    assert names[..3][1] == names[..3][2];
  }
}
