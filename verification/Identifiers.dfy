/** SQL identifiers: the normaliser of src/tools.rs and the validator of src/scratchpad.rs. */
module Identifiers {
  import opened Basics

  // ---------- the normaliser ----------

  /** Letters and digits in lower case, every run of other characters as one underscore. */
  function Squash(s: string, previousUnderscore: bool): string {
    if s == "" then ""
    else if IsAlnum(s[0]) then [Lower(s[0])] + Squash(s[1..], false)
    else if previousUnderscore then Squash(s[1..], true)
    else "_" + Squash(s[1..], true)
  }

  function DropLeading(s: string): string { if s != "" && s[0] == '_' then DropLeading(s[1..]) else s }

  function DropTrailing(s: string): string {
    if s != "" && s[|s| - 1] == '_' then DropTrailing(s[..|s| - 1]) else s
  }

  /** `trim_matches('_')`. */
  function Strip(s: string): string { DropTrailing(DropLeading(s)) }

  function Guarded(s: string): string { if s != "" && IsDigit(s[0]) then "_" + s else s }

  function Core(raw: string): string { Strip(Squash(Trim(raw), false)) }

  function Normalize(raw: string, fallback: string): string {
    Guarded(if Core(raw) == "" then fallback else Core(raw))
  }

  method NormalizeSqlIdentifier(raw: string, fallback: string) returns (r: string)
    ensures r == Normalize(raw, fallback)
  {
    hide Squash;
    var normalized := "";
    var previousUnderscore := false;
    var text := Trim(raw);
    var i := 0;
    assert text[0..] == text && "" + Squash(text, false) == Squash(text, false);
    while i < |text|
      invariant 0 <= i <= |text|
      invariant normalized + Squash(text[i..], previousUnderscore) == Squash(text, false)
    {
      var ch := text[i];
      SquashTurn(text, i, previousUnderscore);
      if IsAlnum(ch) {
        normalized := normalized + [Lower(ch)];
        previousUnderscore := false;
      } else if !previousUnderscore {
        normalized := normalized + "_";
        previousUnderscore := true;
      }
      i := i + 1;
    }
    SquashNothing(previousUnderscore);
    assert text[|text|..] == "" && normalized + "" == normalized;
    normalized := Strip(normalized);
    if normalized == "" { normalized := fallback; }
    if normalized != "" && IsDigit(normalized[0]) { normalized := "_" + normalized; }
    return normalized;
  }

  // ---------- the validator ----------

  predicate ValidateSqlIdentifier(identifier: string) {
    var t := Trim(identifier);
    t != "" && (IsAlpha(t[0]) || t[0] == '_') && forall i | 1 <= i < |t| :: IsWordChar(t[i])
  }

  /** Accepted is exactly a word between white space, starting with a letter or an underscore. */
  lemma ValidIff(identifier: string)
    ensures ValidateSqlIdentifier(identifier) <==>
            exists before, word, after :: IsWordBetween(identifier, before, word, after)
  {
    hide Trim;
    if ValidateSqlIdentifier(identifier) {
      var before, after := TrimLeaves(identifier);
      assert IsWordBetween(identifier, before, Trim(identifier), after);
    }
    if before, word, after :| IsWordBetween(identifier, before, word, after) {
      assert IsWordChar(word[0]) && (|word| > 1 ==> IsWordChar(word[|word| - 1]));
      TrimIs(before, word, after);
    }
  }

  ghost predicate IsWordBetween(identifier: string, before: string, word: string, after: string) {
    && identifier == before + word + after && AllSpace(before) && AllSpace(after)
    && word != "" && (IsAlpha(word[0]) || word[0] == '_') && forall i | 0 <= i < |word| :: IsWordChar(word[i])
  }

  predicate Words(s: string) { forall i | 0 <= i < |s| :: IsWordChar(s[i]) }

  lemma TrimNothing(s: string)
    requires s != "" ==> !IsSpace(s[0]) && !IsSpace(s[|s| - 1])
    ensures Trim(s) == s
  {}

  lemma WordsAreValid(s: string)
    requires s != "" && Words(s) && !IsDigit(s[0])
    ensures ValidateSqlIdentifier(s)
  {
    assert IsWordChar(s[0]) && IsWordChar(s[|s| - 1]);
    TrimNothing(s);
  }

  // ---------- the shape of a core ----------

  predicate IsCoreChar(c: char) { IsDigit(c) || 'a' <= c <= 'z' || c == '_' }

  /** Lower-case words joined by single underscores. */
  predicate Single(s: string) {
    && (forall i | 0 <= i < |s| :: IsCoreChar(s[i]))
    && (forall i, j | 0 <= i && j == i + 1 < |s| :: s[i] != '_' || s[j] != '_')
  }

  predicate CoreShape(s: string) { Single(s) && (s != "" ==> s[0] != '_' && s[|s| - 1] != '_') }

  lemma {:induction false} SquashShape(s: string, previousUnderscore: bool)
    ensures var r := Squash(s, previousUnderscore);
            Single(r) && (previousUnderscore && r != "" ==> r[0] != '_')
  {
    if s != "" { SquashShape(s[1..], !IsAlnum(s[0])); }
  }

  lemma {:induction false} DropLeadingShape(s: string)
    requires Single(s)
    ensures var r := DropLeading(s); Single(r) && (r != "" ==> r[0] != '_')
  {
    if s != "" && s[0] == '_' { DropLeadingShape(s[1..]); }
  }

  lemma {:induction false} DropTrailingShape(s: string)
    requires Single(s) && (s != "" ==> s[0] != '_')
    ensures CoreShape(DropTrailing(s))
  {
    if s != "" && s[|s| - 1] == '_' { DropTrailingShape(s[..|s| - 1]); }
  }

  lemma CoreIsShaped(raw: string)
    ensures CoreShape(Core(raw))
  {
    SquashShape(Trim(raw), false);
    DropLeadingShape(Squash(Trim(raw), false));
    DropTrailingShape(DropLeading(Squash(Trim(raw), false)));
  }

  lemma {:induction false} SquashKeeps(s: string, previousUnderscore: bool)
    requires Single(s) && (previousUnderscore && s != "" ==> s[0] != '_')
    ensures Squash(s, previousUnderscore) == s
  {
    if s != "" {
      assert s[0] == '_' && |s| > 1 ==> s[1] != '_';
      SquashKeeps(s[1..], s[0] == '_');
      assert Lower(s[0]) == s[0];
    }
  }

  /** A core, guarded or not, has itself as its core. */
  lemma CoreOfCore(s: string)
    requires CoreShape(s) && s != ""
    ensures Core(s) == s && Core("_" + s) == s
  {
    TrimNothing(s);
    SquashKeeps(s, false);
    var t := "_" + s;
    TrimNothing(t);
    assert t[1..] == s;
    SquashKeeps(s, true);
  }

  // ---------- what a core is made of ----------

  /** The positions from `i` on of the letters and digits of `s`, in order. */
  ghost predicate Picks(s: string, i: nat, at: seq<nat>) {
    && (forall k | 0 <= k < |at| :: i <= at[k] < |s| && IsAlnum(s[at[k]]))
    && (forall j, k | 0 <= j < k < |at| :: at[j] < at[k])
    && (forall p | i <= p < |s| && IsAlnum(s[p]) :: p in at)
  }

  lemma {:induction false} PicksExist(s: string, i: nat) returns (at: seq<nat>)
    requires i <= |s|
    ensures Picks(s, i, at)
    decreases |s| - i
  {
    if i == |s| {
      at := [];
    } else {
      at := PicksExist(s, i + 1);
      if IsAlnum(s[i]) { at := [i] + at; }
    }
  }

  lemma PicksNext(s: string, i: nat, at: seq<nat>)
    requires i < |s| && Picks(s, i, at)
    ensures IsAlnum(s[i]) ==> at != [] && at[0] == i && Picks(s, i + 1, at[1..])
    ensures !IsAlnum(s[i]) ==> Picks(s, i + 1, at)
  {
    if IsAlnum(s[i]) {
      assert i in at;
      var k :| 0 <= k < |at| && at[k] == i;
      assert at[0] <= at[k];
      forall p | i + 1 <= p < |s| && IsAlnum(s[p]) ensures p in at[1..] {
        assert p in at;
        var j :| 0 <= j < |at| && at[j] == p;
        assert at[1..][j - 1] == p;
      }
    } else {
      forall k | 0 <= k < |at| ensures i + 1 <= at[k] { assert IsAlnum(s[at[k]]); }
    }
  }

  lemma PicksInside(s: string, i: nat, at: seq<nat>)
    requires Picks(s, i, at)
    ensures forall k | 0 <= k < |at| :: at[k] < |s|
  {}

  lemma PicksNothing(s: string, at: seq<nat>)
    requires Picks(s, |s|, at)
    ensures at == []
  {
    if at != [] { PickInside(s, |s|, at, 0); }
  }

  lemma PickInside(s: string, i: nat, at: seq<nat>, k: nat)
    requires Picks(s, i, at) && k < |at|
    ensures i <= at[k] < |s|
  {}

  /** The picked letters in lower case, with one underscore wherever other characters come between two of them. */
  function Joined(s: string, at: seq<nat>): string
    requires forall k | 0 <= k < |at| :: at[k] < |s|
  {
    if at == [] then ""
    else [Lower(s[at[0]])] + (if |at| > 1 && at[1] > at[0] + 1 then "_" else "") + Joined(s, at[1..])
  }

  lemma LowerSays(c: char)
    ensures Lower(c) as int == c as int + if 65 <= c as int <= 90 then 32 else 0
  {}

  lemma {:induction false} DropTrailingCons(c: char, t: string)
    ensures DropTrailing([c] + t) == if c == '_' && DropTrailing(t) == "" then "" else [c] + DropTrailing(t)
    decreases |t|
  {
    hide DropTrailing;
    var u, n := [c] + t, |t| - 1;
    DropTrailingTurn(u);
    DropTrailingTurn(t);
    if t == "" {
      assert u == [c] && u[..0] == "";
      DropTrailingTurn("");
    } else {
      assert u[|u| - 1] == t[n] && u[..n + 1] == [c] + t[..n];
      if t[n] == '_' { DropTrailingCons(c, t[..n]); }
    }
  }

  lemma DropTrailingTurn(s: string)
    ensures DropTrailing(s) == if s != "" && s[|s| - 1] == '_' then DropTrailing(s[..|s| - 1]) else s
  {}

  lemma {:induction false} SquashJoins(s: string, i: nat, previousUnderscore: bool, at: seq<nat>)
    requires i <= |s| && Picks(s, i, at) && forall k | 0 <= k < |at| :: at[k] < |s|
    ensures DropTrailing(Squash(s[i..], previousUnderscore)) ==
            (if !previousUnderscore && at != [] && at[0] > i then "_" else "") + Joined(s, at)
    decreases |s| - i
  {
    hide Picks, DropTrailing, Squash, Joined, IsAlnum;
    if i == |s| {
      PicksNothing(s, at);
      SquashEnd(s, previousUnderscore);
    } else {
      PicksNext(s, i, at);
      SquashTurn(s, i, previousUnderscore);
      if IsAlnum(s[i]) {
        SquashJoins(s, i + 1, false, at[1..]);
        DropTrailingCons(Lower(s[i]), Squash(s[i + 1..], false));
        JoinedTurn(s, at);
      } else {
        SquashJoins(s, i + 1, true, at);
        DropTrailingCons('_', Squash(s[i + 1..], true));
        JoinedEmpty(s, at);
      }
    }
  }

  lemma SquashTurn(s: string, i: nat, previousUnderscore: bool)
    requires i < |s|
    ensures Squash(s[i..], previousUnderscore) ==
            if IsAlnum(s[i]) then [Lower(s[i])] + Squash(s[i + 1..], false)
            else if previousUnderscore then Squash(s[i + 1..], true)
            else "_" + Squash(s[i + 1..], true)
    ensures Lower(s[i]) != '_' || !IsAlnum(s[i])
  {
    assert s[i..][1..] == s[i + 1..];
  }

  lemma SquashNothing(previousUnderscore: bool)
    ensures Squash("", previousUnderscore) == ""
  {}

  lemma SquashEnd(s: string, previousUnderscore: bool)
    ensures DropTrailing(Squash(s[|s|..], previousUnderscore)) == Joined(s, []) == ""
  {}

  lemma JoinedTurn(s: string, at: seq<nat>)
    requires at != [] && forall k | 0 <= k < |at| :: at[k] < |s|
    ensures Joined(s, at) ==
            [Lower(s[at[0]])] + ((if |at| > 1 && at[1] > at[0] + 1 then "_" else "") + Joined(s, at[1..]))
  {}

  lemma JoinedEmpty(s: string, at: seq<nat>)
    requires forall k | 0 <= k < |at| :: at[k] < |s|
    ensures Joined(s, at) == "" <==> at == []
  {}

  /** A core keeps the letters and digits of the trimmed text, in order and in lower case, and has one underscore for
      each run of other characters between two of them, and nothing else. */
  lemma CoreIsJoined(raw: string, at: seq<nat>)
    requires Picks(Trim(raw), 0, at)
    ensures Core(raw) == Joined(Trim(raw), at)
  {
    hide Trim, Picks;
    var s := Trim(raw);
    PicksInside(s, 0, at);
    SquashJoins(s, 0, false, at);
    assert s[0..] == s;
    if s != "" && !IsAlnum(s[0]) {
      PicksNext(s, 0, at);
      SquashJoins(s, 1, true, at);
      SquashShape(s[1..], true);
      assert Squash(s, false) == "_" + Squash(s[1..], true);
      assert DropLeading("_" + Squash(s[1..], true)) == Squash(s[1..], true) by { DropOne(Squash(s[1..], true)); }
    } else {
      if s != "" { PicksNext(s, 0, at); }
      assert Squash(s, false) != "" ==> Squash(s, false)[0] != '_';
    }
  }

  lemma DropOne(t: string)
    requires t != "" ==> t[0] != '_'
    ensures DropLeading("_" + t) == t
  {
    assert ("_" + t)[1..] == t;
  }

  // ---------- what normalising gives ----------

  /** Whatever the input, the result is an identifier the manager accepts, as long as the fallback is a
      non-empty word; with a suffix of word characters it still is. */
  lemma NormalizedIsValid(raw: string, fallback: string, suffix: string)
    requires fallback != "" && Words(fallback) && Words(suffix)
    ensures ValidateSqlIdentifier(Normalize(raw, fallback) + suffix)
  {
    CoreIsShaped(raw);
    var r := Normalize(raw, fallback);
    assert Words(r) && r != "" && !IsDigit(r[0]);
    WordsAreValid(r + suffix);
  }

  /** Normalising again changes nothing, when the fallback is itself normalised. */
  lemma NormalizeIdempotent(raw: string, fallback: string)
    requires Normalize(fallback, fallback) == fallback
    ensures Normalize(Normalize(raw, fallback), fallback) == Normalize(raw, fallback)
  {
    hide Core;
    CoreIsShaped(raw);
    if Core(raw) != "" { CoreOfCore(Core(raw)); }
    else {
      GuardedFallback(fallback);
    }
  }

  lemma GuardedFallback(fallback: string)
    requires Normalize(fallback, fallback) == fallback
    ensures Guarded(fallback) == fallback
  {
    hide Core;
    CoreIsShaped(fallback);
  }
}
