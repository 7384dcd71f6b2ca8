/** The DuckDB token checks of src/sql_safety.rs and the quoting helpers of src/tools.rs: no quoted
    text, whatever it contains, changes the verdict on the statement it is written into. */
module SqlPolicy {
  import opened Basics
  import opened SqlSurface
  import opened SqlLaws

  // ---------- quoting ----------

  function EscapeSqlLiteral(raw: string): string { Doubled('\'', raw) }

  function QuoteSqlIdentifier(identifier: string): string { QuoteText('"', identifier) }

  /** A quoted literal is scanned to blanks of the same length, then the rest is scanned as if alone. */
  lemma LiteralIsBlank(raw: string, t: string)
    requires t == "" || t[0] != '\''
    ensures var literal := "'" + EscapeSqlLiteral(raw) + "'";
            && Surface(literal + t) == Emit(Hidden(literal), Surface(t))
            && |Hidden(literal)| == |literal|
            && forall c | c in Hidden(literal) :: IsAsciiSpace(c)
  {
    QuotedStep('\'', raw, t);
    HiddenBlank(QuoteText('\'', raw));
  }

  lemma IdentifierIsBlank(identifier: string, t: string)
    requires t == "" || t[0] != '"'
    ensures var quoted := QuoteSqlIdentifier(identifier);
            && Surface(quoted + t) == Emit(Hidden(quoted), Surface(t))
            && forall c | c in Hidden(quoted) :: IsAsciiSpace(c)
  {
    QuotedStep('"', identifier, t);
    HiddenBlank(QuoteSqlIdentifier(identifier));
  }

  /** Different contents stay different when quoted, so the quoted text still names its content. */
  lemma {:induction false} DoubledInjective(q: char, a: string, b: string)
    requires Doubled(q, a) == Doubled(q, b)
    ensures a == b
  {
    if a != "" && b != "" {
      assert Doubled(q, a)[0] == a[0] && Doubled(q, b)[0] == b[0];
      var n := if a[0] == q then 2 else 1;
      assert Doubled(q, a)[n..] == Doubled(q, a[1..]) && Doubled(q, b)[n..] == Doubled(q, b[1..]);
      DoubledInjective(q, a[1..], b[1..]);
      assert a == [a[0]] + a[1..] && b == [b[0]] + b[1..];
    }
  }

  /** What a quoted text says: every pair of quotes is one. */
  function ReadBack(q: char, s: string): string
    decreases |s|
  {
    if s == "" then ""
    else if |s| >= 2 && s[0] == q && s[1] == q then [q] + ReadBack(q, s[2..])
    else [s[0]] + ReadBack(q, s[1..])
  }

  lemma {:induction false} DoubledReadsBack(q: char, content: string)
    ensures ReadBack(q, Doubled(q, content)) == content
  {
    if content != "" {
      DoubledReadsBack(q, content[1..]);
      var s, rest := Doubled(q, content), Doubled(q, content[1..]);
      assert content == [content[0]] + content[1..];
      if content[0] == q {
        assert s == [q, q] + rest && s[2..] == rest;
      } else {
        assert s == [content[0]] + rest && s[0] == content[0] && s[1..] == rest;
      }
    }
  }

  /** A literal and a quoted identifier say what was put into them. */
  lemma QuotedReadsBack(content: string)
    ensures ReadBack('\'', EscapeSqlLiteral(content)) == content
    ensures exists inner :: QuoteSqlIdentifier(content) == "\"" + inner + "\"" && ReadBack('"', inner) == content
  {
    DoubledReadsBack('\'', content);
    DoubledReadsBack('"', content);
    assert QuoteSqlIdentifier(content) == "\"" + Doubled('"', content) + "\"";
  }

  // ---------- tokens ----------

  function WordLength(s: string): (n: nat)
    ensures n <= |s| && (forall i | 0 <= i < n :: IsWordChar(s[i])) && (n < |s| ==> !IsWordChar(s[n]))
  {
    if s == "" || !IsWordChar(s[0]) then 0 else 1 + WordLength(s[1..])
  }

  /** A maximal run of identifier bytes, or any other byte on its own. */
  function TokenLength(s: string): (n: nat)
    requires s != ""
    ensures 0 < n <= |s|
  {
    if IsWordChar(s[0]) then WordLength(s) else 1
  }

  function Tokens(s: string): seq<string>
    decreases |s|
  {
    if s == "" then []
    else if IsAsciiSpace(s[0]) then Tokens(s[1..])
    else [s[..TokenLength(s)]] + Tokens(s[TokenLength(s)..])
  }

  lemma FirstToken(s: string)
    ensures s == "" ==> Tokens(s) == []
    ensures s != "" && IsAsciiSpace(s[0]) ==> Tokens(s) == Tokens(s[1..])
    ensures s != "" && !IsAsciiSpace(s[0]) ==> Tokens(s) == [s[..TokenLength(s)]] + Tokens(s[TokenLength(s)..])
  {}

  lemma WordLengthIs(s: string, n: nat)
    requires n <= |s| && (forall i | 0 <= i < n :: IsWordChar(s[i])) && (n < |s| ==> !IsWordChar(s[n]))
    ensures WordLength(s) == n
  {
    hide WordLength;
    var k := WordLength(s);
    assert k < |s| ==> !IsWordChar(s[k]);
    assert n < |s| ==> !IsWordChar(s[n]);
  }

  lemma {:induction false} TokensAfterBlanks(b: string, t: string)
    requires forall c | c in b :: IsAsciiSpace(c)
    ensures Tokens(b + t) == Tokens(t)
  {
    hide Tokens;
    if b == "" {
      assert b + t == t;
    } else {
      FirstToken(b + t);
      assert (b + t)[0] == b[0] && b[0] in b && (b + t)[1..] == b[1..] + t;
      TokensAfterBlanks(b[1..], t);
    }
  }

  lemma TokenLengthApart(a: string, t: string)
    requires a != "" && t != "" && IsAsciiSpace(t[0])
    ensures TokenLength(a + t) == TokenLength(a)
  {
    var u, n := a + t, WordLength(a);
    assert forall i | 0 <= i < |a| :: u[i] == a[i];
    assert u[|a|] == t[0];
    if IsWordChar(a[0]) { WordLengthIs(u, n); }
  }

  /** Blanks between two texts keep their tokens apart. */
  lemma {:induction false} TokensApart(a: string, b: string, t: string)
    requires b != "" && forall c | c in b :: IsAsciiSpace(c)
    ensures Tokens(a + (b + t)) == Tokens(a) + Tokens(t)
    decreases |a|
  {
    hide Tokens;
    var u := a + (b + t);
    FirstToken(a);
    FirstToken(u);
    if a == "" {
      assert u == b + t;
      TokensAfterBlanks(b, t);
    } else {
      assert b[0] in b && (b + t)[0] == b[0] && u[0] == a[0];
      TokenLengthApart(a, b + t);
      var n := if IsAsciiSpace(a[0]) then 1 else TokenLength(a);
      assert u[..n] == a[..n] && u[n..] == a[n..] + (b + t);
      TokensApart(a[n..], b, t);
      assert [a[..n]] + (Tokens(a[n..]) + Tokens(t)) == ([a[..n]] + Tokens(a[n..])) + Tokens(t);
    }
  }

  // ---------- forbidden keywords and functions ----------

  const DUCKDB_ALLOWED_PREFIXES: seq<string> := ["DESCRIBE", "SUMMARIZE"]

  const DUCKDB_FORBIDDEN_KEYWORDS: seq<string> := ["INSTALL", "LOAD", "ATTACH", "DETACH", "EXPORT", "IMPORT"]

  const DUCKDB_FORBIDDEN_FUNCTIONS: seq<string> := [
    "READ_CSV", "READ_CSV_AUTO", "READ_PARQUET", "READ_JSON", "READ_JSON_AUTO", "READ_NDJSON", "READ_BLOB",
    "READ_TEXT", "READ_XLSX", "CSV_SCAN", "PARQUET_SCAN", "JSON_SCAN", "POSTGRES_SCAN", "MYSQL_SCAN", "SQLITE_SCAN"]

  predicate ForbiddenKeyword(w: string) { w in DUCKDB_FORBIDDEN_KEYWORDS }

  predicate ForbiddenFunction(w: string) { w in DUCKDB_FORBIDDEN_FUNCTIONS }

  lemma ForbiddenAreNames(w: string)
    requires ForbiddenFunction(w) || ForbiddenKeyword(w)
    ensures w != "" && IsNameStart(w[0])
  {}

  predicate IsNameStart(c: char) { IsAlpha(c) || c == '_' }

  /** The split on everything that is not an identifier byte, empty pieces dropped. */
  function WordRuns(s: string): seq<string>
    decreases |s|
  {
    if s == "" then []
    else if IsWordChar(s[0]) then [s[..WordLength(s)]] + WordRuns(s[WordLength(s)..])
    else WordRuns(s[1..])
  }

  predicate ContainsForbiddenKeyword(surfaceUpper: string) { exists w | w in WordRuns(surfaceUpper) :: ForbiddenKeyword(w) }

  /** A keyword is found exactly when it is a whole token of the surface. */
  lemma {:induction false} KeywordIsToken(s: string)
    ensures ContainsForbiddenKeyword(s) <==> exists w | w in Tokens(s) :: ForbiddenKeyword(w)
    decreases |s|
  {
    hide ForbiddenKeyword;
    if s != "" {
      if IsWordChar(s[0]) {
        var n := WordLength(s);
        KeywordIsToken(s[n..]);
        assert WordRuns(s) == [s[..n]] + WordRuns(s[n..]);
        assert Tokens(s) == [s[..n]] + Tokens(s[n..]);
      } else {
        KeywordIsToken(s[1..]);
        assert s[..1] == [s[0]];
        if ForbiddenKeyword([s[0]]) { ForbiddenAreNames([s[0]]); }
      }
    }
  }

  /** Without the digits in front: a name starts at the first letter or underscore of its run. */
  function Name(t: string): string { if t != "" && IsDigit(t[0]) then Name(t[1..]) else t }

  /** Some forbidden name ends a token and the next token is an opening parenthesis. */
  predicate CallsForbidden(ts: seq<string>) {
    exists k | 0 <= k < |ts| - 1 :: ForbiddenFunction(Name(ts[k])) && ts[k + 1] == "("
  }

  lemma CallsForbiddenCons(t: string, ts: seq<string>)
    ensures CallsForbidden([t] + ts) <==>
            (ForbiddenFunction(Name(t)) && ts != [] && ts[0] == "(") || CallsForbidden(ts)
  {
    hide ForbiddenFunction;
    var all := [t] + ts;
    if k :| 0 <= k < |all| - 1 && ForbiddenFunction(Name(all[k])) && all[k + 1] == "(" {
      if k > 0 { assert ts[k - 1] == all[k] && ts[k - 1 + 1] == all[k + 1]; }
    }
    if k :| 0 <= k < |ts| - 1 && ForbiddenFunction(Name(ts[k])) && ts[k + 1] == "(" {
      assert all[k + 1] == ts[k] && all[k + 1 + 1] == ts[k + 1];
    }
    if ForbiddenFunction(Name(t)) && ts != [] && ts[0] == "(" {
      assert all[0] == t && all[0 + 1] == ts[0];
    }
  }

  function ParenthesisNext(s: string): bool {
    s != "" && (s[0] == '(' || (IsAsciiSpace(s[0]) && ParenthesisNext(s[1..])))
  }

  lemma {:induction false} ParenthesisIsToken(s: string)
    ensures ParenthesisNext(s) <==> Tokens(s) != [] && Tokens(s)[0] == "("
  {
    if s != "" && IsAsciiSpace(s[0]) {
      ParenthesisIsToken(s[1..]);
    } else if s != "" && IsWordChar(s[0]) {
      assert Tokens(s)[0][0] == s[0];
    }
  }

  /** The verdict of the source's loop on what is left of the surface. */
  function CallAhead(s: string): bool
    decreases |s|
  {
    if s == "" then false
    else if IsNameStart(s[0]) then
      var n := WordLength(s);
      (ForbiddenFunction(s[..n]) && ParenthesisNext(s[n..])) || CallAhead(s[n..])
    else CallAhead(s[1..])
  }

  lemma {:induction false} CallIsTokenPair(s: string)
    ensures CallAhead(s) <==> CallsForbidden(Tokens(s))
    decreases |s|
  {
    hide ForbiddenFunction, CallsForbidden;
    if s == "" {
      CallsNothing();
    } else if IsAsciiSpace(s[0]) {
      CallIsTokenPair(s[1..]);
    } else if IsNameStart(s[0]) {
      var n := WordLength(s);
      CallIsTokenPair(s[n..]);
      ParenthesisIsToken(s[n..]);
      CallsForbiddenCons(s[..n], Tokens(s[n..]));
    } else if IsDigit(s[0]) {
      var n := WordLength(s);
      CallIsTokenPair(s[1..]);
      CallsForbiddenCons(s[..n], Tokens(s[n..]));
      assert Name(s[..n]) == Name(s[..n][1..]) && s[..n][1..] == s[1..][..n - 1];
      if n > 1 {
        CallsForbiddenCons(s[1..][..n - 1], Tokens(s[n..]));
      } else if ForbiddenFunction("") {
        ForbiddenAreNames("");
      }
    } else {
      CallIsTokenPair(s[1..]);
      assert s[..1] == [s[0]];
      CallsForbiddenCons([s[0]], Tokens(s[1..]));
      if ForbiddenFunction([s[0]]) { ForbiddenAreNames([s[0]]); }
    }
  }

  lemma CallsNothing()
    ensures !CallsForbidden([])
  {}

  lemma CallHere(s: string, i: nat)
    requires i < |s|
    ensures var n := WordLength(s[i..]);
            CallAhead(s[i..]) ==
            if IsNameStart(s[i])
            then (ForbiddenFunction(s[i..i + n]) && ParenthesisNext(s[i + n..])) || CallAhead(s[i + n..])
            else CallAhead(s[i + 1..])
  {
    hide ForbiddenFunction, ParenthesisNext;
    var t, n := s[i..], WordLength(s[i..]);
    assert t[..n] == s[i..i + n] && t[n..] == s[i + n..] && t[1..] == s[i + 1..];
  }

  lemma ParenthesisAt(s: string, i: nat)
    requires i <= |s|
    ensures ParenthesisNext(s[i..]) ==
            (i < |s| && (s[i] == '(' || (IsAsciiSpace(s[i]) && ParenthesisNext(s[i + 1..]))))
  {
    if i < |s| { assert s[i..][1..] == s[i + 1..]; }
  }

  lemma CallNowhere()
    ensures !CallAhead("")
  {}

  method ContainsForbiddenFunctionCall(surfaceUpper: string) returns (found: bool)
    ensures found == CallAhead(surfaceUpper)
    ensures found <==> CallsForbidden(Tokens(surfaceUpper))
  {
    hide ForbiddenFunction, CallsForbidden, Tokens, CallAhead, ParenthesisNext;
    CallIsTokenPair(surfaceUpper);
    var i := 0;
    assert surfaceUpper[0..] == surfaceUpper;
    while i < |surfaceUpper|
      invariant 0 <= i <= |surfaceUpper|
      invariant CallAhead(surfaceUpper) == CallAhead(surfaceUpper[i..])
    {
      CallHere(surfaceUpper, i);
      if IsNameStart(surfaceUpper[i]) {
        var start := i;
        i := i + 1;
        while i < |surfaceUpper| && IsWordChar(surfaceUpper[i])
          invariant start < i <= |surfaceUpper|
          invariant forall k | start <= k < i :: IsWordChar(surfaceUpper[k])
        {
          i := i + 1;
        }
        WordLengthIs(surfaceUpper[start..], i - start);
        var token := surfaceUpper[start..i];
        var lookahead := i;
        while lookahead < |surfaceUpper| && IsAsciiSpace(surfaceUpper[lookahead])
          invariant i <= lookahead <= |surfaceUpper|
          invariant ParenthesisNext(surfaceUpper[i..]) == ParenthesisNext(surfaceUpper[lookahead..])
        {
          ParenthesisAt(surfaceUpper, lookahead);
          lookahead := lookahead + 1;
        }
        ParenthesisAt(surfaceUpper, lookahead);
        if lookahead < |surfaceUpper| && surfaceUpper[lookahead] == '(' && ForbiddenFunction(token) {
          return true;
        }
      } else {
        i := i + 1;
      }
    }
    CallNowhere();
    return false;
  }

  // ---------- the whole policy check ----------

  datatype Code = NotReadOnlyPrefix | OtherPolicyCode(code: nat) | ClassifierUnavailable | SqlTooLarge
                | UnterminatedToken | DuckDbForbiddenKeyword | DuckDbForbiddenFunction

  /** What the external policy authority answered for this statement. */
  datatype Decision = Allow | Deny(code: Code)

  function UpperAll(s: string): string { seq(|s|, i requires 0 <= i < |s| => Upper(s[i])) }

  predicate HasAllowedPrefix(upper: string) { exists p | p in DUCKDB_ALLOWED_PREFIXES :: p <= upper }

  /** The part of the check that looks at the trimmed surface in upper case. */
  function Verdict(upper: string, decision: Decision): Result<(), Code> {
    if decision.Deny? && !(decision.code.NotReadOnlyPrefix? && HasAllowedPrefix(upper)) then Err(decision.code)
    else if ContainsForbiddenKeyword(upper) then Err(DuckDbForbiddenKeyword)
    else if CallAhead(upper) then Err(DuckDbForbiddenFunction)
    else Ok(())
  }

  function ValidateScratchpadSql(sql: string, maxSqlBytes: nat, decision: Decision): Result<(), Code> {
    if maxSqlBytes == 0 then Err(ClassifierUnavailable)
    else if |sql| > maxSqlBytes then Err(SqlTooLarge)
    else match Surface(sql)
      case None => Err(UnterminatedToken)
      case Some(lexical) => Verdict(UpperAll(Trim(lexical)), decision)
  }

  function UpperEach(ts: seq<string>): seq<string> {
    seq(|ts|, k requires 0 <= k < |ts| => UpperAll(ts[k]))
  }

  lemma {:induction false} TokensOfUpper(s: string)
    ensures Tokens(UpperAll(s)) == UpperEach(Tokens(s))
    decreases |s|
  {
    hide Tokens;
    var u := UpperAll(s);
    FirstToken(s);
    FirstToken(u);
    if s == "" {
      assert u == "";
    } else if IsAsciiSpace(s[0]) {
      assert u[1..] == UpperAll(s[1..]);
      TokensOfUpper(s[1..]);
    } else {
      var n := TokenLength(s);
      if IsWordChar(s[0]) { WordLengthIs(u, n); }
      UpperToken(s, n);
      TokensOfUpper(s[n..]);
    }
  }

  lemma UpperToken(s: string, n: nat)
    requires 0 < n <= |s|
    ensures UpperAll(s)[n..] == UpperAll(s[n..])
    ensures UpperEach([s[..n]] + Tokens(s[n..])) == [UpperAll(s)[..n]] + UpperEach(Tokens(s[n..]))
  {
    hide Tokens;
    assert UpperAll(s[..n]) == UpperAll(s)[..n];
  }

  lemma {:induction false} TokensOfTrimStart(s: string)
    requires forall c | c in s :: IsPlain(c)
    ensures Tokens(TrimStart(s)) == Tokens(s)
    ensures TrimStart(s) <= s || forall c | c in TrimStart(s) :: c in s
    ensures TrimStart(s) != "" ==> !IsSpace(TrimStart(s)[0])
    ensures forall c | c in TrimStart(s) :: IsPlain(c)
  {
    if s != "" && IsSpace(s[0]) {
      assert s[0] in s;
      assert forall c | c in s[1..] :: c in s;
      TokensOfTrimStart(s[1..]);
    }
  }

  lemma {:induction false} TokensOfTrimEnd(s: string)
    requires forall c | c in s :: IsPlain(c)
    ensures Tokens(TrimEnd(s)) == Tokens(s) && TrimEnd(s) <= s
  {
    hide Tokens;
    if s != "" && IsSpace(s[|s| - 1]) {
      var n := |s| - 1;
      assert s[n] in s && forall c | c in s[..n] :: c in s;
      TokensOfTrimEnd(s[..n]);
      TokensBeforeBlank(s[..n], s[n]);
      assert s == s[..n] + [s[n]];
    }
  }

  lemma TokensBeforeBlank(s: string, c: char)
    requires IsAsciiSpace(c)
    ensures Tokens(s + [c]) == Tokens(s)
  {
    TokensApart(s, [c], "");
    assert s + ([c] + "") == s + [c] && Tokens("") == [];
  }

  lemma TokensOfTrim(s: string)
    requires forall c | c in s :: IsPlain(c)
    ensures Tokens(Trim(s)) == Tokens(s)
    ensures Trim(s) != "" ==> !IsSpace(Trim(s)[0])
  {
    TokensOfTrimStart(s);
    TokensOfTrimEnd(TrimStart(s));
  }

  lemma PrefixIsToken(s: string, p: string)
    requires s != "" ==> !IsAsciiSpace(s[0])
    requires p != "" && forall c | c in p :: IsWordChar(c)
    ensures p <= s <==> Tokens(s) != [] && p <= Tokens(s)[0]
  {
    assert p[0] in p;
    if s != "" && IsWordChar(s[0]) {
      var n := WordLength(s);
      assert Tokens(s)[0] == s[..n];
      if n < |p| {
        assert p[n] in p && (n < |s| ==> s[n] != p[n]);
      } else {
        assert s[..n][..|p|] == s[..|p|];
      }
    }
  }

  lemma PrefixFollows(upper: string)
    requires upper != "" ==> !IsAsciiSpace(upper[0])
    ensures var ts := Tokens(upper);
            HasAllowedPrefix(upper) <==> ts != [] && ("DESCRIBE" <= ts[0] || "SUMMARIZE" <= ts[0])
  {
    hide Tokens;
    PrefixIsToken(upper, "DESCRIBE");
    PrefixIsToken(upper, "SUMMARIZE");
    assert "DESCRIBE" in DUCKDB_ALLOWED_PREFIXES && "SUMMARIZE" in DUCKDB_ALLOWED_PREFIXES;
    assert forall p | p in DUCKDB_ALLOWED_PREFIXES :: p == "DESCRIBE" || p == "SUMMARIZE";
    assert HasAllowedPrefix(upper) <==> "DESCRIBE" <= upper || "SUMMARIZE" <= upper;
  }

  lemma VerdictFollows(u: string, v: string, decision: Decision)
    requires (u != "" ==> !IsAsciiSpace(u[0])) && (v != "" ==> !IsAsciiSpace(v[0]))
    requires Tokens(u) == Tokens(v)
    ensures Verdict(u, decision) == Verdict(v, decision)
  {
    hide Tokens, CallAhead, ContainsForbiddenKeyword, HasAllowedPrefix, CallsForbidden, ForbiddenKeyword;
    assert HasAllowedPrefix(u) == HasAllowedPrefix(v) by { PrefixFollows(u); PrefixFollows(v); }
    assert ContainsForbiddenKeyword(u) == ContainsForbiddenKeyword(v) by { KeywordIsToken(u); KeywordIsToken(v); }
    assert CallAhead(u) == CallAhead(v) by { CallIsTokenPair(u); CallIsTokenPair(v); }
  }

  /** Two statements whose surfaces have the same tokens, both within the size limit, get the same verdict. */
  lemma SameTokensSameVerdict(s: string, t: string, maxSqlBytes: nat, decision: Decision)
    requires |s| <= maxSqlBytes && |t| <= maxSqlBytes
    requires Surface(s).Some? && Surface(t).Some? && Tokens(Surface(s).value) == Tokens(Surface(t).value)
    ensures ValidateScratchpadSql(s, maxSqlBytes, decision) == ValidateScratchpadSql(t, maxSqlBytes, decision)
  {
    hide Tokens, Verdict;
    var a, b := Surface(s).value, Surface(t).value;
    ScanAligned(Normal, s);
    ScanAligned(Normal, t);
    TokensOfTrim(a);
    TokensOfTrim(b);
    TokensOfUpper(Trim(a));
    TokensOfUpper(Trim(b));
    VerdictFollows(UpperAll(Trim(a)), UpperAll(Trim(b)), decision);
  }

  // ---------- the answer ----------

  /** `t` spells the upper-case word `w`, letter by letter, each letter in either case. */
  predicate Reads(t: string, w: string) {
    |t| == |w| && forall i | 0 <= i < |w| :: t[i] == w[i] || ('A' <= w[i] <= 'Z' && t[i] as int == w[i] as int + 32)
  }

  predicate Begins(t: string, w: string) { |w| <= |t| && Reads(t[..|w|], w) }

  predicate ReadsKeyword(t: string) {
    || Reads(t, "INSTALL") || Reads(t, "LOAD") || Reads(t, "ATTACH") || Reads(t, "DETACH") || Reads(t, "EXPORT")
    || Reads(t, "IMPORT")
  }

  predicate ReadsFunction(t: string) {
    || Reads(t, "READ_CSV") || Reads(t, "READ_CSV_AUTO") || Reads(t, "READ_PARQUET") || Reads(t, "READ_JSON")
    || Reads(t, "READ_JSON_AUTO") || Reads(t, "READ_NDJSON") || Reads(t, "READ_BLOB") || Reads(t, "READ_TEXT")
    || Reads(t, "READ_XLSX") || Reads(t, "CSV_SCAN") || Reads(t, "PARQUET_SCAN") || Reads(t, "JSON_SCAN")
    || Reads(t, "POSTGRES_SCAN") || Reads(t, "MYSQL_SCAN") || Reads(t, "SQLITE_SCAN")
  }

  /** Some digits, perhaps none, and then a forbidden name. */
  ghost predicate EndsInFunction(t: string) {
    exists k | 0 <= k <= |t| :: (forall i | 0 <= i < k :: IsDigit(t[i])) && ReadsFunction(t[k..])
  }

  predicate NoLowerCase(w: string) { forall i | 0 <= i < |w| :: !('a' <= w[i] <= 'z') }

  lemma UpperReads(t: string, w: string)
    requires NoLowerCase(w)
    ensures UpperAll(t) == w <==> Reads(t, w)
  {
    if UpperAll(t) == w {
      assert |t| == |w|;
      forall i | 0 <= i < |w| ensures t[i] == w[i] || ('A' <= w[i] <= 'Z' && t[i] as int == w[i] as int + 32) {
        assert UpperAll(t)[i] == Upper(t[i]);
      }
    }
  }

  lemma UpperBegins(t: string, w: string)
    requires NoLowerCase(w)
    ensures w <= UpperAll(t) <==> Begins(t, w)
  {
    if |w| <= |t| {
      UpperReads(t[..|w|], w);
      assert UpperAll(t)[..|w|] == UpperAll(t[..|w|]);
    }
  }

  lemma KeywordsReadIff(t: string)
    ensures ForbiddenKeyword(UpperAll(t)) <==> ReadsKeyword(t)
  {
    hide UpperAll, Reads;
    UpperReads(t, "INSTALL");
    UpperReads(t, "LOAD");
    UpperReads(t, "ATTACH");
    UpperReads(t, "DETACH");
    UpperReads(t, "EXPORT");
    UpperReads(t, "IMPORT");
  }

  lemma FunctionsListed(w: string)
    ensures ForbiddenFunction(w) <==>
            || w == "READ_CSV" || w == "READ_CSV_AUTO" || w == "READ_PARQUET" || w == "READ_JSON" || w == "READ_JSON_AUTO"
            || w == "READ_NDJSON" || w == "READ_BLOB" || w == "READ_TEXT" || w == "READ_XLSX" || w == "CSV_SCAN"
            || w == "PARQUET_SCAN" || w == "JSON_SCAN" || w == "POSTGRES_SCAN" || w == "MYSQL_SCAN" || w == "SQLITE_SCAN"
  {}

  lemma ReadersReadIff(t: string)
    ensures UpperAll(t) == "READ_CSV" <==> Reads(t, "READ_CSV")
    ensures UpperAll(t) == "READ_CSV_AUTO" <==> Reads(t, "READ_CSV_AUTO")
    ensures UpperAll(t) == "READ_PARQUET" <==> Reads(t, "READ_PARQUET")
    ensures UpperAll(t) == "READ_JSON" <==> Reads(t, "READ_JSON")
    ensures UpperAll(t) == "READ_JSON_AUTO" <==> Reads(t, "READ_JSON_AUTO")
  {
    hide UpperAll, Reads;
    UpperReads(t, "READ_CSV");
    UpperReads(t, "READ_CSV_AUTO");
    UpperReads(t, "READ_PARQUET");
    UpperReads(t, "READ_JSON");
    UpperReads(t, "READ_JSON_AUTO");
  }

  lemma MoreReadersReadIff(t: string)
    ensures UpperAll(t) == "READ_NDJSON" <==> Reads(t, "READ_NDJSON")
    ensures UpperAll(t) == "READ_BLOB" <==> Reads(t, "READ_BLOB")
    ensures UpperAll(t) == "READ_TEXT" <==> Reads(t, "READ_TEXT")
    ensures UpperAll(t) == "READ_XLSX" <==> Reads(t, "READ_XLSX")
  {
    hide UpperAll, Reads;
    UpperReads(t, "READ_NDJSON");
    UpperReads(t, "READ_BLOB");
    UpperReads(t, "READ_TEXT");
    UpperReads(t, "READ_XLSX");
  }

  lemma ScannersReadIff(t: string)
    ensures UpperAll(t) == "CSV_SCAN" <==> Reads(t, "CSV_SCAN")
    ensures UpperAll(t) == "PARQUET_SCAN" <==> Reads(t, "PARQUET_SCAN")
    ensures UpperAll(t) == "JSON_SCAN" <==> Reads(t, "JSON_SCAN")
    ensures UpperAll(t) == "POSTGRES_SCAN" <==> Reads(t, "POSTGRES_SCAN")
    ensures UpperAll(t) == "MYSQL_SCAN" <==> Reads(t, "MYSQL_SCAN")
    ensures UpperAll(t) == "SQLITE_SCAN" <==> Reads(t, "SQLITE_SCAN")
  {
    hide UpperAll, Reads;
    UpperReads(t, "CSV_SCAN");
    UpperReads(t, "PARQUET_SCAN");
    UpperReads(t, "JSON_SCAN");
    UpperReads(t, "POSTGRES_SCAN");
    UpperReads(t, "MYSQL_SCAN");
    UpperReads(t, "SQLITE_SCAN");
  }

  lemma FunctionsReadIff(t: string)
    ensures ForbiddenFunction(UpperAll(t)) <==> ReadsFunction(t)
  {
    hide UpperAll, Reads, ForbiddenFunction;
    FunctionsListed(UpperAll(t));
    ReadersReadIff(t);
    MoreReadersReadIff(t);
    ScannersReadIff(t);
  }

  lemma FunctionIsName(t: string)
    requires ReadsFunction(t)
    ensures t != "" && !IsDigit(t[0])
  {}

  lemma {:induction false} NameReadIff(t: string)
    ensures ForbiddenFunction(Name(UpperAll(t))) <==> EndsInFunction(t)
  {
    hide ForbiddenFunction, ReadsFunction;
    if t != "" && IsDigit(t[0]) {
      NameReadIff(t[1..]);
      assert UpperAll(t)[1..] == UpperAll(t[1..]) && UpperAll(t)[0] == t[0];
      if k :| 0 <= k <= |t| && (forall i | 0 <= i < k :: IsDigit(t[i])) && ReadsFunction(t[k..]) {
        if k == 0 { FunctionIsName(t[k..]); }
        assert t[1..][k - 1..] == t[k..];
      }
      if k :| 0 <= k <= |t[1..]| && (forall i | 0 <= i < k :: IsDigit(t[1..][i])) && ReadsFunction(t[1..][k..]) {
        assert t[1..][k..] == t[k + 1..];
        assert t == [t[0]] + t[1..];
        assert forall i | 0 <= i < k + 1 :: IsDigit(t[i]);
      }
    } else {
      assert t != "" ==> UpperAll(t)[0] == Upper(t[0]);
      FunctionsReadIff(t);
      assert t[0..] == t;
      if k :| 0 <= k <= |t| && (forall i | 0 <= i < k :: IsDigit(t[i])) && ReadsFunction(t[k..]) {
        assert t == "" || !IsDigit(t[0]);
      }
    }
  }

  ghost predicate HasKeyword(ts: seq<string>) { exists k | 0 <= k < |ts| :: ReadsKeyword(ts[k]) }

  ghost predicate HasCall(ts: seq<string>) { exists k | 0 <= k < |ts| - 1 :: EndsInFunction(ts[k]) && ts[k + 1] == "(" }

  predicate HasDuckDbPrefix(ts: seq<string>) { ts != [] && (Begins(ts[0], "DESCRIBE") || Begins(ts[0], "SUMMARIZE")) }

  lemma KeywordsIff(upper: string, ts: seq<string>)
    requires Tokens(upper) == UpperEach(ts)
    ensures ContainsForbiddenKeyword(upper) <==> HasKeyword(ts)
  {
    hide Tokens, ForbiddenKeyword, ReadsKeyword, UpperAll;
    KeywordIsToken(upper);
    var us := Tokens(upper);
    forall k | 0 <= k < |ts| ensures ForbiddenKeyword(us[k]) <==> ReadsKeyword(ts[k]) { KeywordsReadIff(ts[k]); }
    if HasKeyword(ts) {
      var k :| 0 <= k < |ts| && ReadsKeyword(ts[k]);
      assert us[k] in us;
    }
  }

  lemma CallsIff(upper: string, ts: seq<string>)
    requires Tokens(upper) == UpperEach(ts)
    ensures CallAhead(upper) <==> HasCall(ts)
  {
    hide Tokens, ForbiddenFunction, EndsInFunction, CallAhead, Name, UpperAll;
    CallIsTokenPair(upper);
    var us := Tokens(upper);
    forall k | 0 <= k < |ts| ensures ForbiddenFunction(Name(us[k])) <==> EndsInFunction(ts[k]) { NameReadIff(ts[k]); }
    forall k | 0 <= k < |ts| ensures us[k] == "(" <==> ts[k] == "(" { ParenthesisReads(ts[k]); }
    if HasCall(ts) {
      var k :| 0 <= k < |ts| - 1 && EndsInFunction(ts[k]) && ts[k + 1] == "(";
      assert us[k + 1] == "(";
    }
    if CallsForbidden(us) {
      var k :| 0 <= k < |us| - 1 && ForbiddenFunction(Name(us[k])) && us[k + 1] == "(";
      assert ts[k + 1] == "(";
    }
  }

  lemma ParenthesisReads(t: string)
    ensures UpperAll(t) == "(" <==> t == "("
  {
    UpperReads(t, "(");
  }

  lemma PrefixesIff(upper: string, ts: seq<string>)
    requires Tokens(upper) == UpperEach(ts) && (upper != "" ==> !IsAsciiSpace(upper[0]))
    ensures HasAllowedPrefix(upper) <==> HasDuckDbPrefix(ts)
  {
    hide Tokens, UpperAll, Begins;
    PrefixFollows(upper);
    if ts != [] {
      UpperBegins(ts[0], "DESCRIBE");
      UpperBegins(ts[0], "SUMMARIZE");
    }
  }

  /** The whole answer, read off the statement: the sizes, the surface, the policy authority's decision, which only a
      statement that begins with one of DuckDB's own two verbs may overrule, and then the tokens of the surface, in
      any case: a keyword, or a function's name before an opening parenthesis. */
  lemma ValidateIsExact(sql: string, maxSqlBytes: nat, decision: Decision)
    ensures Surface(sql).Some? <==> exists segs :: Splits(segs, sql)
    ensures ValidateScratchpadSql(sql, maxSqlBytes, decision) ==
            if maxSqlBytes == 0 then Err(ClassifierUnavailable)
            else if |sql| > maxSqlBytes then Err(SqlTooLarge)
            else if Surface(sql).None? then Err(UnterminatedToken)
            else
              var ts := Tokens(Surface(sql).value);
              if decision.Deny? && !(decision.code.NotReadOnlyPrefix? && HasDuckDbPrefix(ts)) then Err(decision.code)
              else if HasKeyword(ts) then Err(DuckDbForbiddenKeyword)
              else if HasCall(ts) then Err(DuckDbForbiddenFunction)
              else Ok(())
  {
    hide Tokens, HasKeyword, HasCall, HasDuckDbPrefix, HasAllowedPrefix, CallAhead, ContainsForbiddenKeyword, Scan;
    SurfaceRefinesGrammar(sql);
    if Surface(sql).Some? {
      var lexical := Surface(sql).value;
      ScanAligned(Normal, sql);
      TokensOfTrim(lexical);
      TokensOfUpper(Trim(lexical));
      var upper := UpperAll(Trim(lexical));
      UpperStart(Trim(lexical));
      PrefixesIff(upper, Tokens(lexical));
      KeywordsIff(upper, Tokens(lexical));
      CallsIff(upper, Tokens(lexical));
    }
  }

  lemma UpperStart(t: string)
    requires t != "" ==> !IsSpace(t[0])
    ensures UpperAll(t) != "" ==> !IsAsciiSpace(UpperAll(t)[0])
  {
    assert t != "" ==> UpperAll(t)[0] == Upper(t[0]);
  }

  // ---------- templates ----------

  /** A place in a template for a quoted text: a literal (`'`) or an identifier (`"`). */
  datatype Hole = Hole(q: char, content: string)

  function Fill(pieces: seq<string>, holes: seq<Hole>): string
    requires |pieces| == |holes| + 1
    decreases |holes|
  {
    if holes == [] then pieces[0]
    else pieces[0] + (QuoteText(holes[0].q, holes[0].content) + Fill(pieces[1..], holes[1..]))
  }

  /** Every fixed piece before a hole ends outside quotes and comments, and no piece touches a hole
      with a quote of its own or leaves two holes side by side. */
  predicate TemplateOk(pieces: seq<string>) {
    && pieces != []
    && Surface(pieces[0]).Some?
    && (|pieces| > 1 ==>
        && EndState(Normal, pieces[0]).Normal?
        && (pieces[0] != "" ==> !IsQuote(pieces[0][|pieces[0]| - 1]))
        && (if pieces[1] == "" then |pieces| == 2 else !IsQuote(pieces[1][0]))
        && TemplateOk(pieces[1..]))
  }

  function TemplateTokens(pieces: seq<string>): seq<string>
    requires TemplateOk(pieces)
  {
    Tokens(Surface(pieces[0]).value) + if |pieces| == 1 then [] else TemplateTokens(pieces[1..])
  }

  /** The tokens of a filled template are those of its fixed pieces: nothing of the contents shows. */
  lemma {:induction false} FilledTokens(pieces: seq<string>, holes: seq<Hole>)
    requires TemplateOk(pieces) && |pieces| == |holes| + 1 && forall h | h in holes :: IsQuote(h.q)
    ensures Surface(Fill(pieces, holes)).Some?
    ensures Tokens(Surface(Fill(pieces, holes)).value) == TemplateTokens(pieces)
    decreases |holes|
  {
    hide Scan, Tokens, EndState;
    if holes != [] {
      var p, h, rest := pieces[0], holes[0], Fill(pieces[1..], holes[1..]);
      assert h in holes;
      FilledTokens(pieces[1..], holes[1..]);
      assert rest != "" ==> pieces[1] != "" && rest[0] == pieces[1][0];
      var text := QuoteText(h.q, h.content);
      QuotedStep(h.q, h.content, rest);
      assert (text + rest)[0] == h.q;
      ScanAppend(Normal, p, text + rest);
      HiddenBlank(text);
      TokensApart(Surface(p).value, Hidden(text), Surface(rest).value);
    }
  }

  /** Whatever literals and identifiers are filled in, the policy verdict on the statement is the same. */
  lemma FilledVerdict(pieces: seq<string>, some: seq<Hole>, other: seq<Hole>, maxSqlBytes: nat, decision: Decision)
    requires TemplateOk(pieces) && |pieces| == |some| + 1 == |other| + 1
    requires (forall h | h in some :: IsQuote(h.q)) && forall h | h in other :: IsQuote(h.q)
    requires |Fill(pieces, some)| <= maxSqlBytes && |Fill(pieces, other)| <= maxSqlBytes
    ensures ValidateScratchpadSql(Fill(pieces, some), maxSqlBytes, decision)
         == ValidateScratchpadSql(Fill(pieces, other), maxSqlBytes, decision)
  {
    FilledTokens(pieces, some);
    FilledTokens(pieces, other);
    SameTokensSameVerdict(Fill(pieces, some), Fill(pieces, other), maxSqlBytes, decision);
  }
}
