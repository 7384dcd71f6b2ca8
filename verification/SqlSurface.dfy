/** The lexical surface of a SQL text (src/sql_safety.rs): a scanner that blanks out quoted text
    and comments, and the segment grammar it refines. A byte is the character with its code. */
module SqlSurface {
  import opened Basics

  // ---------- masks and dollar tags ----------

  function MaskByte(c: char): char {
    if c == '\n' || c == '\r' || c == '\t' || ' ' <= c <= '~' then c else ' '
  }

  function MaskHiddenByte(c: char): char {
    if c == '\n' || c == '\r' || c == '\t' then c else ' '
  }

  function Hidden(s: string): (t: string)
    ensures |t| == |s|
  {
    seq(|s|, i requires 0 <= i < |s| => MaskHiddenByte(s[i]))
  }

  function Spaces(n: nat): (t: string)
    ensures |t| == n
  {
    seq(n, _ => ' ')
  }

  /** A dollar tag: `$`, a possibly empty word, `$`. */
  predicate IsTag(t: string) {
    |t| >= 2 && t[0] == '$' && t[|t| - 1] == '$' && forall i | 1 <= i < |t| - 1 :: IsWordChar(t[i])
  }

  /** Length of the tag that `s` starts with, looking from position `j` on. */
  function TagEnd(s: string, j: nat): Option<nat>
    decreases |s| - j
  {
    if j >= |s| then None
    else if s[j] == '$' then Some(j + 1)
    else if !IsWordChar(s[j]) then None
    else TagEnd(s, j + 1)
  }

  function TagLength(s: string): Option<nat> {
    if s == "" || s[0] != '$' then None else TagEnd(s, 1)
  }

  lemma {:induction false} TagEndIff(s: string, j: nat, n: nat)
    requires 1 <= j <= |s|
    ensures TagEnd(s, j) == Some(n) <==>
            j < n <= |s| && s[n - 1] == '$' && forall i | j <= i < n - 1 :: IsWordChar(s[i])
    decreases |s| - j
  {
    if j < |s| && s[j] != '$' && IsWordChar(s[j]) {
      TagEndIff(s, j + 1, n);
    }
  }

  lemma TagLengthIff(s: string, n: nat)
    ensures TagLength(s) == Some(n) <==> n <= |s| && IsTag(s[..n])
  {
    if s != "" && s[0] == '$' {
      TagEndIff(s, 1, n);
      if n <= |s| {
        assert forall i | 0 <= i < n :: s[..n][i] == s[i];
      }
    } else if 0 < n <= |s| {
      assert s[..n][0] == s[0];
    }
  }

  method ParseDollarTag(input: string) returns (r: Option<nat>)
    ensures r == TagLength(input)
    ensures forall n: nat :: r == Some(n) <==> n <= |input| && IsTag(input[..n])
  {
    forall n: nat ensures TagLength(input) == Some(n) <==> n <= |input| && IsTag(input[..n]) {
      TagLengthIff(input, n);
    }
    if input == "" || input[0] != '$' {
      return None;
    }
    var j := 1;
    while j < |input|
      invariant 1 <= j <= |input|
      invariant TagLength(input) == TagEnd(input, j)
    {
      if input[j] == '$' {
        return Some(j + 1);
      }
      if !IsWordChar(input[j]) {
        return None;
      }
      j := j + 1;
    }
    return None;
  }

  // ---------- the scanner as a function of the remaining text ----------

  datatype State = Normal | Quoted(q: char) | LineComment | BlockComment(depth: nat) | DollarQuoted(tag: string)

  predicate Starts(s: string, a: char, b: char) { |s| >= 2 && s[0] == a && s[1] == b }

  predicate IsQuote(c: char) { c == '\'' || c == '"' }

  function Emit(prefix: string, r: Option<string>): Option<string> {
    match r case None => None case Some(t) => Some(prefix + t)
  }

  /** One turn of the scanner: consume `n` bytes, append `out`, go on in `next`. */
  datatype Move = Move(n: nat, out: string, next: State)

  function Step(st: State, s: string): (m: Move)
    requires s != ""
    ensures 0 < m.n <= |s| && |m.out| == m.n
  {
    match st
    case DollarQuoted(tag) =>
      if tag != "" && tag <= s then Move(|tag|, Spaces(|tag|), Normal)
      else Move(1, [MaskHiddenByte(s[0])], st)
    case Normal =>
      if Starts(s, '-', '-') then Move(2, "  ", LineComment)
      else if Starts(s, '/', '*') then Move(2, "  ", BlockComment(1))
      else if IsQuote(s[0]) then Move(1, " ", Quoted(s[0]))
      else (match TagLength(s)
            case Some(n) =>
              TagLengthIff(s, n);
              Move(n, Spaces(n), DollarQuoted(s[..n]))
            case None => Move(1, [MaskByte(s[0])], Normal))
    case Quoted(q) =>
      if s[0] != q then Move(1, [MaskHiddenByte(s[0])], st)
      else if |s| > 1 && s[1] == q then Move(2, "  ", st)
      else Move(1, " ", Normal)
    case LineComment =>
      if s[0] == '\n' then Move(1, "\n", Normal) else Move(1, " ", LineComment)
    case BlockComment(depth) =>
      if Starts(s, '/', '*') then Move(2, "  ", BlockComment(depth + 1))
      else if Starts(s, '*', '/') then Move(2, "  ", After(depth))
      else Move(1, [MaskHiddenByte(s[0])], st)
  }

  /** The state after one closing mark at nesting `depth`. */
  function After(depth: nat): State { if depth <= 1 then Normal else BlockComment(depth - 1) }

  /** What the scanner appends from state `st` on the rest `s`; None is the unterminated-token error. */
  function Scan(st: State, s: string): Option<string>
    decreases |s|
  {
    if s == "" then
      if st.Normal? || st.LineComment? then Some("") else None
    else
      var m := Step(st, s);
      Emit(m.out, Scan(m.next, s[m.n..]))
  }

  lemma Unroll(st: State, s: string)
    requires s != ""
    ensures Scan(st, s) == Emit(Step(st, s).out, Scan(Step(st, s).next, s[Step(st, s).n..]))
  {}

  function Surface(sql: string): Option<string> { Scan(Normal, sql) }

  // ---------- the declarative grammar ----------

  // What follows an opening slash-star: a close, a character, or a nested comment, then the rest.
  datatype Comment = Close | Char(c: char, rest: Comment) | Nest(inner: Comment, rest: Comment)

  datatype Segment =
    | Visible(c: char)
    | QuotedText(q: char, content: string)
    | Line(body: string, closed: bool)
    | Block(comment: Comment)
    | DollarText(tag: string, body: string)

  function CommentText(c: Comment): string {
    match c
    case Close => "*/"
    case Char(b, rest) => [b] + CommentText(rest)
    case Nest(inner, rest) => "/*" + (CommentText(inner) + CommentText(rest))
  }

  predicate CommentOk(c: Comment) {
    match c
    case Close => true
    case Char(b, rest) =>
      var t := [b] + CommentText(rest);
      !Starts(t, '/', '*') && !Starts(t, '*', '/') && CommentOk(rest)
    case Nest(inner, rest) => CommentOk(inner) && CommentOk(rest)
  }

  /** `content` with every `q` written twice: the escaping of both quoting helpers in src/tools.rs. */
  function Doubled(q: char, content: string): string {
    if content == "" then ""
    else (if content[0] == q then [q, q] else [content[0]]) + Doubled(q, content[1..])
  }

  function QuoteText(q: char, content: string): string { [q] + Doubled(q, content) + [q] }

  function Text(seg: Segment): string {
    match seg
    case Visible(c) => [c]
    case QuotedText(q, content) => QuoteText(q, content)
    case Line(body, closed) => "--" + body + (if closed then "\n" else "")
    case Block(comment) => "/*" + CommentText(comment)
    case DollarText(tag, body) => tag + body + tag
  }

  function Mask(seg: Segment): string {
    match seg
    case Visible(c) => [MaskByte(c)]
    case Line(body, closed) => Spaces(2 + |body|) + (if closed then "\n" else "")
    case _ => Hidden(Text(seg))
  }

  /** Some token other than a visible byte starts here. */
  predicate Opens(s: string) {
    s != "" && (Starts(s, '-', '-') || Starts(s, '/', '*') || IsQuote(s[0]) || exists n | 2 <= n <= |s| :: IsTag(s[..n]))
  }

  /** The segment is well formed when `rest` is the text that follows it. */
  predicate Fits(seg: Segment, rest: string) {
    match seg
    case Visible(c) => !Opens([c] + rest)
    case QuotedText(q, content) => IsQuote(q) && !([q] <= rest)
    case Line(body, closed) => '\n' !in body && (closed || rest == "")
    case Block(comment) => CommentOk(comment)
    case DollarText(tag, body) => IsTag(tag) && forall k | 0 <= k < |body| :: !(tag <= (body + tag)[k..])
  }

  function TextAll(segs: seq<Segment>): string {
    if segs == [] then "" else Text(segs[0]) + TextAll(segs[1..])
  }

  function MaskAll(segs: seq<Segment>): string {
    if segs == [] then "" else Mask(segs[0]) + MaskAll(segs[1..])
  }

  predicate FitsAll(segs: seq<Segment>) {
    segs == [] || (Fits(segs[0], TextAll(segs[1..])) && FitsAll(segs[1..]))
  }

  ghost predicate Splits(segs: seq<Segment>, sql: string) { FitsAll(segs) && TextAll(segs) == sql }

  // ---------- completeness: a split is scanned to its masks ----------

  lemma OpensIff(s: string)
    requires s != ""
    ensures Opens(s) <==> Starts(s, '-', '-') || Starts(s, '/', '*') || IsQuote(s[0]) || TagLength(s).Some?
  {
    if TagLength(s).Some? {
      TagLengthIff(s, TagLength(s).value);
    } else {
      forall n | 2 <= n <= |s| ensures !IsTag(s[..n]) { TagLengthIff(s, n); }
    }
  }

  lemma HiddenConcat(a: string, b: string)
    ensures Hidden(a + b) == Hidden(a) + Hidden(b)
  {}

  lemma EmitEmit(a: string, b: string, r: Option<string>)
    ensures Emit(a, Emit(b, r)) == Emit(a + b, r)
  {
    if r.Some? { assert a + (b + r.value) == (a + b) + r.value; }
  }

  /** Two steps of the scanner in one: a first piece masked to `m`, then text whose scan is known. */
  lemma EmitHidden(a: string, b: string, r: Option<string>)
    ensures Emit(Hidden(a), Emit(Hidden(b), r)) == Emit(Hidden(a + b), r)
  {
    HiddenConcat(a, b);
    EmitEmit(Hidden(a), Hidden(b), r);
  }

  lemma {:induction false} ScanQuoted(q: char, content: string, rest: string)
    requires IsQuote(q) && !([q] <= rest)
    ensures Scan(Quoted(q), Doubled(q, content) + [q] + rest)
         == Emit(Hidden(Doubled(q, content) + [q]), Scan(Normal, rest))
    decreases |content|
  {
    hide Scan;
    if content == "" {
      var m := Move(1, " ", Normal);
      assert ([q] + rest)[0] == q;
      Turn(Quoted(q), [q], rest, m);
      assert Hidden([q]) == " ";
      assert Doubled(q, content) + [q] == [q];
    } else {
      var head := if content[0] == q then [q, q] else [content[0]];
      var tail := Doubled(q, content[1..]) + [q];
      assert Doubled(q, content) + [q] == head + tail;
      assert Doubled(q, content) + [q] + rest == head + (tail + rest);
      ScanQuoted(q, content[1..], rest);
      var t := head + (tail + rest);
      assert t[0] == head[0] && (|head| == 2 ==> t[1] == q);
      Turn(Quoted(q), head, tail + rest, Move(|head|, Hidden(head), Quoted(q)));
      EmitHidden(head, tail, Scan(Normal, rest));
    }
  }

  lemma ScanEmpty(st: State)
    ensures Scan(st, "") == if st.Normal? || st.LineComment? then Some("") else None
  {}

  lemma {:induction false} ScanLine(body: string, closed: bool, rest: string)
    requires '\n' !in body && (closed || rest == "")
    ensures Scan(LineComment, body + (if closed then "\n" else "") + rest)
         == Emit(Spaces(|body|) + (if closed then "\n" else ""), Scan(Normal, rest))
    decreases |body|
  {
    hide Scan;
    var end := if closed then "\n" else "";
    if body == "" {
      assert Spaces(0) + end == end && body + end + rest == end + rest;
      if closed {
        Turn(LineComment, "\n", rest, Move(1, "\n", Normal));
      } else {
        ScanEmpty(LineComment);
        ScanEmpty(Normal);
      }
    } else {
      var t := body[1..] + end + rest;
      assert body + end + rest == [body[0]] + t;
      assert body[0] in body && '\n' !in body[1..];
      ScanLine(body[1..], closed, rest);
      Turn(LineComment, [body[0]], t, Move(1, " ", LineComment));
      assert " " + (Spaces(|body| - 1) + end) == Spaces(|body|) + end;
      EmitEmit(" ", Spaces(|body| - 1) + end, Scan(Normal, rest));
    }
  }


  lemma CommentChar(b: char, t: string, depth: nat, rest: string, r: Option<string>)
    requires |t| >= 2 && !Starts([b] + t, '/', '*') && !Starts([b] + t, '*', '/')
    requires Scan(BlockComment(depth), t + rest) == Emit(Hidden(t), r)
    ensures Scan(BlockComment(depth), [b] + t + rest) == Emit(Hidden([b] + t), r)
  {
    hide Scan;
    assert [b] + t + rest == [b] + (t + rest);
    assert ([b] + (t + rest))[..2] == ([b] + t)[..2];
    Turn(BlockComment(depth), [b], t + rest, Move(1, [MaskHiddenByte(b)], BlockComment(depth)));
    assert Hidden([b]) == [MaskHiddenByte(b)];
    EmitHidden([b], t, r);
  }

  /** One turn on `a + t`, when the scanner takes exactly `a`. */
  lemma Turn(st: State, a: string, t: string, m: Move)
    requires a != "" && Step(st, a + t) == m && m.n == |a|
    ensures Scan(st, a + t) == Emit(m.out, Scan(m.next, t))
  {
    hide Scan;
    Unroll(st, a + t);
    assert (a + t)[|a|..] == t;
  }

  lemma OpenBlock(t: string)
    ensures Scan(Normal, "/*" + t) == Emit("  ", Scan(BlockComment(1), t))
  {
    hide Scan;
    assert ("/*" + t)[0] == '/';
    Turn(Normal, "/*", t, Move(2, "  ", BlockComment(1)));
  }

  lemma OpenNested(depth: nat, t: string)
    ensures Scan(BlockComment(depth), "/*" + t) == Emit("  ", Scan(BlockComment(depth + 1), t))
  {
    hide Scan;
    Turn(BlockComment(depth), "/*", t, Move(2, "  ", BlockComment(depth + 1)));
  }

  lemma OpenQuote(q: char, t: string)
    requires IsQuote(q)
    ensures Scan(Normal, [q] + t) == Emit(" ", Scan(Quoted(q), t))
  {
    hide Scan;
    assert ([q] + t)[0] == q;
    Turn(Normal, [q], t, Move(1, " ", Quoted(q)));
  }

  lemma OpenTag(tag: string, t: string)
    requires IsTag(tag)
    ensures Scan(Normal, tag + t) == Emit(Spaces(|tag|), Scan(DollarQuoted(tag), t))
  {
    hide Scan;
    assert (tag + t)[..|tag|] == tag && (tag + t)[0] == '$';
    TagLengthIff(tag + t, |tag|);
    Turn(Normal, tag, t, Move(|tag|, Spaces(|tag|), DollarQuoted(tag)));
  }

  lemma Regroup(o: string, a: string, b: string, rest: string)
    ensures o + (a + b) + rest == o + (a + (b + rest))
  {
    assert (a + b) + rest == a + (b + rest);
    assert o + (a + b) + rest == o + ((a + b) + rest);
  }

  lemma EmitNest(t1: string, t2: string, r: Option<string>)
    ensures Emit("  ", Emit(Hidden(t1), Emit(Hidden(t2), r))) == Emit(Hidden("/*" + (t1 + t2)), r)
  {
    assert Hidden("/*") == "  ";
    EmitHidden(t1, t2, r);
    EmitHidden("/*", t1 + t2, r);
  }

  lemma CommentNest(t1: string, t2: string, depth: nat, rest: string, r: Option<string>)
    requires Scan(BlockComment(depth + 1), t1 + (t2 + rest)) == Emit(Hidden(t1), Emit(Hidden(t2), r))
    ensures Scan(BlockComment(depth), "/*" + (t1 + t2) + rest) == Emit(Hidden("/*" + (t1 + t2)), r)
  {
    hide Scan;
    calc {
      Scan(BlockComment(depth), "/*" + (t1 + t2) + rest);
      { Regroup("/*", t1, t2, rest); }
      Scan(BlockComment(depth), "/*" + (t1 + (t2 + rest)));
      { OpenNested(depth, t1 + (t2 + rest)); }
      Emit("  ", Scan(BlockComment(depth + 1), t1 + (t2 + rest)));
      Emit("  ", Emit(Hidden(t1), Emit(Hidden(t2), r)));
      { EmitNest(t1, t2, r); }
      Emit(Hidden("/*" + (t1 + t2)), r);
    }
  }

  lemma {:induction false} ScanComment(c: Comment, depth: nat, rest: string)
    requires CommentOk(c) && depth >= 1
    ensures Scan(BlockComment(depth), CommentText(c) + rest)
         == Emit(Hidden(CommentText(c)), Scan(After(depth), rest))
    decreases c
  {
    hide Scan;
    var r := Scan(After(depth), rest);
    match c
    case Close =>
      Turn(BlockComment(depth), "*/", rest, Move(2, "  ", After(depth)));
      assert Hidden("*/") == "  ";
    case Char(b, tail) =>
      CommentTextLong(tail);
      ScanComment(tail, depth, rest);
      CommentChar(b, CommentText(tail), depth, rest, r);
    case Nest(inner, tail) =>
      ScanComment(inner, depth + 1, CommentText(tail) + rest);
      ScanComment(tail, depth, rest);
      CommentNest(CommentText(inner), CommentText(tail), depth, rest, r);
  }

  lemma {:induction false} CommentTextLong(c: Comment)
    ensures |CommentText(c)| >= 2
  {
    match c
    case Close =>
    case Char(_, rest) => CommentTextLong(rest);
    case Nest(_, rest) => CommentTextLong(rest);
  }

  lemma {:induction false} ScanDollar(tag: string, body: string, rest: string)
    requires IsTag(tag) && forall k | 0 <= k < |body| :: !(tag <= (body + tag)[k..])
    ensures Scan(DollarQuoted(tag), body + tag + rest) == Emit(Hidden(body + tag), Scan(Normal, rest))
    decreases |body|
  {
    hide Scan;
    if body == "" {
      assert body + tag == tag && (tag + rest)[..|tag|] == tag;
      Turn(DollarQuoted(tag), tag, rest, Move(|tag|, Spaces(|tag|), Normal));
      assert Hidden(tag) == Spaces(|tag|);
    } else {
      var tail := body[1..] + tag;
      var t := [body[0]] + (tail + rest);
      assert body + tag + rest == t && body + tag == [body[0]] + tail;
      assert (body + tag)[0..] == body + tag && t[..|tag|] == (body + tag)[..|tag|];
      forall k | 0 <= k < |body| - 1 ensures !(tag <= tail[k..]) {
        assert tail[k..] == (body + tag)[k + 1..];
      }
      ScanDollar(tag, body[1..], rest);
      assert Hidden([body[0]]) == [MaskHiddenByte(body[0])];
      Turn(DollarQuoted(tag), [body[0]], tail + rest, Move(1, Hidden([body[0]]), DollarQuoted(tag)));
      EmitHidden([body[0]], tail, Scan(Normal, rest));
    }
  }

  lemma VisibleStep(c: char, rest: string)
    requires Fits(Visible(c), rest)
    ensures Scan(Normal, [c] + rest) == Emit([MaskByte(c)], Scan(Normal, rest))
  {
    hide Scan;
    OpensIff([c] + rest);
    Turn(Normal, [c], rest, Move(1, [MaskByte(c)], Normal));
  }

  lemma QuotedStep(q: char, content: string, rest: string)
    requires Fits(QuotedText(q, content), rest)
    ensures Scan(Normal, QuoteText(q, content) + rest) == Emit(Hidden(QuoteText(q, content)), Scan(Normal, rest))
  {
    hide Scan;
    var tail := Doubled(q, content) + [q];
    assert QuoteText(q, content) + rest == [q] + (tail + rest);
    assert QuoteText(q, content) == [q] + tail;
    OpenQuote(q, tail + rest);
    ScanQuoted(q, content, rest);
    assert Hidden([q]) == " ";
    EmitHidden([q], tail, Scan(Normal, rest));
  }

  lemma LineStep(body: string, closed: bool, rest: string)
    requires Fits(Line(body, closed), rest)
    ensures Scan(Normal, Text(Line(body, closed)) + rest) == Emit(Mask(Line(body, closed)), Scan(Normal, rest))
  {
    hide Scan;
    var end := if closed then "\n" else "";
    assert Text(Line(body, closed)) + rest == "--" + (body + end + rest);
    Turn(Normal, "--", body + end + rest, Move(2, "  ", LineComment));
    ScanLine(body, closed, rest);
    EmitEmit("  ", Spaces(|body|) + end, Scan(Normal, rest));
    assert "  " + (Spaces(|body|) + end) == Mask(Line(body, closed));
  }

  lemma BlockStep(c: Comment, rest: string)
    requires CommentOk(c)
    ensures Scan(Normal, "/*" + CommentText(c) + rest) == Emit(Hidden("/*" + CommentText(c)), Scan(Normal, rest))
  {
    hide Scan;
    OpenBlock(CommentText(c) + rest);
    assert "/*" + CommentText(c) + rest == "/*" + (CommentText(c) + rest);
    ScanComment(c, 1, rest);
    assert Hidden("/*") == "  ";
    EmitHidden("/*", CommentText(c), Scan(Normal, rest));
  }

  lemma DollarStep(tag: string, body: string, rest: string)
    requires Fits(DollarText(tag, body), rest)
    ensures Scan(Normal, tag + body + tag + rest) == Emit(Hidden(tag + body + tag), Scan(Normal, rest))
  {
    hide Scan;
    assert tag + body + tag + rest == tag + (body + tag + rest);
    OpenTag(tag, body + tag + rest);
    ScanDollar(tag, body, rest);
    assert Hidden(tag) == Spaces(|tag|);
    EmitHidden(tag, body + tag, Scan(Normal, rest));
    assert tag + (body + tag) == tag + body + tag;
  }

  lemma ScanSegment(seg: Segment, rest: string)
    requires Fits(seg, rest)
    ensures Scan(Normal, Text(seg) + rest) == Emit(Mask(seg), Scan(Normal, rest))
  {
    match seg
    case Visible(c) => VisibleStep(c, rest);
    case QuotedText(q, content) => QuotedStep(q, content, rest);
    case Line(body, closed) => LineStep(body, closed, rest);
    case Block(c) => BlockStep(c, rest);
    case DollarText(tag, body) => DollarStep(tag, body, rest);
  }

  lemma {:induction false} SplitIsScanned(segs: seq<Segment>)
    requires FitsAll(segs)
    ensures Surface(TextAll(segs)) == Some(MaskAll(segs))
  {
    hide Scan;
    ScanEmpty(Normal);
    if segs != [] {
      SplitIsScanned(segs[1..]);
      ScanSegment(segs[0], TextAll(segs[1..]));
    }
  }

  // ---------- soundness: whatever is scanned has a split ----------

  lemma TurnSome(st: State, s: string)
    requires Scan(st, s).Some?
    ensures s == "" ==> st.Normal? || st.LineComment?
    ensures s != "" ==> Scan(Step(st, s).next, s[Step(st, s).n..]).Some?
  {}

  lemma {:induction false} QuotedSplit(q: char, s: string) returns (content: string, rest: string)
    requires IsQuote(q) && Scan(Quoted(q), s).Some?
    ensures s == Doubled(q, content) + [q] + rest && !([q] <= rest)
    decreases |s|
  {
    hide Scan;
    TurnSome(Quoted(q), s);
    if s[0] == q && |s| > 1 && s[1] == q {
      content, rest := QuotedSplit(q, s[2..]);
      content := [q] + content;
    } else if s[0] == q {
      content, rest := "", s[1..];
    } else {
      content, rest := QuotedSplit(q, s[1..]);
      content := [s[0]] + content;
    }
    if content != "" {
      assert s == (if content[0] == q then [q, q] else [content[0]]) + (Doubled(q, content[1..]) + [q] + rest);
    }
  }

  lemma {:induction false} LineSplit(s: string) returns (body: string, closed: bool, rest: string)
    ensures s == body + (if closed then "\n" else "") + rest
    ensures '\n' !in body && (closed || rest == "")
    decreases |s|
  {
    if s == "" {
      body, closed, rest := "", false, "";
    } else if s[0] == '\n' {
      body, closed, rest := "", true, s[1..];
    } else {
      body, closed, rest := LineSplit(s[1..]);
      assert s == [s[0]] + s[1..];
      body := [s[0]] + body;
    }
  }

  lemma {:induction false} CommentSplit(depth: nat, s: string) returns (c: Comment, rest: string)
    requires depth >= 1 && Scan(BlockComment(depth), s).Some?
    ensures CommentOk(c) && s == CommentText(c) + rest
    ensures Scan(After(depth), rest).Some?
    decreases |s|
  {
    hide Scan;
    TurnSome(BlockComment(depth), s);
    var tail;
    if Starts(s, '/', '*') {
      var inner, mid := CommentSplit(depth + 1, s[2..]);
      tail, rest := CommentSplit(depth, mid);
      c := Nest(inner, tail);
      assert s == "/*" + s[2..];
      Regroup("/*", CommentText(inner), CommentText(tail), rest);
    } else if Starts(s, '*', '/') {
      c, rest := Close, s[2..];
      assert s == "*/" + rest;
    } else {
      tail, rest := CommentSplit(depth, s[1..]);
      CommentTextLong(tail);
      c := Char(s[0], tail);
      assert s == [s[0]] + CommentText(tail) + rest;
    }
  }

  lemma {:induction false} DollarSplit(tag: string, s: string) returns (body: string, rest: string)
    requires IsTag(tag) && Scan(DollarQuoted(tag), s).Some?
    ensures s == body + tag + rest
    ensures forall k | 0 <= k < |body| :: !(tag <= (body + tag)[k..])
    decreases |s|
  {
    hide Scan;
    TurnSome(DollarQuoted(tag), s);
    if tag <= s {
      body, rest := "", s[|tag|..];
    } else {
      var tail;
      tail, rest := DollarSplit(tag, s[1..]);
      body := [s[0]] + tail;
      assert s == body + tag + rest;
      forall k | 0 <= k < |body| ensures !(tag <= (body + tag)[k..]) {
        if k == 0 {
          assert (body + tag)[0..] == body + tag;
          assert s[..|tag|] == (body + tag)[..|tag|];
        } else {
          assert (body + tag)[k..] == (tail + tag)[k - 1..];
        }
      }
    }
  }

  lemma FirstQuoted(q: char, s: string) returns (seg: Segment, rest: string)
    requires IsQuote(q) && Scan(Quoted(q), s).Some?
    ensures [q] + s == Text(seg) + rest && Fits(seg, rest) && |rest| < |s|
  {
    var content;
    content, rest := QuotedSplit(q, s);
    seg := QuotedText(q, content);
  }

  lemma FirstBlock(s: string) returns (seg: Segment, rest: string)
    requires Scan(BlockComment(1), s).Some?
    ensures "/*" + s == Text(seg) + rest && Fits(seg, rest) && |rest| < |s|
  {
    var c;
    c, rest := CommentSplit(1, s);
    seg := Block(c);
    CommentTextLong(c);
  }

  lemma FirstDollar(tag: string, s: string) returns (seg: Segment, rest: string)
    requires IsTag(tag) && Scan(DollarQuoted(tag), s).Some?
    ensures tag + s == Text(seg) + rest && Fits(seg, rest) && |rest| < |s|
  {
    var body;
    body, rest := DollarSplit(tag, s);
    seg := DollarText(tag, body);
    assert tag + s == tag + body + tag + rest;
  }

  lemma FirstLine(s: string) returns (seg: Segment, rest: string)
    ensures "--" + s == Text(seg) + rest && Fits(seg, rest) && |rest| <= |s|
  {
    var body, closed;
    body, closed, rest := LineSplit(s);
    seg := Line(body, closed);
    assert "--" + s == Text(seg) + rest;
  }

  lemma FirstSegment(s: string) returns (seg: Segment, rest: string)
    requires s != "" && Surface(s).Some?
    ensures s == Text(seg) + rest && Fits(seg, rest) && |rest| < |s|
  {
    hide Scan;
    OpensIff(s);
    TurnSome(Normal, s);
    if Starts(s, '-', '-') {
      seg, rest := FirstLine(s[2..]);
      assert s == "--" + s[2..];
    } else if Starts(s, '/', '*') {
      seg, rest := FirstBlock(s[2..]);
      assert s == "/*" + s[2..];
    } else if IsQuote(s[0]) {
      seg, rest := FirstQuoted(s[0], s[1..]);
      assert s == [s[0]] + s[1..];
    } else if TagLength(s).Some? {
      var n := TagLength(s).value;
      TagLengthIff(s, n);
      seg, rest := FirstDollar(s[..n], s[n..]);
      assert s == s[..n] + s[n..];
    } else {
      seg, rest := Visible(s[0]), s[1..];
      assert s == [s[0]] + rest;
    }
  }

  lemma {:induction false} ScannedSplits(s: string) returns (segs: seq<Segment>)
    requires Surface(s).Some?
    ensures Splits(segs, s)
    decreases |s|
  {
    if s == "" {
      segs := [];
    } else {
      var seg, rest := FirstSegment(s);
      ScanSegment(seg, rest);
      var tail := ScannedSplits(rest);
      segs := [seg] + tail;
      assert segs[1..] == tail;
    }
  }

  /** The scanner refines the grammar: it succeeds exactly on the texts that split into segments,
      and its output is that split with every segment masked. */
  lemma SurfaceRefinesGrammar(sql: string)
    ensures Surface(sql).Some? <==> exists segs :: Splits(segs, sql)
    ensures forall segs | Splits(segs, sql) :: Surface(sql) == Some(MaskAll(segs))
  {
    forall segs | Splits(segs, sql) ensures Surface(sql) == Some(MaskAll(segs)) {
      SplitIsScanned(segs);
    }
    if Surface(sql).Some? {
      var segs := ScannedSplits(sql);
    }
  }

  // ---------- the loop of the source ----------

  /** The source keeps the open dollar tag beside the state; here they are put together. */
  function Current(state: State, dollarTag: Option<string>): State {
    if dollarTag.Some? then DollarQuoted(dollarTag.value) else state
  }

  method LexicalSurface(sql: string) returns (r: Option<string>)
    ensures r == Surface(sql)
    ensures r.Some? <==> exists segs :: Splits(segs, sql)
    ensures forall segs | Splits(segs, sql) :: r == Some(MaskAll(segs))
  {
    hide Scan;
    var out := "";
    var i := 0;
    var state := Normal;
    var dollarTag: Option<string> := None;
    assert sql[0..] == sql;
    assert forall t: string :: "" + t == t;
    while i < |sql|
      invariant 0 <= i <= |sql|
      invariant !state.DollarQuoted? && (state.BlockComment? ==> state.depth >= 1)
      invariant dollarTag.Some? ==> state.Normal? && dollarTag.value != ""
      invariant Surface(sql) == Emit(out, Scan(Current(state, dollarTag), sql[i..]))
    {
      var rest := sql[i..];
      ghost var before, from, m := out, i, Step(Current(state, dollarTag), rest);
      Unroll(Current(state, dollarTag), rest);
      if dollarTag.Some? {
        var tag := dollarTag.value;
        if tag <= rest {
          out := out + Spaces(|tag|);
          i := i + |tag|;
          dollarTag := None;
        } else {
          out := out + [MaskHiddenByte(sql[i])];
          i := i + 1;
        }
      } else {
        match state
        case Normal =>
          if Starts(rest, '-', '-') {
            out := out + "  ";
            i := i + 2;
            state := LineComment;
          } else if Starts(rest, '/', '*') {
            out := out + "  ";
            i := i + 2;
            state := BlockComment(1);
          } else if IsQuote(sql[i]) {
            out := out + " ";
            state := Quoted(sql[i]);
            i := i + 1;
          } else {
            var parsed := ParseDollarTag(rest);
            if parsed.Some? {
              TagLengthIff(rest, parsed.value);
              out := out + Spaces(parsed.value);
              dollarTag := Some(rest[..parsed.value]);
              i := i + parsed.value;
            } else {
              out := out + [MaskByte(sql[i])];
              i := i + 1;
            }
          }
        case Quoted(q) =>
          if sql[i] == q {
            out := out + " ";
            i := i + 1;
            if i < |sql| && sql[i] == q {
              out := out + " ";
              i := i + 1;
            } else {
              state := Normal;
            }
          } else {
            out := out + [MaskHiddenByte(sql[i])];
            i := i + 1;
          }
        case LineComment =>
          if sql[i] == '\n' {
            out := out + "\n";
            i := i + 1;
            state := Normal;
          } else {
            out := out + " ";
            i := i + 1;
          }
        case BlockComment(depth) =>
          if Starts(rest, '/', '*') {
            out := out + "  ";
            i := i + 2;
            state := BlockComment(depth + 1);
          } else if Starts(rest, '*', '/') {
            out := out + "  ";
            i := i + 2;
            state := if depth == 1 then Normal else BlockComment(depth - 1);
          } else {
            out := out + [MaskHiddenByte(sql[i])];
            i := i + 1;
          }
      }
      assert Current(state, dollarTag) == m.next && i == from + m.n && out == before + m.out;
      assert sql[i..] == rest[m.n..];
      EmitEmit(before, m.out, Scan(m.next, sql[i..]));
    }
    assert sql[i..] == "" && out + "" == out;
    SurfaceRefinesGrammar(sql);
    ScanEmpty(Current(state, dollarTag));
    if dollarTag.Some? || state.Quoted? || state.BlockComment? {
      return None;
    }
    return Some(out);
  }
}
