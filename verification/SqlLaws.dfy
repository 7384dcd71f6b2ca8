/** Laws of the lexical surface: what its output keeps of the input, that scanning it again changes
    nothing, and how it distributes over text put together piece by piece. */
module SqlLaws {
  import opened Basics
  import opened SqlSurface

  // ---------- what the output keeps ----------

  predicate IsPlain(c: char) { c == '\n' || c == '\r' || c == '\t' || ' ' <= c <= '~' }

  ghost predicate Aligned(out: string, s: string) {
    |out| == |s| && forall i | 0 <= i < |s| :: IsPlain(out[i]) && (out[i] == s[i] || out[i] == ' ')
  }

  lemma StepAligned(st: State, s: string)
    requires s != ""
    ensures Aligned(Step(st, s).out, s[..Step(st, s).n])
  {}

  /** The surface has the length of the input, and every byte it does not blank stands where it stood. */
  lemma {:induction false} ScanAligned(st: State, s: string)
    requires Scan(st, s).Some?
    ensures Aligned(Scan(st, s).value, s)
    decreases |s|
  {
    if s != "" {
      var m := Step(st, s);
      TurnSome(st, s);
      Unroll(st, s);
      StepAligned(st, s);
      ScanAligned(m.next, s[m.n..]);
      assert s == s[..m.n] + s[m.n..];
    }
  }

  predicate IsBreak(c: char) { c == '\n' || c == '\r' || c == '\t' }

  /** What stands in the surface for each byte of a segment: a visible byte itself if it is printable or a line break,
      a line comment's closing line feed, the line breaks of other hidden text, and a blank for every other byte. */
  lemma MaskShows(seg: Segment, i: nat)
    requires i < |Text(seg)|
    ensures |Mask(seg)| == |Text(seg)|
    ensures var c := Text(seg)[i];
            Mask(seg)[i] ==
            match seg
            case Visible(_) => if IsPlain(c) then c else ' '
            case Line(body, closed) => if closed && i == |Text(seg)| - 1 then '\n' else ' '
            case _ => if IsBreak(c) then c else ' '
  {}

  // ---------- masking creates no token ----------

  /** No quote, comment or dollar tag starts anywhere in `t`. */
  predicate Clean(t: string) { t == "" || (!Opens(t) && Clean(t[1..])) }

  lemma {:induction false} CleanAfterBlanks(b: string, t: string)
    requires Clean(t) && forall c | c in b :: IsAsciiSpace(c)
    ensures Clean(b + t)
  {
    if b == "" {
      assert b + t == t;
    } else {
      assert (b + t)[1..] == b[1..] + t;
      CleanAfterBlanks(b[1..], t);
      var u := b + t;
      assert u[0] == b[0] && b[0] in b;
      forall n | 2 <= n <= |u| ensures !IsTag(u[..n]) { assert u[..n][0] == b[0]; }
    }
  }

  lemma OpensKept(c: char, s: string, out: string)
    requires Aligned(out, s) && Opens([MaskByte(c)] + out)
    ensures Opens([c] + s)
  {
    var t, u := [c] + s, [MaskByte(c)] + out;
    if n: nat :| 2 <= n <= |u| && IsTag(u[..n]) {
      forall i | 0 <= i < n ensures t[i] == u[i] {
        assert u[..n][i] == u[i] && u[i] != ' ';
        if i > 0 { assert u[i] == out[i - 1] && t[i] == s[i - 1]; }
      }
      assert t[..n] == u[..n];
    } else if Starts(u, '-', '-') || Starts(u, '/', '*') {
      assert u[1] == out[0];
    }
  }

  lemma HiddenBlank(s: string)
    ensures forall c | c in Hidden(s) :: IsAsciiSpace(c)
  {}

  lemma {:induction false} ScanClean(st: State, s: string)
    requires Scan(st, s).Some?
    ensures Clean(Scan(st, s).value)
    decreases |s|
  {
    hide Scan;
    if s == "" {
      ScanEmpty(st);
    } else {
      var m := Step(st, s);
      TurnSome(st, s);
      Unroll(st, s);
      var rest := s[m.n..];
      ScanClean(m.next, rest);
      var out := Scan(m.next, rest).value;
      if st.Normal? && m.next.Normal? {
        OpensIff(s);
        ScanAligned(m.next, rest);
        assert s == [s[0]] + rest && m.out + out == [MaskByte(s[0])] + out;
        if Opens([MaskByte(s[0])] + out) { OpensKept(s[0], rest, out); }
        assert ([MaskByte(s[0])] + out)[1..] == out;
      } else {
        CleanAfterBlanks(m.out, out);
      }
    }
  }

  lemma {:induction false} CleanIsFixed(t: string)
    requires Clean(t) && forall c | c in t :: IsPlain(c)
    ensures Surface(t) == Some(t)
  {
    hide Scan;
    if t == "" {
      ScanEmpty(Normal);
    } else {
      CleanIsFixed(t[1..]);
      assert t == [t[0]] + t[1..] && t[0] in t;
      VisibleStep(t[0], t[1..]);
    }
  }

  /** The surface of a surface is itself: masking leaves no quote, comment or dollar tag to mask. */
  lemma SurfaceIdempotent(sql: string)
    requires Surface(sql).Some?
    ensures Surface(Surface(sql).value) == Surface(sql)
  {
    ScanAligned(Normal, sql);
    ScanClean(Normal, sql);
    CleanIsFixed(Surface(sql).value);
  }

  // ---------- putting texts together ----------

  /** The state the scanner is in after all of `s`. */
  function EndState(st: State, s: string): State
    decreases |s|
  {
    if s == "" then st else EndState(Step(st, s).next, s[Step(st, s).n..])
  }

  ghost predicate Legal(st: State) { (st.DollarQuoted? ==> IsTag(st.tag)) && (st.Quoted? ==> IsQuote(st.q)) }

  lemma StepLegal(st: State, s: string)
    requires s != "" && Legal(st)
    ensures Legal(Step(st, s).next)
  {
    if TagLength(s).Some? { TagLengthIff(s, TagLength(s).value); }
  }

  /** `c` is a byte that no token other than a quoted text has beyond its first byte. */
  predicate Separates(c: char) { c == '\n' || IsQuote(c) }

  lemma {:induction false} TagEndStable(a: string, t: string, j: nat)
    requires j <= |a| && t != "" && Separates(t[0])
    ensures TagEnd(a + t, j) == TagEnd(a, j)
    decreases |a| - j
  {
    if j < |a| { TagEndStable(a, t, j + 1); }
  }

  lemma StepStable(st: State, a: string, t: string)
    requires a != "" && t != "" && Separates(t[0]) && Legal(st)
    requires IsQuote(t[0]) ==> a[|a| - 1] != t[0]
    ensures Step(st, a + t) == Step(st, a)
  {
    var u := a + t;
    assert u[0] == a[0];
    assert if |a| > 1 then u[1] == a[1] else u[1] == t[0];
    match st
    case Normal =>
      TagEndStable(a, t, 1);
      if TagLength(a).Some? {
        TagLengthIff(a, TagLength(a).value);
        assert u[..TagLength(a).value] == a[..TagLength(a).value];
      }
    case DollarQuoted(tag) =>
      if |tag| <= |a| {
        assert u[..|tag|] == a[..|tag|];
      } else {
        assert tag[|a|] != t[0] && u[|a|] == t[0];
      }
    case _ =>
  }

  lemma {:induction false} ScanAppend(st: State, a: string, t: string)
    requires t != "" && Separates(t[0]) && Legal(st)
    requires IsQuote(t[0]) && a != "" ==> a[|a| - 1] != t[0]
    requires Scan(st, a).Some?
    ensures Scan(st, a + t) == Emit(Scan(st, a).value, Scan(EndState(st, a), t))
    decreases |a|
  {
    hide Scan;
    if a == "" {
      ScanEmpty(st);
      assert a + t == t;
      var r := Scan(st, t);
      assert r.Some? ==> "" + r.value == r.value;
    } else {
      var m := Step(st, a);
      TurnSome(st, a);
      Unroll(st, a);
      StepLegal(st, a);
      StepStable(st, a, t);
      var rest := a[m.n..];
      assert rest != "" ==> rest[|rest| - 1] == a[|a| - 1];
      ScanAppend(m.next, rest, t);
      assert a == a[..m.n] + rest && a + t == a[..m.n] + (rest + t);
      Turn(st, a[..m.n], rest + t, m);
      EmitEmit(m.out, Scan(m.next, rest).value, Scan(EndState(st, a), t));
    }
  }

  lemma {:induction false} EndOfAccepted(st: State, s: string)
    requires Scan(st, s).Some?
    ensures EndState(st, s).Normal? || EndState(st, s).LineComment?
    decreases |s|
  {
    if s != "" {
      TurnSome(st, s);
      EndOfAccepted(Step(st, s).next, s[Step(st, s).n..]);
    }
  }

  /** Two texts that both have a surface can be joined by a line break: the surfaces join the same way. */
  lemma SurfaceOfLines(a: string, b: string)
    requires Surface(a).Some? && Surface(b).Some?
    ensures Surface(a + "\n" + b) == Some(Surface(a).value + "\n" + Surface(b).value)
  {
    hide Scan;
    var x, y := Surface(a).value, Surface(b).value;
    EndOfAccepted(Normal, a);
    assert ("\n" + b)[0] == '\n';
    ScanAppend(Normal, a, "\n" + b);
    var e := EndState(Normal, a);
    if e.Normal? {
      forall n | 2 <= n <= |"\n" + b| ensures !IsTag(("\n" + b)[..n]) {}
      VisibleStep('\n', b);
    } else {
      Turn(LineComment, "\n", b, Move(1, "\n", Normal));
    }
    assert a + "\n" + b == a + ("\n" + b);
    assert x + ("\n" + y) == x + "\n" + y;
  }

  /** Both parts need a surface of their own: a quoted text may run across the line break. */
  lemma SurfaceOfLinesNeedsBoth()
    ensures Surface("'").None? && Surface("'\n'") == Some(" \n ")
  {
    assert "'" == ['\''] + "";
    OpenQuote('\'', "");
    ScanEmpty(Quoted('\''));
    assert Doubled('\'', "\n") == "\n" + Doubled('\'', "") == "\n";
    var s := QuoteText('\'', "\n");
    assert s == "'\n'" && s + "" == s && Hidden(s) == " \n ";
    QuotedStep('\'', "\n", "");
    ScanEmpty(Normal);
    assert Hidden(s) + "" == Hidden(s);
  }
}
