/** Words shared by the whole model: machine integers, optional values, results and ASCII classes. */
module Basics {

  datatype Option<+T> = None | Some(value: T)

  datatype Result<+T, +E> = Ok(value: T) | Err(error: E)

  // `usize` and `u64` on the 64-bit targets the repository is built for.
  const U64_MAX: nat := 0xFFFF_FFFF_FFFF_FFFF

  function Min(a: int, b: int): int { if a <= b then a else b }

  function Max(a: int, b: int): int { if a <= b then b else a }

  /** `saturating_add` on u64 and usize. */
  function SaturatingAdd(a: nat, b: nat): nat { Min(a + b, U64_MAX) }

  /** `saturating_sub` on u64 and usize. */
  function SaturatingSub(a: nat, b: nat): nat { Max(a - b, 0) }

  predicate IsDigit(c: char) { '0' <= c <= '9' }

  predicate IsAlpha(c: char) { 'a' <= c <= 'z' || 'A' <= c <= 'Z' }

  predicate IsAlnum(c: char) { IsDigit(c) || IsAlpha(c) }

  predicate IsWordChar(c: char) { IsAlnum(c) || c == '_' }

  /** `u8::is_ascii_whitespace`: space, tab, line feed, form feed, carriage return. */
  predicate IsAsciiSpace(c: char) { c == ' ' || c == '\t' || c == '\n' || c == '\r' || c == '\U{0C}' }

  function Upper(c: char): char { if 'a' <= c <= 'z' then c - ' ' else c }

  function Lower(c: char): char { if 'A' <= c <= 'Z' then c + ' ' else c }

  /** `char::is_whitespace`: the Unicode White_Space property. */
  predicate IsSpace(c: char) {
    '\t' <= c <= '\r' || c == ' ' || c == '\U{85}' || c == '\U{A0}' || c == '\U{1680}' || '\U{2000}' <= c <= '\U{200A}'
    || c == '\U{2028}' || c == '\U{2029}' || c == '\U{202F}' || c == '\U{205F}' || c == '\U{3000}'
  }

  function TrimStart(s: string): string { if s != "" && IsSpace(s[0]) then TrimStart(s[1..]) else s }

  function TrimEnd(s: string): string {
    if s != "" && IsSpace(s[|s| - 1]) then TrimEnd(s[..|s| - 1]) else s
  }

  function Trim(s: string): string { TrimEnd(TrimStart(s)) }

  predicate AllSpace(s: string) { forall i | 0 <= i < |s| :: IsSpace(s[i]) }

  /** `word` has no white space at either end. */
  predicate IsTrimmed(word: string) { word != "" ==> !IsSpace(word[0]) && !IsSpace(word[|word| - 1]) }

  lemma {:induction false} TrimStartOf(before: string, word: string)
    requires AllSpace(before) && (word != "" ==> !IsSpace(word[0]))
    ensures TrimStart(before + word) == word
  {
    if before == "" {
      assert before + word == word;
    } else {
      assert (before + word)[1..] == before[1..] + word;
      TrimStartOf(before[1..], word);
    }
  }

  lemma {:induction false} TrimEndOf(word: string, after: string)
    requires AllSpace(after) && (word != "" ==> !IsSpace(word[|word| - 1]))
    ensures TrimEnd(word + after) == word
  {
    if after == "" {
      assert word + after == word;
    } else {
      var n := |after| - 1;
      assert (word + after)[..|word| + n] == word + after[..n];
      TrimEndOf(word, after[..n]);
    }
  }

  lemma {:induction false} TrimStartLeaves(s: string)
    ensures |TrimStart(s)| <= |s| && s[|s| - |TrimStart(s)|..] == TrimStart(s) && AllSpace(s[..|s| - |TrimStart(s)|])
    ensures TrimStart(s) != "" ==> !IsSpace(TrimStart(s)[0])
  {
    if s != "" && IsSpace(s[0]) { TrimStartLeaves(s[1..]); }
  }

  /** Trimming takes exactly the white space at the ends. */
  lemma TrimIs(before: string, word: string, after: string)
    requires AllSpace(before) && AllSpace(after) && IsTrimmed(word)
    ensures Trim(before + word + after) == word
  {
    assert before + word + after == before + (word + after);
    if word == "" {
      assert before + (word + after) == (before + after) + "";
      TrimStartOf(before + after, "");
    } else {
      TrimStartOf(before, word + after);
      TrimEndOf(word, after);
    }
  }

  lemma {:induction false} TrimEndLeaves(s: string)
    ensures TrimEnd(s) <= s && AllSpace(s[|TrimEnd(s)|..])
    ensures TrimEnd(s) != "" ==> !IsSpace(TrimEnd(s)[|TrimEnd(s)| - 1])
  {
    if s != "" && IsSpace(s[|s| - 1]) { TrimEndLeaves(s[..|s| - 1]); }
  }

  /** Every text is what trimming leaves of it between white space. */
  lemma TrimLeaves(s: string) returns (before: string, after: string)
    ensures s == before + Trim(s) + after && AllSpace(before) && AllSpace(after) && IsTrimmed(Trim(s))
  {
    TrimStartLeaves(s);
    TrimEndLeaves(TrimStart(s));
    before, after := s[..|s| - |TrimStart(s)|], TrimStart(s)[|Trim(s)|..];
  }

  ghost predicate Distinct<T>(s: seq<T>) { forall i, j | 0 <= i < j < |s| :: s[i] != s[j] }
}
