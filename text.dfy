/**
 * Character classes and string utilities the tweet parser is built on:
 * JavaScript's whitespace and `trim`, the span masker `replaceWithSpaces`,
 * and breaking/splitting a string at separator characters.
 */
module Text {

  /** A character that JavaScript's String.prototype.trim removes
      (ECMAScript WhiteSpace and LineTerminator). */
  predicate IsSpace(c: char) {
    || c == ' ' || c == '\t' || c == '\n' || c == '\r'
    || c == '\U{000B}' || c == '\U{000C}' || c == '\U{00A0}' || c == '\U{1680}'
    || ('\U{2000}' <= c <= '\U{200A}')
    || c == '\U{2028}' || c == '\U{2029}' || c == '\U{202F}' || c == '\U{205F}'
    || c == '\U{3000}' || c == '\U{FEFF}'
  }

  /** A character of the regular-expression class `\w`. */
  predicate IsWordChar(c: char) {
    ('a' <= c <= 'z') || ('A' <= c <= 'Z') || ('0' <= c <= '9') || c == '_'
  }

  predicate IsDigit(c: char) {
    '0' <= c <= '9'
  }

  function ToLower(c: char): char {
    if 'A' <= c <= 'Z' then (c as int + 32) as char else c
  }

  /** ASCII lower-casing, as String.prototype.toLowerCase does on ASCII text. */
  function Lower(s: string): (r: string)
    ensures |r| == |s|
    ensures forall i :: 0 <= i < |s| ==> r[i] == ToLower(s[i])
  {
    if s == [] then [] else [ToLower(s[0])] + Lower(s[1..])
  }

  /** Text with no upper-case ASCII letter is its own lower-case form. */
  lemma LowerOfLowerCase(s: string)
    requires forall i :: 0 <= i < |s| ==> !('A' <= s[i] <= 'Z')
    ensures Lower(s) == s
  {
    assert forall i :: 0 <= i < |s| ==> Lower(s)[i] == s[i];
  }

  ghost predicate AllSpace(s: string) {
    forall i :: 0 <= i < |s| ==> IsSpace(s[i])
  }

  /** No whitespace at either end: what `trim` returns. */
  predicate IsTrimmed(s: string) {
    s == [] || (!IsSpace(s[0]) && !IsSpace(s[|s| - 1]))
  }

  predicate IsPrefix(p: string, s: string) {
    |p| <= |s| && s[..|p|] == p
  }

  // ---------------------------------------------------------------------------
  // The span masker
  // ---------------------------------------------------------------------------

  /** A half-open character range [start, end), as a platform entity's `indices` pair. */
  datatype Span = Span(start: int, end: int)

  predicate InSpan(sp: Span, i: int) {
    sp.start <= i < sp.end
  }

  function Spaces(n: nat): (r: string)
    ensures |r| == n
    ensures forall i :: 0 <= i < n ==> r[i] == ' '
  {
    seq(n, _ => ' ')
  }

  function Clamp(x: int, lo: int, hi: int): (r: int)
    requires lo <= hi
    ensures lo <= r <= hi
    ensures lo <= x <= hi ==> r == x
  {
    if x < lo then lo else if x > hi then hi else x
  }

  /**
   * replaceWithSpaces: the text with the characters of [start, end) turned into
   * spaces. The pieces are cut out as `substring` does, with the bounds clamped
   * to the text, so the length never changes and no range is rejected.
   */
  function ReplaceWithSpaces(text: string, start: int, end: int): (r: string)
    ensures |r| == |text|
    ensures forall i :: 0 <= i < |text| ==> r[i] == if start <= i < end then ' ' else text[i]
  {
    var s := Clamp(start, 0, |text|);
    var e := Clamp(end, s, |text|);
    text[..s] + Spaces(e - s) + text[e..]
  }

  /** Some span of `spans` covers position i. */
  predicate Covered(spans: seq<Span>, i: int) {
    exists k :: 0 <= k < |spans| && InSpan(spans[k], i)
  }

  /** Masks every span in turn, left to right. */
  function MaskSpans(text: string, spans: seq<Span>): (r: string)
    ensures |r| == |text|
    ensures forall i :: 0 <= i < |text| ==> r[i] == if Covered(spans, i) then ' ' else text[i]
    decreases |spans|
  {
    if spans == [] then text
    else
      var r := MaskSpans(ReplaceWithSpaces(text, spans[0].start, spans[0].end), spans[1..]);
      assert forall i :: Covered(spans, i) <==> InSpan(spans[0], i) || Covered(spans[1..], i) by {
        forall i ensures Covered(spans, i) ==> InSpan(spans[0], i) || Covered(spans[1..], i) {
          if Covered(spans, i) {
            var k :| 0 <= k < |spans| && InSpan(spans[k], i);
            if k > 0 { assert spans[1..][k - 1] == spans[k]; }
          }
        }
        forall i ensures Covered(spans[1..], i) ==> Covered(spans, i) {
          if Covered(spans[1..], i) {
            var k :| 0 <= k < |spans[1..]| && InSpan(spans[1..][k], i);
            assert spans[k + 1] == spans[1..][k];
          }
        }
      }
      r
  }

  /** A position is covered by a concatenation of span lists exactly when one of them covers it. */
  lemma CoveredAppend(a: seq<Span>, b: seq<Span>, i: int)
    ensures Covered(a + b, i) <==> Covered(a, i) || Covered(b, i)
  {
    if Covered(a + b, i) {
      var k :| 0 <= k < |a + b| && InSpan((a + b)[k], i);
      if k >= |a| { assert (a + b)[k] == b[k - |a|]; }
    }
    if Covered(a, i) {
      var k :| 0 <= k < |a| && InSpan(a[k], i);
      assert (a + b)[k] == a[k];
    }
    if Covered(b, i) {
      var k :| 0 <= k < |b| && InSpan(b[k], i);
      assert (a + b)[|a| + k] == b[k];
    }
  }

  /** Masking the middle piece of a three-piece text blanks exactly that piece. */
  lemma ReplaceWithSpacesPiece(a: string, b: string, c: string)
    ensures ReplaceWithSpaces(a + b + c, |a|, |a| + |b|) == a + Spaces(|b|) + c
  {
    var r, want := ReplaceWithSpaces(a + b + c, |a|, |a| + |b|), a + Spaces(|b|) + c;
    assert forall i :: 0 <= i < |r| ==> r[i] == want[i];
  }

  // ---------------------------------------------------------------------------
  // trim
  // ---------------------------------------------------------------------------

  /** The string without its leading whitespace. */
  function TrimStart(s: string): (r: string)
    ensures |r| <= |s| && r == s[|s| - |r|..]
    ensures AllSpace(s[..|s| - |r|])
    ensures r == [] || !IsSpace(r[0])
  {
    if s != [] && IsSpace(s[0]) then TrimStart(s[1..]) else s
  }

  /** The string without its trailing whitespace. */
  function TrimEnd(s: string): (r: string)
    ensures |r| <= |s| && r == s[..|r|]
    ensures AllSpace(s[|r|..])
    ensures r == [] || !IsSpace(r[|r| - 1])
    ensures s == [] || !IsSpace(s[0]) ==> r == [] || !IsSpace(r[0])
  {
    if s != [] && IsSpace(s[|s| - 1]) then TrimEnd(s[..|s| - 1]) else s
  }

  /**
   * String.prototype.trim: neither end of the result is whitespace; what it
   * cuts off is described by TrimPadded and TrimAllSpace below.
   */
  function Trim(s: string): (r: string)
    ensures |r| <= |s|
    ensures IsTrimmed(r)
  {
    TrimEnd(TrimStart(s))
  }

  /** `trim` cuts off whitespace only: its result is a slice of the input with whitespace on both sides. */
  lemma TrimSlice(s: string) returns (lo: nat)
    ensures lo + |Trim(s)| <= |s| && s[lo..lo + |Trim(s)|] == Trim(s)
    ensures AllSpace(s[..lo]) && AllSpace(s[lo + |Trim(s)|..])
  {
    var t := TrimStart(s);
    var r := TrimEnd(t);
    lo := |s| - |t|;
    assert s[lo..lo + |r|] == r && s[lo + |r|..] == t[|r|..];
  }

  lemma {:induction false} TrimStartPadded(w: string, s: string)
    requires AllSpace(w)
    requires s == [] || !IsSpace(s[0])
    ensures TrimStart(w + s) == s
    decreases |w|
  {
    if w == [] {
      assert w + s == s;
    } else {
      assert (w + s)[1..] == w[1..] + s;
      TrimStartPadded(w[1..], s);
    }
  }

  lemma {:induction false} TrimEndPadded(s: string, w: string)
    requires AllSpace(w)
    requires s == [] || !IsSpace(s[|s| - 1])
    ensures TrimEnd(s + w) == s
    decreases |w|
  {
    if w == [] {
      assert s + w == s;
    } else {
      assert (s + w)[..|s + w| - 1] == s + w[..|w| - 1];
      TrimEndPadded(s, w[..|w| - 1]);
    }
  }

  /** Padding a trimmed string with whitespace and trimming gives it back. */
  lemma TrimPadded(w1: string, s: string, w2: string)
    requires AllSpace(w1) && AllSpace(w2) && IsTrimmed(s)
    ensures Trim(w1 + s + w2) == s
  {
    if s == [] {
      assert w1 + s + w2 == w1 + w2;
      assert AllSpace(w1 + w2);
      TrimAllSpace(w1 + w2);
    } else {
      assert w1 + s + w2 == w1 + (s + w2);
      assert (s + w2)[0] == s[0];
      TrimStartPadded(w1, s + w2);
      TrimEndPadded(s, w2);
    }
  }

  /** `trim` returns its input exactly when the input has no outer whitespace. */
  lemma TrimFixpoint(s: string)
    ensures Trim(s) == s <==> IsTrimmed(s)
  {
    if IsTrimmed(s) {
      TrimPadded([], s, []);
      assert [] + s + [] == s;
    }
  }

  /** `trim` yields the empty string exactly on all-whitespace input. */
  lemma TrimAllSpace(s: string)
    ensures Trim(s) == [] <==> AllSpace(s)
  {
    var t := TrimStart(s);
    if AllSpace(s) {
      TrimStartAllSpace(s);
    }
    if Trim(s) == [] {
      var lo := |s| - |t|;
      assert s == s[..lo] + t;
      assert t[|TrimEnd(t)|..] == t;
    }
  }

  lemma {:induction false} TrimStartAllSpace(s: string)
    requires AllSpace(s)
    ensures TrimStart(s) == []
  {
    if s != [] {
      TrimStartAllSpace(s[1..]);
    }
  }

  // ---------------------------------------------------------------------------
  // Breaking and splitting at separators
  // ---------------------------------------------------------------------------

  predicate NoneIn(s: string, stops: set<char>) {
    forall i :: 0 <= i < |s| ==> s[i] !in stops
  }

  /** The longest prefix free of `stops`, and what follows it. */
  function Break(s: string, stops: set<char>): (r: (string, string))
    ensures r.0 + r.1 == s
    ensures NoneIn(r.0, stops)
    ensures r.1 == [] || r.1[0] in stops
  {
    if s == [] || s[0] in stops then ([], s)
    else
      var (a, b) := Break(s[1..], stops);
      assert [s[0]] + a + b == [s[0]] + (a + b) == s;
      assert forall i :: 1 <= i < |a| + 1 ==> ([s[0]] + a)[i] == a[i - 1];
      ([s[0]] + a, b)
  }

  /** The two parts of `Break` are determined by their contract. */
  lemma {:induction false} BreakUnique(a: string, b: string, stops: set<char>)
    requires NoneIn(a, stops)
    requires b == [] || b[0] in stops
    ensures Break(a + b, stops) == (a, b)
  {
    if a == [] {
      assert a + b == b;
    } else {
      assert (a + b)[0] == a[0];
      assert (a + b)[1..] == a[1..] + b;
      BreakUnique(a[1..], b, stops);
      assert [a[0]] + a[1..] == a;
    }
  }

  /** Joins the parts with `sep` between neighbours, as Array.prototype.join. */
  function Join(parts: seq<string>, sep: char): string {
    if |parts| == 0 then []
    else if |parts| == 1 then parts[0]
    else parts[0] + [sep] + Join(parts[1..], sep)
  }

  /** String.prototype.split with a one-character separator. */
  function Split(s: string, sep: char): (parts: seq<string>)
    ensures |parts| >= 1
    ensures Join(parts, sep) == s
    ensures forall k :: 0 <= k < |parts| ==> sep !in parts[k]
    decreases |s|
  {
    var (head, rest) := Break(s, {sep});
    assert forall i :: 0 <= i < |head| ==> head[i] != sep;
    if rest == [] then [head]
    else
      var tail := Split(rest[1..], sep);
      assert rest == [sep] + rest[1..];
      [head] + tail
  }

  /** A separator right after a separator-free head ends the first part. */
  lemma SplitAt(h: string, rest: string, sep: char)
    requires NoneIn(h, {sep})
    requires rest != [] && rest[0] == sep
    ensures Split(h + rest, sep) == [h] + Split(rest[1..], sep)
  {
    BreakUnique(h, rest, {sep});
  }

  /** Joining two or more parts puts a separator after the first. */
  lemma JoinCons(parts: seq<string>, sep: char)
    requires |parts| >= 2
    ensures Join(parts, sep) == parts[0] + ([sep] + Join(parts[1..], sep))
  {
  }

  /** Splitting undoes joining parts that do not contain the separator. */
  lemma {:induction false} SplitJoin(parts: seq<string>, sep: char)
    requires |parts| >= 1
    requires forall k :: 0 <= k < |parts| ==> sep !in parts[k]
    ensures Split(Join(parts, sep), sep) == parts
    decreases |parts|
  {
    var h := parts[0];
    assert NoneIn(h, {sep});
    if |parts| == 1 {
      BreakUnique(h, [], {sep});
      assert h + [] == h;
    } else {
      var tail := Join(parts[1..], sep);
      JoinCons(parts, sep);
      SplitAt(h, [sep] + tail, sep);
      assert ([sep] + tail)[1..] == tail;
      SplitJoin(parts[1..], sep);
      assert parts == [h] + parts[1..];
    }
  }
}
