/**
 The handful of operations from Go's `strings` package that the probe-target
 generator uses: `Split` and `Join` on "/", `TrimSpace`, `ToUpper`, and
 `Replace` with a count of one. Each is defined on `string` (a sequence of
 Unicode scalar values) and carries the contract Go documents for it.
 */
module Strings {
  import opened Options

  /* ---------------------------------------------------------------------- */
  /* White space and trimming                                               */
  /* ---------------------------------------------------------------------- */

  /** The characters Go's `unicode.IsSpace` accepts: '\t', '\n', '\v', '\f',
      '\r', ' ', U+0085, U+00A0, and the other code points of Unicode's
      White_Space property (U+1680, U+2000 to U+200A, U+2028, U+2029, U+202F,
      U+205F, U+3000). */
  const WhiteSpace: set<char> := {
    '\U{9}', '\U{A}', '\U{B}', '\U{C}', '\U{D}', '\U{20}', '\U{85}',
    '\U{A0}', '\U{1680}', '\U{2000}', '\U{2001}', '\U{2002}', '\U{2003}', '\U{2004}',
    '\U{2005}', '\U{2006}', '\U{2007}', '\U{2008}', '\U{2009}', '\U{200A}', '\U{2028}',
    '\U{2029}', '\U{202F}', '\U{205F}', '\U{3000}'
  }

  /** Go's `unicode.IsSpace`. */
  predicate IsSpace(c: char) {
    c in WhiteSpace
  }

  /** Go's `strings.TrimSpace`: leading and trailing white space removed. The
      result neither starts nor ends with white space. */
  function TrimSpace(s: string): (r: string)
    ensures |r| <= |s|
    ensures r == [] || (!IsSpace(r[0]) && !IsSpace(r[|r| - 1]))
  {
    if s != [] && IsSpace(s[0]) then TrimSpace(s[1..])
    else if s != [] && IsSpace(s[|s| - 1]) then TrimSpace(s[..|s| - 1])
    else s
  }

  /** The trimmed text is the infix of `s` that only white space surrounds. */
  lemma {:induction false} TrimSpaceInfix(s: string)
    ensures exists a :: TrimmedAt(s, TrimSpace(s), a)
  {
    var r := TrimSpace(s);
    if s != [] && IsSpace(s[0]) {
      TrimSpaceInfix(s[1..]);
      var a :| TrimmedAt(s[1..], r, a);
      assert TrimmedAt(s, r, a + 1) by {
        forall k | 0 <= k < a + 1
          ensures IsSpace(s[k])
        {
          if k > 0 {
            assert s[k] == s[1..][k - 1];
          }
        }
        forall k | a + 1 + |r| <= k < |s|
          ensures IsSpace(s[k])
        {
          assert s[k] == s[1..][k - 1];
        }
        assert s[a + 1..a + 1 + |r|] == s[1..][a..a + |r|];
      }
    } else if s != [] && IsSpace(s[|s| - 1]) {
      var t := s[..|s| - 1];
      TrimSpaceInfix(t);
      var a :| TrimmedAt(t, r, a);
      assert a == 0 by {
        assert !IsSpace(t[0]);
      }
      assert TrimmedAt(s, r, 0) by {
        forall k | |r| <= k < |s|
          ensures IsSpace(s[k])
        {
          if k < |s| - 1 {
            assert s[k] == t[k];
          }
        }
        assert s[..|r|] == t[..|r|];
      }
    } else {
      assert TrimmedAt(s, r, 0);
    }
  }

  /** Trimming only removes characters: one absent from `s` is absent from
      the result. */
  lemma {:induction false} TrimSpaceKeepsOut(s: string, c: char)
    requires c !in s
    ensures c !in TrimSpace(s)
  {
    var r := TrimSpace(s);
    TrimSpaceInfix(s);
    var a :| TrimmedAt(s, r, a);
    forall k | 0 <= k < |r|
      ensures r[k] != c
    {
      assert r[k] == s[a + k];
    }
  }

  /** `r` sits at offset `a` of `s` with only white space around it. */
  ghost predicate TrimmedAt(s: string, r: string, a: int) {
    && 0 <= a && a + |r| <= |s|
    && r == s[a..a + |r|]
    && (forall k :: 0 <= k < a ==> IsSpace(s[k]))
    && (forall k :: a + |r| <= k < |s| ==> IsSpace(s[k]))
  }

  /* ---------------------------------------------------------------------- */
  /* Upper-casing                                                            */
  /* ---------------------------------------------------------------------- */

  predicate IsLower(c: char) {
    'a' <= c <= 'z'
  }

  /** The ASCII case mapping of Go's `unicode.ToUpper`. */
  function UpperChar(c: char): char {
    if IsLower(c) then (c as int - 32) as char else c
  }

  /** Go's `strings.ToUpper`, restricted to the ASCII case mapping: every
      character is mapped on its own, so the length never changes. */
  function ToUpper(s: string): (r: string)
    ensures |r| == |s|
  {
    if s == [] then [] else [UpperChar(s[0])] + ToUpper(s[1..])
  }

  /** Each character of the upper-cased text is its own upper-case. */
  lemma {:induction false} ToUpperAt(s: string)
    ensures forall k :: 0 <= k < |s| ==> ToUpper(s)[k] == UpperChar(s[k])
  {
    if s != [] {
      ToUpperAt(s[1..]);
      forall k | 0 <= k < |s|
        ensures ToUpper(s)[k] == UpperChar(s[k])
      {
        if k > 0 {
          assert ToUpper(s)[k] == ToUpper(s[1..])[k - 1];
        }
      }
    }
  }

  /** Upper-casing changes a string exactly when it holds a lower-case letter. */
  lemma {:induction false} ToUpperChanges(s: string)
    ensures ToUpper(s) != s <==> exists k :: 0 <= k < |s| && IsLower(s[k])
  {
    ToUpperAt(s);
    if exists k :: 0 <= k < |s| && IsLower(s[k]) {
      var k :| 0 <= k < |s| && IsLower(s[k]);
      assert ToUpper(s)[k] != s[k];
    } else {
      assert forall k :: 0 <= k < |s| ==> ToUpper(s)[k] == s[k];
    }
  }

  /** Upper-casing is applied piece by piece. */
  lemma ToUpperAppend(a: string, b: string)
    ensures ToUpper(a + b) == ToUpper(a) + ToUpper(b)
  {
    ToUpperAt(a);
    ToUpperAt(b);
    ToUpperAt(a + b);
    assert forall k :: 0 <= k < |a + b| ==> ToUpper(a + b)[k] == (ToUpper(a) + ToUpper(b))[k];
  }

  /** Upper-casing twice is upper-casing once. */
  lemma {:induction false} ToUpperIdempotent(s: string)
    ensures ToUpper(ToUpper(s)) == ToUpper(s)
  {
    ToUpperAt(s);
    ToUpperAt(ToUpper(s));
    assert forall k :: 0 <= k < |s| ==> ToUpper(ToUpper(s))[k] == ToUpper(s)[k];
  }

  /* ---------------------------------------------------------------------- */
  /* Split and Join on '/'                                                   */
  /* ---------------------------------------------------------------------- */

  /** Number of occurrences of `c` in `s`. */
  function CountChar(s: string, c: char): nat {
    if s == [] then 0 else (if s[0] == c then 1 else 0) + CountChar(s[1..], c)
  }

  /** Go's `strings.Join(parts, "/")`. */
  function Join(parts: seq<string>): string {
    if |parts| == 0 then ""
    else if |parts| == 1 then parts[0]
    else parts[0] + "/" + Join(parts[1..])
  }

  /** A join starts with the first piece and ends with the last one. */
  lemma {:induction false} JoinEnds(parts: seq<string>)
    requires |parts| >= 1
    ensures |parts[0]| <= |Join(parts)| && Join(parts)[..|parts[0]|] == parts[0]
    ensures |parts[|parts| - 1]| <= |Join(parts)|
    ensures Join(parts)[|Join(parts)| - |parts[|parts| - 1]|..] == parts[|parts| - 1]
    decreases |parts|
  {
    if |parts| > 1 {
      JoinEnds(parts[1..]);
      assert Join(parts) == (parts[0] + "/") + Join(parts[1..]);
    }
  }

  /** Go's `strings.Split(s, "/")`: one more piece than there are slashes,
      no piece holds a slash, and joining the pieces gives `s` back. */
  function Split(s: string): (r: seq<string>)
    ensures |r| == CountChar(s, '/') + 1
    ensures forall k :: 0 <= k < |r| ==> '/' !in r[k]
    ensures Join(r) == s
  {
    if s == [] then [""]
    else
      var rest := Split(s[1..]);
      if s[0] == '/' then
        assert s == "/" + s[1..];
        [""] + rest
      else
        var r := [[s[0]] + rest[0]] + rest[1..];
        assert r[1..] == rest[1..];
        assert s == [s[0]] + s[1..];
        r
  }

  /** Splitting text that starts with a slash-free piece `x`. */
  lemma {:induction false} SplitPrepend(x: string, t: string)
    requires '/' !in x
    ensures Split(x + t) == [x + Split(t)[0]] + Split(t)[1..]
    decreases |x|
  {
    if x == [] {
      assert x + t == t;
      assert x + Split(t)[0] == Split(t)[0];
      assert Split(t) == [Split(t)[0]] + Split(t)[1..];
    } else {
      assert (x + t)[1..] == x[1..] + t;
      SplitPrepend(x[1..], t);
      assert [x[0]] + (x[1..] + Split(t)[0]) == x + Split(t)[0];
    }
  }

  /** Round trip: splitting the join of slash-free pieces gives the pieces back. */
  lemma {:induction false} SplitJoin(parts: seq<string>)
    requires |parts| >= 1
    requires forall k :: 0 <= k < |parts| ==> '/' !in parts[k]
    ensures Split(Join(parts)) == parts
    decreases |parts|
  {
    if |parts| == 1 {
      SplitPrepend(parts[0], "");
      assert parts[0] + "" == parts[0];
    } else {
      var tail := Join(parts[1..]);
      SplitJoin(parts[1..]);
      assert ("/" + tail)[1..] == tail;
      assert Split("/" + tail) == [""] + parts[1..];
      assert Join(parts) == parts[0] + ("/" + tail);
      SplitPrepend(parts[0], "/" + tail);
      assert parts[0] + "" == parts[0];
      assert [parts[0]] + parts[1..] == parts;
    }
  }

  /** Joining two non-empty lists puts one slash between their joins. */
  lemma {:induction false} JoinAppend(a: seq<string>, b: seq<string>)
    requires |a| >= 1 && |b| >= 1
    ensures Join(a + b) == Join(a) + "/" + Join(b)
    decreases |a|
  {
    if |a| == 1 {
      assert (a + b)[1..] == b;
    } else {
      assert (a + b)[1..] == a[1..] + b;
      JoinAppend(a[1..], b);
    }
  }

  /** Replacing piece `i` of a list changes the join only at that piece's
      place: the text before it and after it is kept. */
  lemma JoinUpdate(parts: seq<string>, i: nat, x: string)
    requires i < |parts|
    ensures Join(parts[i := x]) == JoinHead(parts, i) + x + JoinTail(parts, i)
  {
    var p := parts[i := x];
    if i > 0 {
      assert p == parts[..i] + ([x] + parts[i + 1..]);
      JoinAppend(parts[..i], [x] + parts[i + 1..]);
    } else {
      assert p == [x] + parts[1..];
    }
    if i + 1 < |parts| {
      JoinAppend([x], parts[i + 1..]);
    }
  }

  /** The text `Join` writes before piece `i`. */
  function JoinHead(parts: seq<string>, i: nat): string
    requires i <= |parts|
  {
    if i == 0 then "" else Join(parts[..i]) + "/"
  }

  /** The text `Join` writes after piece `i`. */
  function JoinTail(parts: seq<string>, i: nat): string
    requires i < |parts|
  {
    if i + 1 < |parts| then "/" + Join(parts[i + 1..]) else ""
  }

  /* ---------------------------------------------------------------------- */
  /* First-occurrence search and replacement                                */
  /* ---------------------------------------------------------------------- */

  /** `tok` occurs in `s` starting at index `j`. */
  predicate OccursAt(s: string, tok: string, j: int) {
    0 <= j && j + |tok| <= |s| && s[j..j + |tok|] == tok
  }

  /** `j` is the leftmost occurrence of `tok` in `s`. */
  predicate FirstOccurrence(s: string, tok: string, j: int) {
    OccursAt(s, tok, j) && forall k :: 0 <= k < j ==> !OccursAt(s, tok, k)
  }

  /** `tok` does not occur in `s` at all. */
  predicate Absent(s: string, tok: string) {
    forall k :: 0 <= k <= |s| ==> !OccursAt(s, tok, k)
  }

  /** Leftmost occurrence of `tok` in `s` at or after `j` (Go's `strings.Index`
      started at `j`). */
  function IndexFrom(s: string, tok: string, j: nat): (r: Option<nat>)
    ensures r.None? ==> forall k :: j <= k ==> !OccursAt(s, tok, k)
    ensures r.Some? ==> j <= r.value && OccursAt(s, tok, r.value)
    ensures r.Some? ==> forall k :: j <= k < r.value ==> !OccursAt(s, tok, k)
    decreases |s| - j
  {
    if j + |tok| > |s| then None
    else if s[j..j + |tok|] == tok then Some(j)
    else IndexFrom(s, tok, j + 1)
  }

  /** Go's `strings.Replace(s, tok, rep, 1)`: the leftmost occurrence of `tok`
      is replaced by `rep`, and the text before and after it, later occurrences
      included, is kept; without an occurrence `s` is returned as it is. */
  function ReplaceFirst(s: string, tok: string, rep: string): (r: string)
    ensures Absent(s, tok) ==> r == s
    ensures forall j :: FirstOccurrence(s, tok, j) ==> r == s[..j] + rep + s[j + |tok|..]
  {
    match IndexFrom(s, tok, 0)
    case None => s
    case Some(j) => s[..j] + rep + s[j + |tok|..]
  }

  /** Placing `tok` after text `h` in which it does not occur, and where no
      occurrence can straddle the boundary, makes it the leftmost one. */
  lemma FirstAfterClean(h: string, tok: string, t: string)
    requires |tok| >= 1
    requires Absent(h, tok)
    requires forall m :: 1 <= m < |tok| ==> tok[m] != tok[0]
    ensures FirstOccurrence(h + tok + t, tok, |h|)
  {
    var s := h + tok + t;
    assert s[|h|..|h| + |tok|] == tok;
    forall k | 0 <= k < |h|
      ensures !OccursAt(s, tok, k)
    {
      if k + |tok| <= |h| {
        assert s[k..k + |tok|] == h[k..k + |tok|];
        assert !OccursAt(h, tok, k);
      } else {
        var m := |h| - k;
        assert s[|h|] == tok[0];
        assert s[k..k + |tok|][m] == s[|h|];
        assert tok[m] != tok[0];
      }
    }
  }

  /** Hence replacing the first `tok` after such text `h` keeps `h` and
      everything after the occurrence. */
  lemma ReplaceAfterClean(h: string, tok: string, t: string, rep: string)
    requires |tok| >= 1
    requires Absent(h, tok)
    requires forall m :: 1 <= m < |tok| ==> tok[m] != tok[0]
    ensures ReplaceFirst(h + tok + t, tok, rep) == h + rep + t
  {
    var s := h + tok + t;
    FirstAfterClean(h, tok, t);
    assert s[..|h|] == h;
    assert s[|h| + |tok|..] == t;
  }
}
