/** The Python `str` operations the interpolation engine relies on:
    `p in s`, `s.replace(p, r)`, `s.split(c)`, `sep.join(parts)` and
    `s.strip()` / `s.strip(chars)`. `IndexOf` is the leftmost search behind
    `in`, `replace` and `split`. */
module PyStr {
  import opened Outcomes

  /** `p` occurs in `s` starting at index `i`. */
  predicate OccursAt(s: string, p: string, i: nat) {
    i + |p| <= |s| && s[i..i + |p|] == p
  }

  /** The leftmost occurrence of `p` in `s` at or after `from`. */
  function IndexFrom(s: string, p: string, from: nat): (r: Option<nat>)
    decreases |s| - from
    ensures r.Some? ==> from <= r.value && OccursAt(s, p, r.value)
    ensures forall k: nat :: from <= k && (r.None? || k < r.value) ==> !OccursAt(s, p, k)
  {
    if from + |p| > |s| then None
    else if s[from..from + |p|] == p then Some(from)
    else IndexFrom(s, p, from + 1)
  }

  /** `s.find(p)`, with `None` for -1: the leftmost occurrence of `p`. */
  function IndexOf(s: string, p: string): (r: Option<nat>)
    ensures r.Some? ==> OccursAt(s, p, r.value)
    ensures forall k: nat :: (r.None? || k < r.value) ==> !OccursAt(s, p, k)
  {
    IndexFrom(s, p, 0)
  }

  /** `p in s`. */
  function Contains(s: string, p: string): (b: bool)
    ensures b <==> exists k: nat :: OccursAt(s, p, k)
  {
    IndexOf(s, p).Some?
  }

  /** `s.replace(p, rep)` for a non-empty `p`: every occurrence found by a
      left-to-right scan that resumes after each match is replaced. */
  function ReplaceAll(s: string, p: string, rep: string): (r: string)
    requires |p| > 0
    ensures !Contains(s, p) ==> r == s
    decreases |s|
  {
    match IndexOf(s, p)
    case None => s
    case Some(k) => s[..k] + rep + ReplaceAll(s[k + |p|..], p, rep)
  }

  /** `s.split(p)` for a non-empty `p`: the text between consecutive
      occurrences; no piece contains `p`. */
  function Pieces(s: string, p: string): (r: seq<string>)
    requires |p| > 0
    ensures |r| >= 1
    ensures forall i :: 0 <= i < |r| ==> !Contains(r[i], p)
    decreases |s|
  {
    match IndexOf(s, p)
    case None => [s]
    case Some(k) =>
      PrefixBeforeFirst(s, p, k);
      [s[..k]] + Pieces(s[k + |p|..], p)
  }

  /** The text before the first occurrence of `p` does not contain `p`. */
  lemma PrefixBeforeFirst(s: string, p: string, k: nat)
    requires |p| > 0 && IndexOf(s, p) == Some(k)
    ensures !Contains(s[..k], p)
  {
    forall j: nat | OccursAt(s[..k], p, j)
      ensures false
    {
      assert j < k;
      assert s[..k][j..j + |p|] == s[j..j + |p|];
      assert OccursAt(s, p, j);
    }
  }

  /** `sep.join(parts)`. */
  function JoinWith(parts: seq<string>, sep: string): string
    decreases |parts|
  {
    if |parts| == 0 then ""
    else if |parts| == 1 then parts[0]
    else parts[0] + sep + JoinWith(parts[1..], sep)
  }

  /** The combined length of the parts. */
  function PartsLength(parts: seq<string>): nat {
    if parts == [] then 0 else |parts[0]| + PartsLength(parts[1..])
  }

  /** A join holds every part once and the separator once between each two
      neighbours, and it starts with the first part. */
  lemma {:induction false} JoinLength(parts: seq<string>, sep: string)
    requires |parts| > 0
    ensures |JoinWith(parts, sep)| == PartsLength(parts) + (|parts| - 1) * |sep|
    ensures parts[0] <= JoinWith(parts, sep)
    decreases |parts|
  {
    if |parts| > 1 {
      JoinLength(parts[1..], sep);
    }
  }

  lemma JoinCons(h: string, ps: seq<string>, sep: string)
    requires |ps| >= 1
    ensures JoinWith([h] + ps, sep) == h + sep + JoinWith(ps, sep)
  {
    assert ([h] + ps)[1..] == ps;
  }

  /** An occurrence splits the text into before, pattern and after. */
  lemma AroundOccurrence(s: string, p: string, k: nat)
    requires OccursAt(s, p, k)
    ensures s == s[..k] + p + s[k + |p|..]
  {
    assert s[k..] == s[k..k + |p|] + s[k + |p|..];
    assert s == s[..k] + s[k..];
  }

  /** Joining the pieces back with the pattern restores the text:
      `p.join(s.split(p)) == s`. */
  lemma {:induction false} PiecesRejoin(s: string, p: string)
    requires |p| > 0
    ensures JoinWith(Pieces(s, p), p) == s
    decreases |s|
  {
    match IndexOf(s, p)
    case None =>
    case Some(k) =>
      var rest := s[k + |p|..];
      PiecesRejoin(rest, p);
      var ps := Pieces(rest, p);
      assert Pieces(s, p) == [s[..k]] + ps;
      JoinCons(s[..k], ps, p);
      AroundOccurrence(s, p, k);
  }

  /** Replacement rewrites exactly the occurrences and keeps every other
      character: `s.replace(p, rep) == rep.join(s.split(p))`. */
  lemma {:induction false} ReplaceAllIsJoin(s: string, p: string, rep: string)
    requires |p| > 0
    ensures ReplaceAll(s, p, rep) == JoinWith(Pieces(s, p), rep)
    decreases |s|
  {
    match IndexOf(s, p)
    case None =>
    case Some(k) =>
      var rest := s[k + |p|..];
      ReplaceAllIsJoin(rest, p, rep);
      var ps := Pieces(rest, p);
      assert Pieces(s, p) == [s[..k]] + ps;
      JoinCons(s[..k], ps, rep);
  }

  /** No occurrence of `p` in `pre + p` starts inside `pre`, so the `p`
      that follows `pre` is the first one, whatever comes after it. */
  predicate FirstAfter(pre: string, p: string) {
    forall k: nat :: k < |pre| ==> !OccursAt(pre + p, p, k)
  }

  lemma {:induction false} FirstOccurrence(pre: string, p: string, post: string)
    requires FirstAfter(pre, p)
    ensures IndexOf(pre + p + post, p) == Some(|pre|)
  {
    var s := pre + p + post;
    assert s[|pre|..|pre| + |p|] == p;
    assert OccursAt(s, p, |pre|);
    forall k: nat | k < |pre|
      ensures !OccursAt(s, p, k)
    {
      if OccursAt(s, p, k) {
        assert (pre + p)[k..k + |p|] == s[k..k + |p|];
        assert OccursAt(pre + p, p, k);
      }
    }
  }

  /** A pattern whose last character occurs nowhere else in it and not in
      `pre` cannot start inside `pre`. */
  lemma {:induction false} LastCharGuard(pre: string, p: string)
    requires |p| > 0
    requires p[|p| - 1] !in pre && p[|p| - 1] !in p[..|p| - 1]
    ensures FirstAfter(pre, p)
  {
    var c := p[|p| - 1];
    var s := pre + p;
    forall k: nat | k < |pre|
      ensures !OccursAt(s, p, k)
    {
      var e := k + |p| - 1;
      if e < |pre| {
        assert s[e] == pre[e];
      } else {
        assert s[e] == p[..|p| - 1][e - |pre|];
      }
      assert s[e] != c;
      assert s[k..k + |p|][|p| - 1] == s[e];
    }
  }

  /** A longer pattern that begins with `p` cannot start inside `pre` either. */
  lemma FirstAfterExtends(pre: string, p: string, q: string)
    requires FirstAfter(pre, p)
    ensures FirstAfter(pre, p + q)
  {
    forall k: nat | k < |pre|
      ensures !OccursAt(pre + (p + q), p + q, k)
    {
      var s := pre + (p + q);
      if k + |p + q| <= |s| {
        assert s[k..k + |p + q|][..|p|] == s[k..k + |p|];
        assert s[k..k + |p|] == (pre + p)[k..k + |p|];
        assert !OccursAt(pre + p, p, k);
        assert (p + q)[..|p|] == p;
      }
    }
  }

  /** A text with exactly one occurrence gets exactly that span rewritten. */
  lemma {:induction false} ReplaceSingle(pre: string, p: string, post: string, rep: string)
    requires |p| > 0 && FirstAfter(pre, p) && !Contains(post, p)
    ensures ReplaceAll(pre + p + post, p, rep) == pre + rep + post
  {
    var s := pre + p + post;
    FirstOccurrence(pre, p, post);
    assert s[..|pre|] == pre;
    assert s[|pre| + |p|..] == post;
  }

  /** An occurrence of a one-character pattern is that character. */
  lemma SingleCharOccurs(s: string, c: char, k: nat)
    ensures OccursAt(s, [c], k) <==> k < |s| && s[k] == c
  {
    if k < |s| && s[k] == c {
      assert s[k..k + 1] == [c];
    }
  }

  /** `[c] in s` is `c in s`. */
  lemma ContainsChar(s: string, c: char)
    ensures Contains(s, [c]) <==> c in s
  {
    if c in s {
      var k :| 0 <= k < |s| && s[k] == c;
      SingleCharOccurs(s, c, k);
    }
    forall k: nat | OccursAt(s, [c], k) ensures c in s {
      SingleCharOccurs(s, c, k);
    }
  }

  /** A pattern holding a character the text lacks does not occur in it. */
  lemma AbsentChar(s: string, p: string, c: char)
    requires c in p && c !in s
    ensures !Contains(s, p)
  {
    var i :| 0 <= i < |p| && p[i] == c;
    forall k: nat ensures !OccursAt(s, p, k) {
      if k + |p| <= |s| {
        assert s[k..k + |p|][i] == s[k + i];
        assert s[k + i] != c;
      }
    }
  }

  /** Joining keeps out a character that neither the parts nor the separator hold. */
  lemma {:induction false} JoinAvoids(parts: seq<string>, sep: string, c: char)
    requires c !in sep && forall i :: 0 <= i < |parts| ==> c !in parts[i]
    ensures c !in JoinWith(parts, sep)
    decreases |parts|
  {
    if |parts| > 1 {
      JoinAvoids(parts[1..], sep, c);
    }
  }

  /** Splitting on one character undoes joining with it, for parts that do
      not contain it: `c.join(parts).split(c) == parts`. */
  lemma {:induction false} SplitJoin(parts: seq<string>, c: char)
    requires |parts| >= 1
    requires forall i :: 0 <= i < |parts| ==> c !in parts[i]
    ensures Pieces(JoinWith(parts, [c]), [c]) == parts
    decreases |parts|
  {
    var s := JoinWith(parts, [c]);
    var h := parts[0];
    forall k: nat | k < |h|
      ensures !OccursAt(s, [c], k)
    {
      SingleCharOccurs(s, c, k);
      if |parts| > 1 {
        assert s == h + [c] + JoinWith(parts[1..], [c]);
      }
      assert s[k] == h[k];
    }
    if |parts| == 1 {
      forall k: nat ensures !OccursAt(s, [c], k) {
        SingleCharOccurs(s, c, k);
        if k < |s| { assert s[k] == h[k]; }
      }
      assert IndexOf(s, [c]) == None;
    } else {
      var t := JoinWith(parts[1..], [c]);
      assert s == h + [c] + t;
      SingleCharOccurs(s, c, |h|);
      assert IndexOf(s, [c]) == Some(|h|);
      assert s[..|h|] == h;
      assert s[|h| + 1..] == t;
      SplitJoin(parts[1..], c);
      assert parts == [h] + parts[1..];
    }
  }

  /** The first index at or after `i` whose character is kept. */
  function SkipFrom(s: string, drop: char -> bool, i: nat): (a: nat)
    requires i <= |s|
    ensures i <= a <= |s|
    ensures forall k :: i <= k < a ==> drop(s[k])
    ensures a == |s| || !drop(s[a])
    decreases |s| - i
  {
    if i < |s| && drop(s[i]) then SkipFrom(s, drop, i + 1) else i
  }

  /** Moving `j` left past dropped characters, never below `lo`. */
  function TrimTo(s: string, drop: char -> bool, lo: nat, j: nat): (b: nat)
    requires lo <= j <= |s|
    ensures lo <= b <= j
    ensures forall k :: b <= k < j ==> drop(s[k])
    ensures b == lo || !drop(s[b - 1])
    decreases j
  {
    if j > lo && drop(s[j - 1]) then TrimTo(s, drop, lo, j - 1) else j
  }

  /** `s.strip(chars)`: any number of leading and trailing characters in the
      set are removed; what is left is a slice of `s` that begins and ends
      with a kept character. */
  function Strip(s: string, drop: char -> bool): (r: string)
    ensures exists a: nat :: StrippedAt(s, r, a, drop)
    ensures r == [] || (!drop(r[0]) && !drop(r[|r| - 1]))
    ensures forall c :: c in r ==> c in s
  {
    var a := SkipFrom(s, drop, 0);
    var b := TrimTo(s, drop, a, |s|);
    assert StrippedAt(s, s[a..b], a, drop);
    s[a..b]
  }

  /** A text whose ends are kept already is its own strip. */
  lemma StripKeeps(s: string, drop: char -> bool)
    requires s == [] || (!drop(s[0]) && !drop(s[|s| - 1]))
    ensures Strip(s, drop) == s
  {
    assert SkipFrom(s, drop, 0) == 0;
    assert TrimTo(s, drop, 0, |s|) == |s|;
  }

  /** Stripping twice removes nothing more than stripping once. */
  lemma StripIdempotent(s: string, drop: char -> bool)
    ensures Strip(Strip(s, drop), drop) == Strip(s, drop)
  {
    StripKeeps(Strip(s, drop), drop);
  }

  /** `r` is the slice of `s` starting at `a`, and every character of `s`
      outside that slice satisfies `drop`. */
  predicate StrippedAt(s: string, r: string, a: nat, drop: char -> bool) {
    && a + |r| <= |s| && r == s[a..a + |r|]
    && (forall i :: 0 <= i < a ==> drop(s[i]))
    && (forall i :: a + |r| <= i < |s| ==> drop(s[i]))
  }

  /** The characters `str.isspace()` accepts, which `str.strip()` removes. */
  predicate IsSpace(c: char) {
    || ('\t' <= c <= '\r')
    || ('\U{1C}' <= c <= '\U{1F}')
    || c == ' '
    || c == '\U{85}'
    || c == '\U{A0}'
    || c == '\U{1680}'
    || ('\U{2000}' <= c <= '\U{200A}')
    || c == '\U{2028}'
    || c == '\U{2029}'
    || c == '\U{202F}'
    || c == '\U{205F}'
    || c == '\U{3000}'
  }
}
