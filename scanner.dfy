/** `re.search(NAME + r"\((.*?)\)", text)` for a literal call opener such as
    `log_expense(`: the leftmost position where the opener is followed by the
    shortest run of non-newline characters and then `)`. */
module CallScanner {
  import opened Outcomes
  import opened PyStr

  /** A match: `start` is where the opener begins, `close` the index of the
      closing parenthesis. */
  datatype Span = Span(start: nat, close: nat)

  /** `.*?\)` matches from `from` up to the `)` at `close`: that is the first
      `)` after `from`, and no newline comes before it (`.` does not match a
      newline). */
  predicate ClosesAt(s: string, from: nat, close: nat) {
    && from <= close < |s|
    && s[close] == ')'
    && forall t :: from <= t < close ==> s[t] != ')' && s[t] != '\n'
  }

  /** The whole pattern matches at `start`, closing at `close`. */
  predicate MatchesAt(s: string, opener: string, start: nat, close: nat) {
    OccursAt(s, opener, start) && ClosesAt(s, start + |opener|, close)
  }

  /** The lazy `(.*?)\)`: scan for the first `)` or newline. */
  function CloseFrom(s: string, from: nat): (r: Option<nat>)
    ensures r.Some? ==> ClosesAt(s, from, r.value)
    ensures r.None? ==> forall j: nat :: !ClosesAt(s, from, j)
    decreases |s| - from
  {
    if from >= |s| || s[from] == '\n' then None
    else if s[from] == ')' then Some(from)
    else
      var r := CloseFrom(s, from + 1);
      assert forall j: nat :: ClosesAt(s, from, j) ==> ClosesAt(s, from + 1, j);
      r
  }

  /** The search, trying each start position from `i` on. */
  function FindFrom(s: string, opener: string, i: nat): (r: Option<Span>)
    ensures r.Some? ==> i <= r.value.start && MatchesAt(s, opener, r.value.start, r.value.close)
    ensures forall k: nat, j: nat :: i <= k && (r.None? || k < r.value.start) ==> !MatchesAt(s, opener, k, j)
    decreases |s| - i
  {
    if i + |opener| > |s| then None
    else if OccursAt(s, opener, i) && CloseFrom(s, i + |opener|).Some? then
      Some(Span(i, CloseFrom(s, i + |opener|).value))
    else FindFrom(s, opener, i + 1)
  }

  /** `re.search`: the leftmost match, or `None` when there is no match at all. */
  function FindCall(s: string, opener: string): (r: Option<Span>)
    ensures r.Some? ==> MatchesAt(s, opener, r.value.start, r.value.close)
    ensures forall k: nat, j: nat :: (r.None? || k < r.value.start) ==> !MatchesAt(s, opener, k, j)
  {
    FindFrom(s, opener, 0)
  }

  /** There is only one closing position for a given start. */
  lemma ClosesAtUnique(s: string, from: nat, c1: nat, c2: nat)
    requires ClosesAt(s, from, c1) && ClosesAt(s, from, c2)
    ensures c1 == c2
  {
  }

  /** `match.group(1)`: the raw argument text between the parentheses, which
      holds no `)` and no newline. */
  function Args(s: string, opener: string, m: Span): (a: string)
    requires MatchesAt(s, opener, m.start, m.close)
    ensures |a| == m.close - m.start - |opener|
    ensures ')' !in a && '\n' !in a
  {
    s[m.start + |opener|..m.close]
  }

  /** `match.group(0)`: the whole call, the opener, the arguments and `)`. */
  function Whole(s: string, opener: string, m: Span): (w: string)
    requires MatchesAt(s, opener, m.start, m.close)
    ensures w == opener + Args(s, opener, m) + ")"
    ensures ')' !in Args(s, opener, m) && '\n' !in Args(s, opener, m)
  {
    var w := s[m.start..m.close + 1];
    assert w == s[m.start..m.start + |opener|] + s[m.start + |opener|..m.close] + [s[m.close]];
    w
  }

  /** The search finds the call written right after a text in which the
      opener does not start: with its arguments and its span. */
  lemma {:induction false} FindsCallAfter(pre: string, opener: string, args: string, post: string)
    requires FirstAfter(pre, opener)
    requires ')' !in args && '\n' !in args
    ensures var s := pre + opener + args + ")" + post;
            var m := Span(|pre|, |pre| + |opener| + |args|);
            && FindCall(s, opener) == Some(m)
            && Args(s, opener, m) == args
            && Whole(s, opener, m) == opener + args + ")"
  {
    var s := pre + opener + args + ")" + post;
    var close := |pre| + |opener| + |args|;
    FirstOccurrence(pre, opener, args + ")" + post);
    assert pre + opener + (args + ")" + post) == s;
    assert OccursAt(s, opener, |pre|);
    forall t | |pre| + |opener| <= t < close
      ensures s[t] != ')' && s[t] != '\n'
    {
      assert s[t] == args[t - |pre| - |opener|];
    }
    assert s[close] == ')';
    assert MatchesAt(s, opener, |pre|, close);
    var r := FindCall(s, opener);
    forall k: nat, j: nat | k < |pre|
      ensures !MatchesAt(s, opener, k, j)
    {
      assert !OccursAt(s, opener, k);
    }
    assert r.Some? && r.value.start == |pre|;
    ClosesAtUnique(s, |pre| + |opener|, r.value.close, close);
    assert s[|pre| + |opener|..close] == args;
  }
}
