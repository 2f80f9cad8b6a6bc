// The * / ? matcher behind the autocomplete pattern filter.
module Glob {

  // The documented meaning of a pattern: '*' matches any run of runes,
  // '?' any single rune, every other rune itself.
  ghost predicate Matches(p: string, s: string)
    decreases |p|
  {
    if p == [] then s == []
    else if p[0] == '*' then exists k :: 0 <= k <= |s| && Matches(p[1..], s[k..])
    else s != [] && SameRune(p[0], s[0]) && Matches(p[1..], s[1..])
  }

  // What the loop really decides: the test for an equal rune comes before the
  // test for a star, so a '*' of the pattern that faces a '*' of the subject
  // is an ordinary rune.
  ghost predicate MatchesLiteralFirst(p: string, s: string)
    decreases |p|
  {
    if p == [] then s == []
    else if s != [] && SameRune(p[0], s[0]) then MatchesLiteralFirst(p[1..], s[1..])
    else p[0] == '*' && exists k :: 0 <= k <= |s| && MatchesLiteralFirst(p[1..], s[k..])
  }

  predicate SameRune(p: char, c: char) {
    p == '?' || p == c
  }

  // p matches some suffix of s that starts at or after from.
  ghost predicate MatchesFrom(p: string, s: string, from: nat) {
    exists k :: from <= k <= |s| && MatchesLiteralFirst(p, s[k..])
  }

  // The loop state: either no star was met and everything so far was consumed
  // rune by rune, or the runes after the last star were, starting at mark.
  ghost predicate LoopState(p: string, s: string, star: int, mark: nat, pi: nat, si: nat) {
    && -1 <= star < pi <= |p|
    && mark <= si <= |s|
    && si - mark == pi - (star + 1)
    && (forall i :: star < i < pi ==> SameRune(p[i], s[mark + i - (star + 1)]))
    && (if star == -1 then mark == 0 else MatchesLiteralFirst(p, s) <==> MatchesFrom(p[star + 1..], s, mark))
  }

  // Consuming rune by rune is what the relation does at mark.
  lemma {:induction false} ConsumedAtMark(q: string, s: string, mark: nat, n: nat)
    requires n <= |q| && mark + n <= |s|
    requires forall i :: 0 <= i < n ==> SameRune(q[i], s[mark + i])
    ensures MatchesLiteralFirst(q, s[mark..]) <==> MatchesLiteralFirst(q[n..], s[mark + n..])
  {
    if n > 0 {
      assert s[mark..][0] == s[mark];
      assert s[mark..][1..] == s[mark + 1..];
      forall i | 0 <= i < n - 1 ensures SameRune(q[1..][i], s[mark + 1 + i]) {
        assert SameRune(q[i + 1], s[mark + (i + 1)]);
      }
      ConsumedAtMark(q[1..], s, mark + 1, n - 1);
      assert q[1..][n - 1..] == q[n..];
    } else {
      assert q[0..] == q && s[mark + 0..] == s[mark..];
    }
  }

  // A match that starts later never gets past the same n pattern runes earlier
  // than the rune-by-rune match at mark did.
  lemma {:induction false} LaterStartReachesNoEarlier(q: string, s: string, mark: nat, n: nat, k: nat)
    requires n <= |q| && mark + n <= |s| && mark <= k <= |s|
    requires forall i :: 0 <= i < n ==> SameRune(q[i], s[mark + i])
    requires MatchesLiteralFirst(q, s[k..])
    ensures MatchesFrom(q[n..], s, mark + n)
  {
    if n == 0 {
      assert q[0..] == q;
    } else {
      var k' := NextStart(q, s, k);
      assert k' >= mark + 1;
      forall i | 0 <= i < n - 1 ensures SameRune(q[1..][i], s[mark + 1 + i]) {
        assert SameRune(q[i + 1], s[mark + (i + 1)]);
      }
      LaterStartReachesNoEarlier(q[1..], s, mark + 1, n - 1, k');
      assert q[1..][n - 1..] == q[n..];
    }
  }

  // Where the rest of a matching pattern goes on after its first rune.
  lemma NextStart(q: string, s: string, k: nat) returns (k': nat)
    requires q != [] && k <= |s| && MatchesLiteralFirst(q, s[k..])
    ensures k <= k' <= |s| && MatchesLiteralFirst(q[1..], s[k'..])
    ensures q[0] != '*' || (k < |s| && s[k] == '*') ==> k < k'
  {
    FirstRune(q, s[k..]);
    hide MatchesLiteralFirst;
    if k < |s| && SameRune(q[0], s[k]) {
      k' := k + 1;
      assert s[k..][0] == s[k] && s[k..][1..] == s[k'..];
    } else {
      assert k < |s| ==> s[k..][0] == s[k];
      var j :| 0 <= j <= |s[k..]| && MatchesLiteralFirst(q[1..], s[k..][j..]);
      k' := k + j;
      assert s[k..][j..] == s[k'..];
    }
  }

  // The relation at the first rune of a pattern.
  lemma FirstRune(q: string, t: string)
    requires q != []
    ensures MatchesLiteralFirst(q, t) <==>
              if t != [] && SameRune(q[0], t[0]) then MatchesLiteralFirst(q[1..], t[1..])
              else q[0] == '*' && exists j :: 0 <= j <= |t| && MatchesLiteralFirst(q[1..], t[j..])
  {}

  // Meeting a star facing another rune: the earlier star can be forgotten.
  lemma StarStep(p: string, s: string, star: int, mark: nat, pi: nat, si: nat)
    requires LoopState(p, s, star, mark, pi, si)
    requires si < |s| && pi < |p| && p[pi] == '*' && s[si] != '*'
    ensures LoopState(p, s, pi, si, pi + 1, si)
  {
    var q, n := p[star + 1..], pi - (star + 1);
    assert q[n..] == p[pi..] && s[mark + n..] == s[si..];
    ConsumedAtMark(q, s, mark, n);
    assert p[pi..][0] == '*' && p[pi..][1..] == p[pi + 1..] && s[si..][0] == s[si];
    if MatchesLiteralFirst(p, s) {
      var k: nat := 0;
      if star == -1 {
        assert q == p && s[0..] == s;
      } else {
        k :| mark <= k <= |s| && MatchesLiteralFirst(q, s[k..]);
      }
      LaterStartReachesNoEarlier(q, s, mark, n, k);
      var j :| si <= j <= |s| && MatchesLiteralFirst(p[pi..], s[j..]);
      var j' := NextStart(p[pi..], s, j);
      assert MatchesFrom(p[pi + 1..], s, si);
    }
    if MatchesFrom(p[pi + 1..], s, si) {
      var j :| si <= j <= |s| && MatchesLiteralFirst(p[pi + 1..], s[j..]);
      assert s[si..][j - si..] == s[j..];
      assert MatchesLiteralFirst(p[pi..], s[si..]);
      assert MatchesLiteralFirst(q, s[mark..]);
      if star == -1 {
        assert q == p && s[0..] == s;
      }
    }
  }

  // A mismatch after a star: nothing matches from mark.
  lemma BacktrackStep(p: string, s: string, star: int, mark: nat, pi: nat, si: nat)
    requires LoopState(p, s, star, mark, pi, si) && star != -1
    requires si < |s|
    requires pi < |p| ==> !SameRune(p[pi], s[si]) && p[pi] != '*'
    ensures LoopState(p, s, star, mark + 1, star + 1, mark + 1)
  {
    var q, n := p[star + 1..], pi - (star + 1);
    assert q[n..] == p[pi..] && s[mark + n..] == s[si..];
    ConsumedAtMark(q, s, mark, n);
    assert s[si..][0] == s[si];
    assert !MatchesLiteralFirst(p[pi..], s[si..]);
  }

  // A mismatch before any star is final.
  lemma MismatchWithoutStar(p: string, s: string, pi: nat, si: nat)
    requires LoopState(p, s, -1, 0, pi, si)
    requires si < |s|
    requires pi < |p| ==> !SameRune(p[pi], s[si]) && p[pi] != '*'
    ensures !MatchesLiteralFirst(p, s)
  {
    assert s[0..] == s && s[0 + pi..] == s[si..];
    ConsumedAtMark(p, s, 0, pi);
    assert s[si..][0] == s[si];
  }

  // With the subject used up, only stars may be left.
  lemma {:induction false} EmptySubject(p: string)
    ensures MatchesLiteralFirst(p, []) <==> forall i :: 0 <= i < |p| ==> p[i] == '*'
  {
    if p != [] {
      EmptySubject(p[1..]);
      var e: string := [];
      assert e[0..] == e;
      assert p[0] == '*' && MatchesLiteralFirst(p[1..], e[0..]) ==> MatchesLiteralFirst(p, e);
      assert forall i :: 0 <= i < |p[1..]| ==> p[1..][i] == p[i + 1];
      if forall i :: 0 <= i < |p| ==> p[i] == '*' {
        assert forall i :: 0 <= i < |p[1..]| ==> p[1..][i] == '*';
      }
      if p[0] == '*' && forall i :: 0 <= i < |p[1..]| ==> p[1..][i] == '*' {
        forall i | 0 <= i < |p| ensures p[i] == '*' {
          if i > 0 { assert p[1..][i - 1] == '*'; }
        }
      }
    }
  }

  lemma SubjectUsedUp(p: string, s: string, star: int, mark: nat, pi: nat)
    requires LoopState(p, s, star, mark, pi, |s|)
    ensures MatchesLiteralFirst(p, s) <==> forall i :: pi <= i < |p| ==> p[i] == '*'
  {
    var q, n := p[star + 1..], pi - (star + 1);
    assert q[n..] == p[pi..] && s[mark + n..] == [] && s[|s|..] == [];
    ConsumedAtMark(q, s, mark, n);
    EmptySubject(p[pi..]);
    assert (forall i :: pi <= i < |p| ==> p[i] == '*') <==> (forall i :: 0 <= i < |p[pi..]| ==> p[pi..][i] == '*') by {
      assert forall i :: pi <= i < |p| ==> p[i] == p[pi..][i - pi];
    }
    if star == -1 {
      assert q == p && s[0..] == s;
    } else if MatchesFrom(q, s, mark) {
      var k :| mark <= k <= |s| && MatchesLiteralFirst(q, s[k..]);
      LaterStartReachesNoEarlier(q, s, mark, n, k);
      var j :| mark + n <= j <= |s| && MatchesLiteralFirst(q[n..], s[j..]);
      assert s[j..] == [];
    }
  }

  // The backtracking loop decides MatchesLiteralFirst, in at most
  // (|s| + 1) * (|p| + 1) iterations.
  method Glob(p: string, s: string) returns (ok: bool, ghost steps: nat)
    ensures ok == MatchesLiteralFirst(p, s)
    ensures steps <= (|s| + 1) * (|p| + 1)
  {
    var pi, si := 0, 0;
    var star, mark := -1, 0;
    steps := 0;
    while si < |s|
      invariant LoopState(p, s, star, mark, pi, si)
      invariant steps <= mark * (|p| + 1) + pi
      decreases |s| - mark, |p| - pi
    {
      StepBound(|p|, |s|, mark, pi, steps);
      ghost var mark0 := mark;
      if pi < |p| && (p[pi] == '?' || p[pi] == s[si]) {
        pi, si := pi + 1, si + 1;
      } else if pi < |p| && p[pi] == '*' {
        StarStep(p, s, star, mark, pi, si);
        star, mark, pi := pi, si, pi + 1;
      } else if star != -1 {
        BacktrackStep(p, s, star, mark, pi, si);
        pi := star + 1;
        mark := mark + 1;
        si := mark;
      } else {
        MismatchWithoutStar(p, s, pi, si);
        return false, steps + 1;
      }
      steps := steps + 1;
      MoreMarks(|p|, mark0, mark);
    }
    StepBound(|p|, |s|, mark, pi, steps);
    SubjectUsedUp(p, s, star, mark, pi);
    ghost var pi0 := pi;
    while pi < |p| && p[pi] == '*'
      invariant pi0 <= pi <= |p| && forall i :: pi0 <= i < pi ==> p[i] == '*'
    {
      pi := pi + 1;
    }
    ok := pi == |p|;
  }

  lemma StepBound(m: nat, n: nat, mark: nat, pi: nat, steps: nat)
    requires mark <= n && pi <= m && steps <= mark * (m + 1) + pi
    ensures steps < (n + 1) * (m + 1)
  {
    MoreMarks(m, mark, n);
  }

  lemma {:induction false} MoreMarks(m: nat, mark: nat, mark': nat)
    requires mark <= mark'
    ensures mark * (m + 1) <= mark' * (m + 1)
    ensures mark < mark' ==> mark * (m + 1) + m + 1 <= mark' * (m + 1)
    decreases mark' - mark
  {
    if mark < mark' {
      assert (mark + 1) * (m + 1) == mark * (m + 1) + m + 1;
      MoreMarks(m, mark + 1, mark');
    }
  }

  // A positive answer is always right.
  lemma {:induction false} LiteralFirstIsSound(p: string, s: string)
    requires MatchesLiteralFirst(p, s)
    ensures Matches(p, s)
    decreases |p|
  {
    if p != [] {
      if s != [] && SameRune(p[0], s[0]) {
        LiteralFirstIsSound(p[1..], s[1..]);
        assert p[0] == '*' ==> Matches(p[1..], s[1..]);
      } else {
        var k :| 0 <= k <= |s| && MatchesLiteralFirst(p[1..], s[k..]);
        LiteralFirstIsSound(p[1..], s[k..]);
      }
    }
  }

  // Without a '*' in the subject a negative answer is right as well.
  lemma {:induction false} LiteralFirstIsComplete(p: string, s: string)
    requires '*' !in s && Matches(p, s)
    ensures MatchesLiteralFirst(p, s)
    decreases |p|
  {
    if p != [] {
      if p[0] == '*' {
        var k :| 0 <= k <= |s| && Matches(p[1..], s[k..]);
        LiteralFirstIsComplete(p[1..], s[k..]);
        assert s != [] ==> s[0] in s;
      } else {
        LiteralFirstIsComplete(p[1..], s[1..]);
      }
    }
  }

  // n wildcards for exactly one rune each.
  function Questions(n: nat): (q: string)
    ensures |q| == n
    ensures forall i :: 0 <= i < n ==> q[i] == '?'
  {
    seq(n, i => '?')
  }

  lemma {:induction false} QuestionsMatch(s: string)
    ensures Matches(Questions(|s|), s)
    ensures !MatchesLiteralFirst(Questions(|s| + 1), s)
  {
    assert Questions(|s| + 1)[1..] == Questions(|s|);
    if s != [] {
      assert Questions(|s|)[1..] == Questions(|s| - 1);
      QuestionsMatch(s[1..]);
    }
  }

  // For a subject with a '*' at k, the pattern that repeats the subject up to
  // that star and then asks for one rune more than is left after it.
  function Witness(s: string, k: nat): string
    requires k < |s|
  {
    s[..k] + "*" + Questions(|s| - k)
  }

  lemma {:induction false} WitnessSplits(s: string, k: nat)
    requires k < |s| && s[k] == '*' && '*' !in s[..k]
    ensures Matches(Witness(s, k), s) && !MatchesLiteralFirst(Witness(s, k), s)
    decreases k
  {
    var p := Witness(s, k);
    if k == 0 {
      QuestionsMatch(s[1..]);
      assert p[1..] == Questions(|s|);
      QuestionsMatch(s);
      assert s[0..] == s;
      assert Matches(p[1..], s[0..]);
    } else {
      assert s[0] in s[..k];
      assert s[1..][..k - 1] == s[..k][1..];
      WitnessSplits(s[1..], k - 1);
      assert p[1..] == Witness(s[1..], k - 1);
    }
  }

  lemma FirstStar(s: string) returns (k: nat)
    requires '*' in s
    ensures k < |s| && s[k] == '*' && '*' !in s[..k]
  {
    k := 0;
    while s[k] != '*'
      invariant k < |s| && '*' !in s[..k] && '*' in s[k..]
      decreases |s| - k
    {
      assert s[k..][1..] == s[k + 1..];
      k := k + 1;
    }
  }

  // The matcher agrees with the documented meaning for every pattern exactly
  // when the subject has no '*' in it.
  lemma AgreesIffSubjectHasNoStar(s: string)
    ensures (forall p :: MatchesLiteralFirst(p, s) <==> Matches(p, s)) <==> '*' !in s
  {
    if '*' in s {
      var k := FirstStar(s);
      WitnessSplits(s, k);
      assert !(MatchesLiteralFirst(Witness(s, k), s) <==> Matches(Witness(s, k), s));
    } else {
      forall p ensures MatchesLiteralFirst(p, s) <==> Matches(p, s) {
        if MatchesLiteralFirst(p, s) { LiteralFirstIsSound(p, s); }
        if Matches(p, s) { LiteralFirstIsComplete(p, s); }
      }
    }
  }
}
