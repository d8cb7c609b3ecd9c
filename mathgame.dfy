/** The maths game: a problem on two small operands and four answer buttons. */
module MathGame {
  import opened Randomness
  import opened Geometry
  import opened Opt

  datatype Op = Plus | Minus | Times

  /** `MATH_OPERATIONS`. */
  const MathOperations: seq<Op> := [Plus, Minus, Times]
  const MaxMathValue: int := 12
  const NumMathChoices: int := 4

  function Apply(op: Op, a: int, b: int): int {
    match op
    case Plus => a + b
    case Minus => a - b
    case Times => a * b
  }

  datatype Problem = Problem(num1: int, num2: int, operation: Op, correctAnswer: int)

  /** What every generated problem satisfies. */
  predicate ProblemOk(p: Problem) {
    && 1 <= p.num1 <= MaxMathValue && 1 <= p.num2 <= MaxMathValue
    && p.correctAnswer == Apply(p.operation, p.num1, p.num2)
    && p.correctAnswer >= 0
  }

  /** The problem part of `generateNewMathProblem`, from the three draws it makes
      (`num1`, `num2`, then the operation); subtraction swaps the operands
      so that the answer is not negative. */
  function NewProblem(u1: real, u2: real, u3: real): (p: Problem)
    requires IsUnit(u1) && IsUnit(u2) && IsUnit(u3)
    ensures ProblemOk(p)
    ensures p.operation == MathOperations[FloorRandom(u3, 0, |MathOperations|)]
    ensures multiset{p.num1, p.num2} ==
            multiset{FloorRandom(u1, 1, MaxMathValue + 1), FloorRandom(u2, 1, MaxMathValue + 1)}
    ensures p.operation != Minus ==>
            p.num1 == FloorRandom(u1, 1, MaxMathValue + 1) && p.num2 == FloorRandom(u2, 1, MaxMathValue + 1)
    ensures p.operation == Minus ==> p.num1 >= p.num2
  {
    var a := FloorRandom(u1, 1, MaxMathValue + 1);
    var b := FloorRandom(u2, 1, MaxMathValue + 1);
    var op := MathOperations[FloorRandom(u3, 0, |MathOperations|)];
    match op
    case Plus => Problem(a, b, Plus, a + b)
    case Minus =>
      var (n1, n2) := if a < b then (b, a) else (a, b);
      Problem(n1, n2, Minus, n1 - n2)
    case Times =>
      assert a * b >= 0 by { assert a >= 0 && b >= 0; }
      Problem(a, b, Times, a * b)
  }

  /** End-to-end scenario: operands 9 and 3 with subtraction give 6. */
  lemma NineMinusThree()
    ensures var p := NewProblem(0.7, 0.2, 0.5); p == Problem(9, 3, Minus, 6)
  {
    var p := NewProblem(0.7, 0.2, 0.5);
    assert FloorRandom(0.7, 1, 13) == 9;
    assert FloorRandom(0.2, 1, 13) == 3;
    assert FloorRandom(0.5, 0, 3) == 1;
  }

  predicate Distinct<T(==)>(s: seq<T>) {
    forall i, j :: 0 <= i < j < |s| ==> s[i] != s[j]
  }

  /** In a sequence without repetitions every value occurs at most once. */
  lemma {:induction false} DistinctCounts<T>(s: seq<T>, x: T)
    requires Distinct(s)
    ensures multiset(s)[x] <= 1
  {
    if |s| > 0 {
      assert s == [s[0]] + s[1..];
      DistinctCounts(s[1..], x);
      if s[0] == x {
        assert x !in s[1..];
      }
    }
  }

  /** Reordering a sequence without repetitions leaves it without repetitions. */
  lemma DistinctPermutation<T>(s: seq<T>, t: seq<T>)
    requires multiset(s) == multiset(t) && Distinct(s)
    ensures Distinct(t)
  {
    forall i, j | 0 <= i < j < |t|
      ensures t[i] != t[j]
    {
      if t[i] == t[j] {
        assert t == t[..i] + [t[i]] + t[i+1..j] + [t[j]] + t[j+1..];
        assert multiset(t)[t[i]] >= 2;
        DistinctCounts(s, t[i]);
      }
    }
  }

  /** `Set.add`: a JavaScript Set keeps its elements in insertion order. */
  function SetAdd(s: seq<int>, x: int): (r: seq<int>)
    ensures x in r && |s| <= |r| <= |s| + 1 && r[..|s|] == s
    ensures forall y :: y in r <==> y in s || y == x
    ensures Distinct(s) ==> Distinct(r)
  {
    if x in s then s else s + [x]
  }

  /** A wrong answer as `generateMathChoices` can produce it: non-negative,
      different from the answer, and either a small offset from it or at most 144. */
  predicate IsDecoy(answer: int, d: int) {
    && d >= 0 && d != answer
    && (answer - 5 <= d <= answer + 5 || d <= MaxMathValue * MaxMathValue)
  }

  /** What the candidate set of `generateMathChoices` keeps at every step: the
      answer first, then up to three decoys, no value twice. */
  predicate ChoicesOk(answer: int, choices: seq<int>) {
    && 1 <= |choices| <= NumMathChoices && choices[0] == answer
    && Distinct(choices)
    && forall k :: 1 <= k < |choices| ==> IsDecoy(answer, choices[k])
  }

  /** Adding a decoy to an incomplete candidate set keeps it a candidate set
      and keeps what it held in front. */
  lemma AddDecoy(answer: int, choices: seq<int>, d: int)
    requires ChoicesOk(answer, choices) && |choices| < NumMathChoices && IsDecoy(answer, d)
    ensures ChoicesOk(answer, SetAdd(choices, d)) && SetAdd(choices, d)[..|choices|] == choices
  {
  }

  /** One pass of the loop of `generateMathChoices`, from the candidate set
      `choices` with `used` draws consumed. The pass draws a small offset; when
      that gives a negative number or the answer itself, it draws a number in
      [0, 144] instead, if a draw is left. The result is the new set and the
      number of draws consumed. */
  function ChoicesPass(answer: int, choices: seq<int>, us: seq<real>, used: nat): (r: (seq<int>, nat))
    requires AllUnit(us) && used < |us| && ChoicesOk(answer, choices) && |choices| < NumMathChoices
    ensures ChoicesOk(answer, r.0) && r.1 <= |us| && (r.1 == used + 1 || r.1 == used + 2)
    ensures |choices| <= |r.0| <= |choices| + 1 && r.0[..|choices|] == choices
  {
    var incorrectAnswer := answer + FloorRandom(us[used], -5, 6);
    if incorrectAnswer >= 0 && incorrectAnswer != answer then
      AddDecoy(answer, choices, incorrectAnswer);
      (SetAdd(choices, incorrectAnswer), used + 1)
    else if used + 1 < |us| then
      var newIncorrect := FloorRandom(us[used + 1], 0, MaxMathValue * MaxMathValue + 1);
      if newIncorrect != answer then
        AddDecoy(answer, choices, newIncorrect);
        (SetAdd(choices, newIncorrect), used + 2)
      else (choices, used + 2)
    else (choices, used + 1)
  }

  /** The loop of `generateMathChoices` as a recursion over its passes. It
      stops once four values are collected or the draws run out, possibly in
      the middle of a pass; the result is the final set and the number of
      draws consumed. */
  function ChoicesRun(answer: int, choices: seq<int>, us: seq<real>, used: nat): (r: (seq<int>, nat))
    requires AllUnit(us) && used <= |us| && ChoicesOk(answer, choices)
    ensures ChoicesOk(answer, r.0) && used <= r.1 <= |us|
    ensures |r.0| < NumMathChoices ==> r.1 == |us|
    decreases |us| - used
  {
    if |choices| >= NumMathChoices || used >= |us| then (choices, used)
    else
      var next := ChoicesPass(answer, choices, us, used);
      ChoicesRun(answer, next.0, us, next.1)
  }

  /** The loop only adds: what the set held before stays in front, in order. */
  lemma {:induction false} ChoicesRunExtends(answer: int, choices: seq<int>, us: seq<real>, used: nat)
    requires AllUnit(us) && used <= |us| && ChoicesOk(answer, choices)
    ensures var r := ChoicesRun(answer, choices, us, used); |choices| <= |r.0| && r.0[..|choices|] == choices
    decreases |us| - used
  {
    if |choices| < NumMathChoices && used < |us| {
      var next := ChoicesPass(answer, choices, us, used);
      ChoicesRunExtends(answer, next.0, us, next.1);
      PrefixOfPrefix(choices, next.0, ChoicesRun(answer, next.0, us, next.1).0);
    }
  }

  /** A prefix of a prefix is a prefix. */
  lemma PrefixOfPrefix(a: seq<int>, b: seq<int>, c: seq<int>)
    requires |a| <= |b| <= |c| && b[..|a|] == a && c[..|b|] == b
    ensures c[..|a|] == a
  {
    assert c[..|a|] == c[..|b|][..|a|];
  }

  /** The draws `us` are enough for `generateMathChoices` to collect four values
      for `answer`. */
  predicate ChoicesComplete(answer: int, us: seq<real>)
    requires AllUnit(us)
  {
    |ChoicesRun(answer, [answer], us, 0).0| == NumMathChoices
  }

  /** `generateMathChoices` before the shuffle: the insertion-ordered set it
      fills, and the number of draws it consumes. The loop runs on the draws
      `us`; `complete` is false exactly when they run out before four values
      are collected. */
  method GenerateChoices(answer: int, us: seq<real>) returns (choices: seq<int>, used: nat, complete: bool)
    requires AllUnit(us)
    ensures (choices, used) == ChoicesRun(answer, [answer], us, 0)
    ensures complete <==> ChoicesComplete(answer, us)
    ensures complete <==> |choices| == NumMathChoices
    ensures ChoicesOk(answer, choices)
  {
    choices := [answer];
    used := 0;
    while |choices| < NumMathChoices && used < |us|
      invariant used <= |us| && ChoicesOk(answer, choices)
      invariant ChoicesRun(answer, choices, us, used) == ChoicesRun(answer, [answer], us, 0)
      decreases |us| - used
    {
      ghost var before, usedBefore := choices, used;
      var randomOffset := FloorRandom(us[used], -5, 6);
      used := used + 1;
      var incorrectAnswer := answer + randomOffset;
      if incorrectAnswer >= 0 && incorrectAnswer != answer {
        AddDecoy(answer, choices, incorrectAnswer);
        choices := SetAdd(choices, incorrectAnswer);
      } else if |choices| < NumMathChoices {
        if used < |us| {
          var newIncorrect := FloorRandom(us[used], 0, MaxMathValue * MaxMathValue + 1);
          used := used + 1;
          if newIncorrect != answer {
            AddDecoy(answer, choices, newIncorrect);
            choices := SetAdd(choices, newIncorrect);
          }
        }
      }
      assert (choices, used) == ChoicesPass(answer, before, us, usedBefore);
    }
    complete := |choices| == NumMathChoices;
  }

  /** The destructuring swap `[s[i], s[j]] = [s[j], s[i]]`. */
  function Swap<T>(s: seq<T>, i: int, j: int): (r: seq<T>)
    requires 0 <= i < |s| && 0 <= j < |s|
    ensures |r| == |s|
  {
    s[i := s[j]][j := s[i]]
  }

  /** A swap exchanges the two positions, keeps every other one, and so keeps the multiset. */
  lemma SwapExchanges<T>(s: seq<T>, i: int, j: int)
    requires 0 <= i < |s| && 0 <= j < |s|
    ensures Swap(s, i, j)[i] == s[j] && Swap(s, i, j)[j] == s[i]
    ensures forall k :: 0 <= k < |s| && k != i && k != j ==> Swap(s, i, j)[k] == s[k]
    ensures multiset(Swap(s, i, j)) == multiset(s)
  {
  }

  /** The swap partners of the Fisher-Yates steps from index `i` down to 1:
      the step at position `i - k` uses draw `k` to pick a partner in [0, i - k]. */
  function SwapPartners(us: seq<real>, i: int): (js: seq<int>)
    requires AllUnit(us) && i <= |us|
    ensures |js| == (if i > 0 then i else 0)
    ensures forall k :: 0 <= k < |js| ==> 0 <= js[k] <= i - k
    decreases i
  {
    if i <= 0 then []
    else
      AllUnitSuffix(us, 1);
      [FloorRandom(us[0], 0, i + 1)] + SwapPartners(us[1..], i - 1)
  }

  /** Partner `k` of `SwapPartners` is `floor(random() * (i - k + 1))` on draw `k`. */
  lemma {:induction false} SwapPartnersAt(us: seq<real>, i: int, k: int)
    requires AllUnit(us) && i <= |us| && 0 <= k < i
    ensures SwapPartners(us, i)[k] == FloorRandom(us[k], 0, i - k + 1)
    decreases i
  {
    if k > 0 {
      AllUnitSuffix(us, 1);
      SwapPartnersAt(us[1..], i - 1, k - 1);
    }
  }

  /** `js` holds a valid partner for every step from index `i` down to 1. */
  predicate PartnersFit(js: seq<int>, i: int) {
    i <= |js| && forall k :: 0 <= k < i ==> 0 <= js[k] <= i - k
  }

  /** The Fisher-Yates steps from index `i` down to 1, with their partners given:
      position `i` is swapped with `js[0]`, position `i - 1` with `js[1]`, and so on. */
  function SwapFrom<T>(s: seq<T>, i: int, js: seq<int>): (r: seq<T>)
    requires -1 <= i < |s| && PartnersFit(js, i)
    ensures |r| == |s|
    decreases i
  {
    if i <= 0 then s
    else
      assert forall k :: 0 <= k < i - 1 ==> js[1..][k] == js[k + 1];
      SwapFrom(Swap(s, i, js[0]), i - 1, js[1..])
  }

  /** Every step is a swap, so the steps together only reorder. */
  lemma {:induction false} SwapFromPermutes<T>(s: seq<T>, i: int, js: seq<int>)
    requires -1 <= i < |s| && PartnersFit(js, i)
    ensures multiset(SwapFrom(s, i, js)) == multiset(s)
    decreases i
  {
    if i > 0 {
      assert forall k :: 0 <= k < i - 1 ==> js[1..][k] == js[k + 1];
      SwapExchanges(s, i, js[0]);
      SwapFromPermutes(Swap(s, i, js[0]), i - 1, js[1..]);
    }
  }

  /** The outcome of `shuffleArray` on `s` with the draws `us`. */
  function Shuffled<T>(s: seq<T>, us: seq<real>): (r: seq<T>)
    requires AllUnit(us) && |s| - 1 <= |us|
    ensures |r| == |s| && multiset(r) == multiset(s)
  {
    var js := SwapPartners(us, |s| - 1);
    SwapFromPermutes(s, |s| - 1, js);
    SwapFrom(s, |s| - 1, js)
  }

  /** A shuffle keeps the values, so it keeps them free of repetitions. */
  lemma ShuffledDistinct<T>(s: seq<T>, us: seq<real>)
    requires AllUnit(us) && |s| - 1 <= |us| && Distinct(s)
    ensures Distinct(Shuffled(s, us))
    ensures forall x :: x in Shuffled(s, us) <==> x in s
  {
    var r := Shuffled(s, us);
    DistinctPermutation(s, r);
    forall x ensures x in r <==> x in s {
      assert x in r <==> x in multiset(r);
      assert x in s <==> x in multiset(s);
    }
  }

  /** One iteration of `shuffleArray`: after the swap of position `i` with the
      partner drawn from `us[k]`, the remaining steps still reach `goal`. */
  lemma ShuffleStep<T>(s: seq<T>, us: seq<real>, js: seq<int>, k: int, i: int, goal: seq<T>)
    requires AllUnit(us) && 0 < i < |s| && k + i <= |us| && 0 <= k
    requires js == SwapPartners(us, k + i)
    requires PartnersFit(js[k..], i) && SwapFrom(s, i, js[k..]) == goal
    ensures FloorRandom(us[k], 0, i + 1) <= i
    ensures PartnersFit(js[k + 1..], i - 1)
    ensures SwapFrom(Swap(s, i, FloorRandom(us[k], 0, i + 1)), i - 1, js[k + 1..]) == goal
  {
    SwapPartnersAt(us, k + i, k);
    assert js[k..][0] == js[k];
    assert js[k..][1..] == js[k + 1..];
  }

  /** `shuffleArray`: the in-place Fisher-Yates shuffle. */
  method ShuffleArray<T>(a: array<T>, us: seq<real>)
    requires AllUnit(us) && a.Length - 1 <= |us|
    modifies a
    ensures a[..] == Shuffled(old(a[..]), us)
    ensures multiset(a[..]) == multiset(old(a[..]))
  {
    ghost var js := SwapPartners(us, a.Length - 1);
    ghost var goal := Shuffled(a[..], us);
    assert js[0..] == js;
    var i := a.Length - 1;
    var k := 0;
    while i > 0
      invariant -1 <= i < a.Length && k + i == a.Length - 1 && 0 <= k <= |js|
      invariant PartnersFit(js[k..], i)
      invariant SwapFrom(a[..], i, js[k..]) == goal
      decreases i
    {
      var j := FloorRandom(us[k], 0, i + 1);
      ghost var before := a[..];
      ShuffleStep(before, us, js, k, i, goal);
      a[i], a[j] := a[j], a[i];
      assert a[..] == Swap(before, i, j);
      i, k := i - 1, k + 1;
    }
  }

  /** One round of the maths game: the problem and the button values in screen order. */
  datatype MathRound = MathRound(problem: Problem, choices: seq<int>)

  predicate WellFormedRound(r: MathRound) {
    && ProblemOk(r.problem)
    && |r.choices| == NumMathChoices
    && Distinct(r.choices)
    && r.problem.correctAnswer in r.choices
    && forall k :: 0 <= k < |r.choices| ==> r.choices[k] >= 0
  }

  /** A shuffle of a complete candidate set for a valid problem is a well-formed round. */
  lemma ShuffledRoundOk(p: Problem, choices: seq<int>, shown: seq<int>, us: seq<real>)
    requires ProblemOk(p)
    requires |choices| == NumMathChoices && ChoicesOk(p.correctAnswer, choices)
    requires AllUnit(us) && |choices| - 1 <= |us| && shown == Shuffled(choices, us)
    ensures WellFormedRound(MathRound(p, shown))
  {
    ShuffledDistinct(choices, us);
    assert choices[0] in choices;
    forall k | 0 <= k < |shown|
      ensures shown[k] >= 0
    {
      assert shown[k] in choices;
    }
  }

  /** The round `generateNewMathProblem` and `generateMathChoices` draw: the
      problem of the first three draws and its candidate set, shuffled. */
  function DrawnRound(u1: real, u2: real, u3: real, choiceDraws: seq<real>, shuffleDraws: seq<real>): MathRound
    requires IsUnit(u1) && IsUnit(u2) && IsUnit(u3)
    requires AllUnit(choiceDraws) && AllUnit(shuffleDraws) && |shuffleDraws| >= NumMathChoices - 1
  {
    var p := NewProblem(u1, u2, u3);
    MathRound(p, Shuffled(ChoicesRun(p.correctAnswer, [p.correctAnswer], choiceDraws, 0).0, shuffleDraws))
  }

  /** `generateNewMathProblem` together with `generateMathChoices`: a problem,
      its four candidates, shuffled. `None` exactly when the choice draws run
      out before four candidates are collected. */
  method GenerateRound(u1: real, u2: real, u3: real, choiceDraws: seq<real>, shuffleDraws: seq<real>)
    returns (r: Option<MathRound>)
    requires IsUnit(u1) && IsUnit(u2) && IsUnit(u3)
    requires AllUnit(choiceDraws) && AllUnit(shuffleDraws) && |shuffleDraws| >= NumMathChoices - 1
    ensures r.None? <==> !ChoicesComplete(NewProblem(u1, u2, u3).correctAnswer, choiceDraws)
    ensures r.Some? ==> r.value == DrawnRound(u1, u2, u3, choiceDraws, shuffleDraws)
    ensures r.Some? ==> r.value.problem == NewProblem(u1, u2, u3) && WellFormedRound(r.value)
  {
    var p := NewProblem(u1, u2, u3);
    var choices, used, complete := GenerateChoices(p.correctAnswer, choiceDraws);
    if !complete {
      return None;
    }
    var a := new int[|choices|](k requires 0 <= k < |choices| => choices[k]);
    assert a[..] == choices;
    ShuffleArray(a, shuffleDraws);
    ShuffledRoundOk(p, choices, a[..], shuffleDraws);
    r := Some(MathRound(p, a[..]));
  }

  // Button layout of `drawMathGame` / `handleMathGameClick`.
  const ButtonWidth: real := 150.0
  const ButtonHeight: real := 70.0
  const ButtonSpacing: real := 20.0
  const ButtonStartX: real := (CanvasWidth - (4.0 * ButtonWidth + 3.0 * 20.0)) / 2.0
  const ButtonStartY: real := CanvasHeight / 2.0 + 50.0

  function ButtonX(i: int): real {
    ButtonStartX + i as real * (ButtonWidth + ButtonSpacing)
  }

  /** The pointer is strictly inside answer button `i`. */
  predicate InButton(i: int, mx: real, my: real) {
    InsideCorner(mx, my, ButtonX(i), ButtonStartY, ButtonWidth, ButtonHeight)
  }

  /** The buttons lie side by side with a gap: no point is in two of them. */
  lemma ButtonsDisjoint(i: int, j: int, mx: real, my: real)
    requires InButton(i, mx, my) && InButton(j, mx, my)
    ensures i == j
  {
  }

  /** The scan of `handleMathGameClick` over the `n` buttons: the button under
      the pointer, or none. */
  method ClickedButton(mx: real, my: real, n: int) returns (r: Option<int>)
    ensures r.Some? ==> 0 <= r.value < n
    ensures forall i :: 0 <= i < n ==> (InButton(i, mx, my) <==> r == Some(i))
  {
    var i := 0;
    while i < n
      invariant 0 <= i && (n >= 0 ==> i <= n)
      invariant forall k :: 0 <= k < i ==> !InButton(k, mx, my)
    {
      if InButton(i, mx, my) {
        forall k | 0 <= k < n && InButton(k, mx, my)
          ensures k == i
        {
          ButtonsDisjoint(k, i, mx, my);
        }
        return Some(i);
      }
      i := i + 1;
    }
    return None;
  }
}
