/**
 * The mastery score of `AIEducatorService.calculate_mastery_score`: the share
 * of correct attempts as a percentage, less five points per hint used (at most
 * twenty), floored at zero and rounded to two decimals. Scores are exact reals;
 * `round(x, 2)` is rounding of `100 * x` to the nearest integer, ties to even.
 */
module MasteryScorer {

  import opened Json

  /** One attempt as the request carries it: a dict, read only at key "correct". */
  type Attempt = map<string, Json>

  /** The hint texts consumed for one problem; only their number matters. */
  type HintUsage = seq<string>

  /** `a.get('correct', False)` tested for truth: a missing key counts as incorrect. */
  predicate IsCorrect(a: Attempt)
  {
    Truthy(Get(a, "correct", JBool(false)))
  }

  /** `sum(1 for a in attempts if a.get('correct', False))`. */
  function CorrectCount(attempts: seq<Attempt>): (n: nat)
    ensures n <= |attempts|
    ensures n == 0 <==> forall k :: 0 <= k < |attempts| ==> !IsCorrect(attempts[k])
    ensures n == |attempts| <==> forall k :: 0 <= k < |attempts| ==> IsCorrect(attempts[k])
  {
    if attempts == [] then 0
    else (if IsCorrect(attempts[0]) then 1 else 0) + CorrectCount(attempts[1..])
  }

  /** `sum(len(h) for h in hints_used)`. */
  function TotalHints(hintsUsed: seq<HintUsage>): (total: nat)
  {
    if hintsUsed == [] then 0 else |hintsUsed[0]| + TotalHints(hintsUsed[1..])
  }

  /** All hint lists laid end to end. */
  function Flatten(hintsUsed: seq<HintUsage>): (all: HintUsage)
  {
    if hintsUsed == [] then [] else hintsUsed[0] + Flatten(hintsUsed[1..])
  }

  /** `(correct_count / len(attempts)) * 100`. */
  function BaseScore(attempts: seq<Attempt>): (s: real)
    requires attempts != []
    ensures 0.0 <= s <= 100.0
    ensures s == 100.0 <==> CorrectCount(attempts) == |attempts|
    ensures s == 0.0 <==> CorrectCount(attempts) == 0
  {
    var c, n := CorrectCount(attempts) as real, |attempts| as real;
    RatioAtMostOne(c, n);
    (c / n) * 100.0
  }

  /** A share of a positive whole lies in [0, 1], and is 0 or 1 only for none or all of it. */
  lemma RatioAtMostOne(part: real, whole: real)
    requires 0.0 <= part <= whole && whole > 0.0
    ensures 0.0 <= part / whole <= 1.0
    ensures part / whole == 1.0 <==> part == whole
    ensures part / whole == 0.0 <==> part == 0.0
  {
    var q := part / whole;
    assert q * whole == part;
  }

  /** `min(total_hints * 5, 20)`. */
  function HintPenalty(totalHints: nat): (p: nat)
    ensures p <= 20
    ensures totalHints <= 4 ==> p == 5 * totalHints
    ensures totalHints >= 4 ==> p == 20
  {
    if totalHints * 5 < 20 then totalHints * 5 else 20
  }

  /** `max(0, base_score - hint_penalty)` before rounding; 0 when there are no attempts. */
  function ExactScore(attempts: seq<Attempt>, hintsUsed: seq<HintUsage>): (s: real)
    ensures 0.0 <= s <= 100.0
    ensures attempts == [] ==> s == 0.0
    ensures attempts != [] ==> s >= BaseScore(attempts) - 20.0
    ensures attempts != [] ==> s <= BaseScore(attempts)
  {
    if attempts == [] then 0.0
    else
      var d := BaseScore(attempts) - HintPenalty(TotalHints(hintsUsed)) as real;
      if d < 0.0 then 0.0 else d
  }

  /**
   * Python 3's `round` to an integer: the nearest integer, and the even one of
   * the two when `x` lies exactly half-way.
   */
  function RoundHalfEven(x: real): (n: int)
    ensures x - 0.5 <= n as real <= x + 0.5
    ensures (n as real == x - 0.5 || n as real == x + 0.5) ==> n % 2 == 0
  {
    var f := x.Floor;
    var d := x - f as real;
    if d < 0.5 then f
    else if d > 0.5 then f + 1
    else if f % 2 == 0 then f else f + 1
  }

  /** A real with at most two decimals. */
  predicate IsHundredths(r: real)
  {
    (r * 100.0).Floor as real == r * 100.0
  }

  /** `round(x, 2)`. */
  function Round2(x: real): (r: real)
    ensures IsHundredths(r)
    ensures x - 0.005 <= r <= x + 0.005
    ensures (r == x - 0.005 || r == x + 0.005) ==> (r * 100.0).Floor % 2 == 0
  {
    RoundHalfEven(x * 100.0) as real / 100.0
  }

  /** `calculate_mastery_score(attempts, hints_used)`. */
  function MasteryScore(attempts: seq<Attempt>, hintsUsed: seq<HintUsage>): (score: real)
    ensures attempts == [] ==> score == 0.0
    ensures 0.0 <= score <= 100.0
    ensures IsHundredths(score)
    ensures ExactScore(attempts, hintsUsed) - 0.005 <= score <= ExactScore(attempts, hintsUsed) + 0.005
    ensures (score == ExactScore(attempts, hintsUsed) - 0.005 || score == ExactScore(attempts, hintsUsed) + 0.005)
      ==> (score * 100.0).Floor % 2 == 0
  {
    if attempts == [] then 0.0
    else
      var s := ExactScore(attempts, hintsUsed);
      RoundUnitBounds(s);
      Round2(s)
  }

  /** Rounding a score in [0, 100] to two decimals stays in [0, 100]. */
  lemma RoundUnitBounds(x: real)
    requires 0.0 <= x <= 100.0
    ensures 0.0 <= Round2(x) <= 100.0
  {
    var n := RoundHalfEven(x * 100.0);
    assert -1 < n < 10001;
  }

  /** Rounding never reverses the order of two reals. */
  lemma RoundHalfEvenMonotone(x: real, y: real)
    requires x <= y
    ensures RoundHalfEven(x) <= RoundHalfEven(y)
  {
  }

  lemma Round2Monotone(x: real, y: real)
    requires x <= y
    ensures Round2(x) <= Round2(y)
  {
    RoundHalfEvenMonotone(x * 100.0, y * 100.0);
  }

  /** Hint counts add up over concatenated hint lists. */
  lemma {:induction false} TotalHintsAppend(h1: seq<HintUsage>, h2: seq<HintUsage>)
    ensures TotalHints(h1 + h2) == TotalHints(h1) + TotalHints(h2)
  {
    if h1 == [] {
      assert h1 + h2 == h2;
    } else {
      assert (h1 + h2)[1..] == h1[1..] + h2;
      TotalHintsAppend(h1[1..], h2);
    }
  }

  /** The total hint count is the number of hints in all lists laid end to end. */
  lemma {:induction false} TotalHintsFlatten(hintsUsed: seq<HintUsage>)
    ensures TotalHints(hintsUsed) == |Flatten(hintsUsed)|
  {
    if hintsUsed != [] {
      TotalHintsFlatten(hintsUsed[1..]);
    }
  }

  /** With no attempts the score is exactly 0.0, whatever hints were used. */
  lemma NoAttemptsScoresZero(hintsUsed: seq<HintUsage>)
    ensures MasteryScore([], hintsUsed) == 0.0
  {
  }

  /**
   * The hint penalty costs at most twenty points: the score is never below the
   * rounded `max(0, base_score - 20)`, however many hints were used.
   */
  lemma PenaltyIsCapped(attempts: seq<Attempt>, hintsUsed: seq<HintUsage>)
    requires attempts != []
    ensures MasteryScore(attempts, hintsUsed) >= Round2(if BaseScore(attempts) < 20.0 then 0.0 else BaseScore(attempts) - 20.0)
  {
    var floor := if BaseScore(attempts) < 20.0 then 0.0 else BaseScore(attempts) - 20.0;
    Round2Monotone(floor, ExactScore(attempts, hintsUsed));
  }

  /** Using more hints never raises the score. */
  lemma MoreHintsNeverHelp(attempts: seq<Attempt>, fewer: seq<HintUsage>, more: seq<HintUsage>)
    requires TotalHints(fewer) <= TotalHints(more)
    ensures MasteryScore(attempts, more) <= MasteryScore(attempts, fewer)
  {
    if attempts != [] {
      assert HintPenalty(TotalHints(fewer)) <= HintPenalty(TotalHints(more));
      Round2Monotone(ExactScore(attempts, more), ExactScore(attempts, fewer));
    }
  }

  /** Taking one list out of the hint lists takes its hints out of the total. */
  lemma TotalHintsRemove(h: seq<HintUsage>, j: nat)
    requires j < |h|
    ensures TotalHints(h) == |h[j]| + TotalHints(h[..j] + h[j + 1..])
  {
    assert h == h[..j] + [h[j]] + h[j + 1..];
    TotalHintsAppend(h[..j] + [h[j]], h[j + 1..]);
    TotalHintsAppend(h[..j], [h[j]]);
    TotalHintsAppend(h[..j], h[j + 1..]);
    assert TotalHints([h[j]]) == |h[j]| by {
      assert [h[j]][1..] == [];
    }
  }

  /** Hint counts do not depend on the order of the hint lists. */
  lemma {:induction false} TotalHintsPermutation(h1: seq<HintUsage>, h2: seq<HintUsage>)
    requires multiset(h1) == multiset(h2)
    ensures TotalHints(h1) == TotalHints(h2)
  {
    if h1 == [] {
      assert |h2| == |multiset(h2)| == 0;
    } else {
      assert h1[0] in multiset(h2);
      var j :| 0 <= j < |h2| && h2[j] == h1[0];
      var rest := h2[..j] + h2[j + 1..];
      assert multiset(h1[1..]) == multiset(rest) by {
        assert h1 == [h1[0]] + h1[1..];
        assert multiset(h1[1..]) == multiset(h1) - multiset{h1[0]};
        assert h2 == h2[..j] + [h2[j]] + h2[j + 1..];
        assert multiset(rest) == multiset(h2) - multiset{h2[j]};
      }
      TotalHintsPermutation(h1[1..], rest);
      TotalHintsRemove(h2, j);
    }
  }

  /**
   * The score sees hint usage only through its total: reordering the hint
   * lists in any way leaves it unchanged.
   */
  lemma HintOrderDoesNotMatter(attempts: seq<Attempt>, h1: seq<HintUsage>, h2: seq<HintUsage>)
    requires multiset(h1) == multiset(h2)
    ensures MasteryScore(attempts, h1) == MasteryScore(attempts, h2)
  {
    TotalHintsPermutation(h1, h2);
    SameTotalSameScore(attempts, h1, h2);
  }

  /** Lumping every hint into one list, as if all were used on one problem, gives the same score. */
  lemma HintSpreadDoesNotMatter(attempts: seq<Attempt>, hintsUsed: seq<HintUsage>)
    ensures MasteryScore(attempts, hintsUsed) == MasteryScore(attempts, [Flatten(hintsUsed)])
  {
    TotalHintsFlatten(hintsUsed);
    assert TotalHints([Flatten(hintsUsed)]) == |Flatten(hintsUsed)| by {
      assert [Flatten(hintsUsed)][1..] == [];
    }
    SameTotalSameScore(attempts, hintsUsed, [Flatten(hintsUsed)]);
  }

  lemma SameTotalSameScore(attempts: seq<Attempt>, h1: seq<HintUsage>, h2: seq<HintUsage>)
    requires TotalHints(h1) == TotalHints(h2)
    ensures MasteryScore(attempts, h1) == MasteryScore(attempts, h2)
  {
  }

  /** Attempts judged alike give the same correct count. */
  lemma {:induction false} CorrectCountAlike(a1: seq<Attempt>, a2: seq<Attempt>)
    requires |a1| == |a2|
    requires forall k :: 0 <= k < |a1| ==> (IsCorrect(a1[k]) <==> IsCorrect(a2[k]))
    ensures CorrectCount(a1) == CorrectCount(a2)
  {
    if a1 != [] {
      CorrectCountAlike(a1[1..], a2[1..]);
    }
  }

  /** An attempt without a "correct" key scores exactly like one marked incorrect. */
  lemma MissingCorrectIsIncorrect(attempts: seq<Attempt>, i: nat, hintsUsed: seq<HintUsage>)
    requires i < |attempts| && "correct" !in attempts[i]
    ensures MasteryScore(attempts, hintsUsed) == MasteryScore(attempts[i := map["correct" := JBool(false)]], hintsUsed)
  {
    CorrectCountAlike(attempts, attempts[i := map["correct" := JBool(false)]]);
  }

  /**
   * "correct" is tested for truth, not compared with `True`: the string
   * "false" and a NaN count as correct, and 0 or an empty string as incorrect.
   */
  lemma CorrectnessIsTruthiness()
    ensures IsCorrect(map["correct" := JString("false")])
    ensures IsCorrect(map["correct" := JNaN])
    ensures !IsCorrect(map["correct" := JInt(0)])
    ensures !IsCorrect(map["correct" := JString("")])
    ensures !IsCorrect(map[])
  {
  }

  /** With no hints used, all-correct attempts score 100. */
  lemma AllCorrectScoresHundred(attempts: seq<Attempt>)
    requires attempts != []
    requires forall k :: 0 <= k < |attempts| ==> IsCorrect(attempts[k])
    ensures MasteryScore(attempts, []) == 100.0
  {
    assert RoundHalfEven(10000.0) == 10000;
  }

  /** `calculate_mastery_score([{"correct": True}], []) == 100.0`. */
  lemma OneCorrectScoresHundred()
    ensures MasteryScore([map["correct" := JBool(true)]], []) == 100.0
  {
    AllCorrectScoresHundred([map["correct" := JBool(true)]]);
  }

  /** `calculate_mastery_score([{"correct": True}, {"correct": False}], []) == 50.0`. */
  lemma OneOfTwoScoresFifty()
    ensures MasteryScore([map["correct" := JBool(true)], map["correct" := JBool(false)]], []) == 50.0
  {
    var a := [map["correct" := JBool(true)], map["correct" := JBool(false)]];
    assert a[1..][1..] == [];
    assert CorrectCount(a) == 1;
    assert RoundHalfEven(5000.0) == 5000;
  }

}
