/**
 * The six question-answering helpers of tools/functions.py, undecorated.
 * The typeguard, beartype and icontract wrappers only add checks on top of
 * them: the type checks are what Dafny's parameter types already guarantee,
 * and the value checks (a non-empty alias list, a positive `max_len`) appear
 * below as the preconditions of the lemmas about the decorated calls.
 */
module Functions {
  import opened Wrappers
  import opened PyStr
  import opened Dataset

  /** What the plain helpers raise on their own: `min()` of an empty list. */
  datatype PyError = ValueError

  /** `is_correct(pred, gold)`: `pred in gold["aliases"]`. */
  function IsCorrect(pred: string, gold: Item): (r: bool)
    ensures r <==> pred in gold.aliases
  {
    ListContains(gold.aliases, pred)
  }

  /** `answer_in_context(answer, context)`: `answer in context`, a substring test. */
  function AnswerInContext(answer: string, context: string): (r: bool)
    ensures r <==> exists k :: OccursAt(answer, context, k)
  {
    StrContains(context, answer)
  }

  /** The empty answer is in every context. */
  lemma EmptyAnswerInContext(context: string)
    ensures AnswerInContext("", context)
  {
    assert OccursAt("", context, 0);
  }

  /** `xs[k]` is what `min(xs, key=len)` picks: a shortest element, the first one on ties. */
  ghost predicate EarliestShortest(xs: seq<string>, k: int) {
    && 0 <= k < |xs|
    && (forall j :: 0 <= j < |xs| ==> |xs[k]| <= |xs[j]|)
    && (forall j :: 0 <= j < k ==> |xs[j]| > |xs[k]|)
  }

  /** At most one index is the earliest shortest one. */
  lemma EarliestShortestUnique(xs: seq<string>, k: int, k': int)
    requires EarliestShortest(xs, k) && EarliestShortest(xs, k')
    ensures k == k'
  {
    assert |xs[k]| <= |xs[k']| && |xs[k']| <= |xs[k]|;
  }

  /**
   * The scan `min` performs: `best` is the index of the current minimum of
   * `xs[..i]`, replaced only by a strictly shorter element.
   */
  function ShortestFrom(xs: seq<string>, i: nat, best: nat): (k: nat)
    requires best < i <= |xs|
    requires forall j :: 0 <= j < i ==> |xs[best]| <= |xs[j]|
    requires forall j :: 0 <= j < best ==> |xs[j]| > |xs[best]|
    ensures EarliestShortest(xs, k)
    decreases |xs| - i
  {
    if i == |xs| then best
    else if |xs[i]| < |xs[best]| then ShortestFrom(xs, i + 1, i)
    else ShortestFrom(xs, i + 1, best)
  }

  /** `shortest_alias(aliases)`: `min(aliases, key=len)`, a ValueError on an empty list. */
  function ShortestAlias(aliases: seq<string>): (r: Result<string, PyError>)
    ensures r.Err? <==> aliases == []
    ensures r.Ok? ==> exists k :: EarliestShortest(aliases, k) && r.value == aliases[k]
  {
    if aliases == [] then Err(ValueError) else Ok(aliases[ShortestFrom(aliases, 1, 0)])
  }

  /** `validate_consistency(item)`: `item["answer"] not in item["aliases"]`. */
  function ValidateConsistency(item: Item): (r: bool)
    ensures r <==> item.answer !in item.aliases
  {
    !ListContains(item.aliases, item.answer)
  }

  /** An item is consistent exactly when its own answer would not be judged correct. */
  lemma ValidateConsistencyNegatesIsCorrect(item: Item)
    ensures ValidateConsistency(item) == !IsCorrect(item.answer, item)
  {
  }

  /** `score_candidate(candidate, gold)`: `len(candidate)`; `gold` is never read. */
  function ScoreCandidate(candidate: string, gold: Item): nat {
    |candidate|
  }

  /** The score is the candidate's length in code points, whatever the gold record. */
  lemma ScoreCandidateIgnoresGold(candidate: string, gold: Item, gold': Item)
    ensures ScoreCandidate(candidate, gold) == ScoreCandidate(candidate, gold') == |candidate|
  {
  }

  /** `normalize_question(q, max_len)`: `q.strip()[:max_len]`, for any integer `max_len`. */
  function NormalizeQuestion(q: string, maxLen: int): (r: string)
    ensures |r| <= |Strip(q)| && r == Strip(q)[..|r|]
    ensures r == [] || !IsSpace(r[0])
  {
    var s := Strip(q);
    var r := SliceTo(s, maxLen);
    assert r != [] ==> r[0] == s[0];
    r
  }

  /**
   * With the positive `max_len` the beartype and icontract wrappers demand,
   * the result is the first `min(max_len, len(q.strip()))` characters of `q.strip()`.
   */
  lemma NormalizeQuestionPositive(q: string, maxLen: int)
    requires maxLen > 0
    ensures |NormalizeQuestion(q, maxLen)| == Min(maxLen, |Strip(q)|)
    ensures NormalizeQuestion(q, maxLen) == Strip(q)[..Min(maxLen, |Strip(q)|)]
  {
  }

  /**
   * Normalising twice gives the same result exactly when the first result
   * does not end in whitespace; truncation can expose trailing whitespace.
   */
  lemma {:induction false} NormalizeQuestionIdempotentIff(q: string, maxLen: int)
    requires maxLen > 0
    ensures var r := NormalizeQuestion(q, maxLen);
      NormalizeQuestion(r, maxLen) == r <==> (r == [] || !IsSpace(r[|r| - 1]))
  {
    var r := NormalizeQuestion(q, maxLen);
    NormalizeQuestionPositive(q, maxLen);
    if r == [] || !IsSpace(r[|r| - 1]) {
      StripOfTrimmed(r);
      NormalizeQuestionPositive(r, maxLen);
    } else {
      var s := Strip(r);
      var a, b :| StripsTo(r, a, b) && s == r[a..b];
      var r2 := NormalizeQuestion(r, maxLen);
      assert a < b by { assert !IsSpace(r[0]); }
      assert !IsSpace(r[b - 1]);
      assert |r2| <= |s| < |r|;
    }
  }

  /** Normalising is not idempotent: "ab c" truncated to 3 is "ab ", which normalises to "ab". */
  lemma NormalizeQuestionNotIdempotent()
    ensures NormalizeQuestion(NormalizeQuestion("ab c", 3), 3) != NormalizeQuestion("ab c", 3)
  {
    StripOfTrimmed("ab c");
    NormalizeQuestionPositive("ab c", 3);
    var r := NormalizeQuestion("ab c", 3);
    assert r == "ab ";
    NormalizeQuestionIdempotentIff("ab c", 3);
  }
}
