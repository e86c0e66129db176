/**
 * The question formatter (`format_questions`): split a `;`-separated list
 * of questions and a `;`-separated list of answer types, strip each piece,
 * and pair them up by position, stopping at the shorter list.
 */
module QuestionFormatter {
  import opened Text

  function Min(a: nat, b: nat): nat {
    if a <= b then a else b
  }

  /** A question pair as sent to the remote service: `[question, type]`. */
  predicate IsPair(p: seq<string>, question: string, answerType: string) {
    |p| == 2 && p[0] == Strip(question) && p[1] == Strip(answerType)
  }

  /**
   * Python's `zip(qs, ts)` with each component stripped: as many pairs as
   * the shorter list has entries, pair k built from entry k of each list.
   */
  function PairUp(qs: seq<string>, ts: seq<string>): (pairs: seq<seq<string>>)
    ensures |pairs| == Min(|qs|, |ts|)
    ensures forall k :: 0 <= k < |pairs| ==> IsPair(pairs[k], qs[k], ts[k])
    decreases |qs|
  {
    if qs == [] || ts == [] then []
    else [[Strip(qs[0]), Strip(ts[0])]] + PairUp(qs[1..], ts[1..])
  }

  /** What `format_questions(questions, types)` returns. */
  function Formatted(questions: string, types: string): (pairs: seq<seq<string>>)
    ensures |pairs| == Min(SepCount(questions), SepCount(types)) + 1
    ensures forall k :: 0 <= k < |pairs| ==>
      IsPair(pairs[k], Split(questions)[k], Split(types)[k])
  {
    PairUp(Split(questions), Split(types))
  }

  /**
   * `format_questions` as written: split both strings, then append one
   * stripped pair per step of a loop over `zip`.
   */
  method FormatQuestions(questions: string, types: string) returns (formatted: seq<seq<string>>)
    ensures formatted == Formatted(questions, types)
  {
    var questionList := Split(questions);
    var typeList := Split(types);
    formatted := [];
    var i := 0;
    while i < |questionList| && i < |typeList|
      invariant i <= |questionList| && i <= |typeList|
      invariant |formatted| == i
      invariant forall k :: 0 <= k < i ==> IsPair(formatted[k], questionList[k], typeList[k])
    {
      formatted := formatted + [[Strip(questionList[i]), Strip(typeList[i])]];
      i := i + 1;
    }
    var expected := Formatted(questions, types);
    assert |formatted| == |expected|;
    assert forall k :: 0 <= k < |expected| ==> formatted[k] == expected[k];
  }

  /** A formatted string: stripped, unchanged by stripping again, separator-free. */
  predicate IsClean(s: string) {
    IsStripped(s) && Strip(s) == s && Sep !in s
  }

  /** Stripping a piece of a split gives a clean string. */
  lemma StrippedPieceIsClean(piece: string)
    requires Sep !in piece
    ensures IsClean(Strip(piece))
  {
    StripIdempotent(piece);
    StripKeepsSepOut(piece);
  }

  /**
   * Every string in the result is stripped (stripping it again changes
   * nothing) and holds no separator.
   */
  lemma FormattedIsClean(questions: string, types: string)
    ensures var pairs := Formatted(questions, types);
      forall k :: 0 <= k < |pairs| ==> IsClean(pairs[k][0]) && IsClean(pairs[k][1])
  {
    var pairs := Formatted(questions, types);
    var qs, ts := Split(questions), Split(types);
    forall k | 0 <= k < |pairs| ensures IsClean(pairs[k][0]) && IsClean(pairs[k][1]) {
      assert IsPair(pairs[k], qs[k], ts[k]);
      StrippedPieceIsClean(qs[k]);
      StrippedPieceIsClean(ts[k]);
    }
  }

  /** Two empty inputs give one pair of empty strings, not an empty list. */
  lemma FormattedEmpty()
    ensures Formatted("", "") == [["", ""]]
  {
    assert Strip("") == "";
  }

  /** Formatting joined pieces pairs up those very pieces. */
  lemma FormattedJoin(qs: seq<string>, ts: seq<string>)
    requires |qs| >= 1 && forall k :: 0 <= k < |qs| ==> Sep !in qs[k]
    requires |ts| >= 1 && forall k :: 0 <= k < |ts| ==> Sep !in ts[k]
    ensures Formatted(Join(qs), Join(ts)) == PairUp(qs, ts)
  {
    SplitJoin(qs);
    SplitJoin(ts);
  }

  /** Zip ignores whatever follows the end of the shorter list. */
  lemma {:induction false} PairUpIgnoresLongerTail(qs: seq<string>, more: seq<string>, ts: seq<string>)
    requires |qs| >= |ts|
    ensures PairUp(qs + more, ts) == PairUp(qs, ts)
  {
    var left, right := PairUp(qs + more, ts), PairUp(qs, ts);
    assert |left| == |right|;
    forall k | 0 <= k < |left| ensures left[k] == right[k] {
      var q := (qs + more)[k];
      assert q == qs[k];
      assert IsPair(left[k], q, ts[k]) && IsPair(right[k], q, ts[k]);
    }
  }

  lemma {:induction false} PairUpIgnoresLongerTypes(qs: seq<string>, ts: seq<string>, more: seq<string>)
    requires |ts| >= |qs|
    ensures PairUp(qs, ts + more) == PairUp(qs, ts)
  {
    var left, right := PairUp(qs, ts + more), PairUp(qs, ts);
    assert |left| == |right|;
    forall k | 0 <= k < |left| ensures left[k] == right[k] {
      assert (ts + more)[k] == ts[k];
    }
  }

  /**
   * Appending entries to the question list when it is already the longer
   * one does not change the result: the extra questions are dropped.
   */
  lemma ExtraQuestionsDropped(questions: string, types: string, extra: string)
    requires SepCount(questions) >= SepCount(types)
    ensures Formatted(questions + [Sep] + extra, types) == Formatted(questions, types)
  {
    SplitAppend(questions, extra);
    PairUpIgnoresLongerTail(Split(questions), Split(extra), Split(types));
  }

  /** The same for extra answer types when the type list is the longer one. */
  lemma ExtraTypesDropped(questions: string, types: string, extra: string)
    requires SepCount(types) >= SepCount(questions)
    ensures Formatted(questions, types + [Sep] + extra) == Formatted(questions, types)
  {
    SplitAppend(types, extra);
    PairUpIgnoresLongerTypes(Split(questions), Split(types), Split(extra));
  }
}
