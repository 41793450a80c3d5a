/**
 * The metrics reducer (`process_users`): counts and sums over the items dated strictly
 * inside the window (start, end), the response-time sample clean-up, the median, and the
 * up/down vote totals. The clean-up is modelled as written, removing from the sample list
 * while iterating over it; the filtered copy that was evidently intended stands beside it.
 */
module Reducer {
  import opened Wrappers
  import opened Records

  /** Both bounds are strict: an item dated exactly `start` or `end` is outside. */
  predicate InWindow(date: int, start: int, end: int) {
    start < date && date < end
  }

  // ---- the windowed items of each list, in list order ----

  function WindowQuestions(qs: seq<Question>, start: int, end: int): (r: seq<Question>)
    ensures |r| <= |qs|
  {
    if |qs| == 0 then []
    else
      var last := qs[|qs| - 1];
      WindowQuestions(qs[..|qs| - 1], start, end) + (if InWindow(last.creationDate, start, end) then [last] else [])
  }

  function WindowAnswers(ans: seq<Answer>, start: int, end: int): (r: seq<Answer>)
    ensures |r| <= |ans|
  {
    if |ans| == 0 then []
    else
      var last := ans[|ans| - 1];
      WindowAnswers(ans[..|ans| - 1], start, end) + (if InWindow(last.creationDate, start, end) then [last] else [])
  }

  function WindowArticles(ars: seq<Article>, start: int, end: int): (r: seq<Article>)
    ensures |r| <= |ars|
  {
    if |ars| == 0 then []
    else
      var last := ars[|ars| - 1];
      WindowArticles(ars[..|ars| - 1], start, end) + (if InWindow(last.creationDate, start, end) then [last] else [])
  }

  function WindowComments(cs: seq<Comment>, start: int, end: int): (r: seq<Comment>)
    ensures |r| <= |cs|
  {
    if |cs| == 0 then []
    else
      var last := cs[|cs| - 1];
      WindowComments(cs[..|cs| - 1], start, end) + (if InWindow(last.creationDate, start, end) then [last] else [])
  }

  function WindowEvents(evs: seq<RepEvent>, start: int, end: int): (r: seq<RepEvent>)
    ensures |r| <= |evs|
  {
    if |evs| == 0 then []
    else
      var last := evs[|evs| - 1];
      WindowEvents(evs[..|evs| - 1], start, end) + (if InWindow(last.creationDate, start, end) then [last] else [])
  }


  // ---- which items the window keeps ----

  lemma {:induction false} WindowedQuestionsMembers(qs: seq<Question>, start: int, end: int)
    ensures forall q :: q in WindowQuestions(qs, start, end) <==> q in qs && InWindow(q.creationDate, start, end)
    decreases |qs|
  {
    if |qs| > 0 {
      assert qs == qs[..|qs| - 1] + [qs[|qs| - 1]];
      WindowedQuestionsMembers(qs[..|qs| - 1], start, end);
    }
  }

  lemma {:induction false} WindowedAnswersMembers(ans: seq<Answer>, start: int, end: int)
    ensures forall a :: a in WindowAnswers(ans, start, end) <==> a in ans && InWindow(a.creationDate, start, end)
    decreases |ans|
  {
    if |ans| > 0 {
      assert ans == ans[..|ans| - 1] + [ans[|ans| - 1]];
      WindowedAnswersMembers(ans[..|ans| - 1], start, end);
    }
  }

  lemma {:induction false} WindowedArticlesMembers(ars: seq<Article>, start: int, end: int)
    ensures forall a :: a in WindowArticles(ars, start, end) <==> a in ars && InWindow(a.creationDate, start, end)
    decreases |ars|
  {
    if |ars| > 0 {
      assert ars == ars[..|ars| - 1] + [ars[|ars| - 1]];
      WindowedArticlesMembers(ars[..|ars| - 1], start, end);
    }
  }

  lemma {:induction false} WindowedCommentsMembers(cs: seq<Comment>, start: int, end: int)
    ensures forall c :: c in WindowComments(cs, start, end) <==> c in cs && InWindow(c.creationDate, start, end)
    decreases |cs|
  {
    if |cs| > 0 {
      assert cs == cs[..|cs| - 1] + [cs[|cs| - 1]];
      WindowedCommentsMembers(cs[..|cs| - 1], start, end);
    }
  }

  lemma {:induction false} WindowedEventsMembers(evs: seq<RepEvent>, start: int, end: int)
    ensures forall e :: e in WindowEvents(evs, start, end) <==> e in evs && InWindow(e.creationDate, start, end)
    decreases |evs|
  {
    if |evs| > 0 {
      assert evs == evs[..|evs| - 1] + [evs[|evs| - 1]];
      WindowedEventsMembers(evs[..|evs| - 1], start, end);
    }
  }

  // ---- counts and sums over a list ----

  /** Questions with an `answer_count` of zero. */
  function Unanswered(qs: seq<Question>): (n: nat)
    ensures n <= |qs|
    ensures n == 0 <==> forall q :: q in qs ==> q.answerCount != 0
  {
    if |qs| == 0 then 0
    else
      assert qs == qs[..|qs| - 1] + [qs[|qs| - 1]];
      Unanswered(qs[..|qs| - 1]) + (if qs[|qs| - 1].answerCount == 0 then 1 else 0)
  }

  function QuestionUpvotes(qs: seq<Question>): int {
    if |qs| == 0 then 0 else QuestionUpvotes(qs[..|qs| - 1]) + qs[|qs| - 1].upVoteCount
  }

  function QuestionDownvotes(qs: seq<Question>): int {
    if |qs| == 0 then 0 else QuestionDownvotes(qs[..|qs| - 1]) + qs[|qs| - 1].downVoteCount
  }

  function AnswerUpvotes(ans: seq<Answer>): int {
    if |ans| == 0 then 0 else AnswerUpvotes(ans[..|ans| - 1]) + ans[|ans| - 1].upVoteCount
  }

  function AnswerDownvotes(ans: seq<Answer>): int {
    if |ans| == 0 then 0 else AnswerDownvotes(ans[..|ans| - 1]) + ans[|ans| - 1].downVoteCount
  }

  /** Answers flagged `is_accepted`. */
  function Accepted(ans: seq<Answer>): (n: nat)
    ensures n <= |ans|
    ensures n == 0 <==> forall a :: a in ans ==> !a.isAccepted
  {
    if |ans| == 0 then 0
    else
      assert ans == ans[..|ans| - 1] + [ans[|ans| - 1]];
      Accepted(ans[..|ans| - 1]) + (if ans[|ans| - 1].isAccepted then 1 else 0)
  }

  /** Article scores, which stand in for article up votes. */
  function ArticleScore(ars: seq<Article>): int {
    if |ars| == 0 then 0 else ArticleScore(ars[..|ars| - 1]) + ars[|ars| - 1].score
  }

  function ReputationSum(evs: seq<RepEvent>): int {
    if |evs| == 0 then 0 else ReputationSum(evs[..|evs| - 1]) + evs[|evs| - 1].reputationChange
  }

  // ---- response-time samples ----

  /** Python's `list.remove(v)`: drops the first element equal to `v`. */
  function RemoveFirst(xs: seq<int>, v: int): (r: seq<int>)
    requires v in xs
    ensures |r| == |xs| - 1
  {
    if xs[0] == v then xs[1..]
    else
      assert v in xs[1..] by {
        var k :| 0 <= k < |xs| && xs[k] == v;
        assert xs[1..][k - 1] == v;
      }
      [xs[0]] + RemoveFirst(xs[1..], v)
  }

  lemma {:induction false} RemoveFirstMultiset(xs: seq<int>, v: int)
    requires v in xs
    ensures multiset(RemoveFirst(xs, v)) == multiset(xs) - multiset{v}
    decreases |xs|
  {
    assert xs == [xs[0]] + xs[1..];
    if xs[0] != v {
      assert v in xs[1..] by {
        var k :| 0 <= k < |xs| && xs[k] == v;
        assert xs[1..][k - 1] == v;
      }
      RemoveFirstMultiset(xs[1..], v);
    }
  }

  /**
   * `for t in xs: if t <= 0: xs.remove(t)` from position `i` on: the iteration reads the
   * element at the current index of the list as it is now, and always advances the index,
   * so the element that slides into the place of a removed one is never looked at.
   */
  function IterRemoveFrom(xs: seq<int>, i: nat): seq<int>
    decreases |xs| - i
  {
    if i >= |xs| then xs
    else if xs[i] <= 0 then IterRemoveFrom(RemoveFirst(xs, xs[i]), i + 1)
    else IterRemoveFrom(xs, i + 1)
  }

  /** The samples as the clean-up loop leaves them. */
  function IterRemove(xs: seq<int>): seq<int> {
    IterRemoveFrom(xs, 0)
  }

  /** The method the loop runs: the list's own index-based iteration with removals. */
  method DropNonPositive(xs: seq<int>) returns (ys: seq<int>)
    ensures ys == IterRemove(xs)
  {
    ys := xs;
    var i := 0;
    while i < |ys|
      invariant IterRemoveFrom(ys, i) == IterRemove(xs)
      decreases |ys| - i
    {
      if ys[i] <= 0 {
        ys := RemoveFirst(ys, ys[i]);
      }
      i := i + 1;
    }
  }

  /** The positive samples, in order: the filtered copy the clean-up evidently intends. */
  function PositiveSamples(xs: seq<int>): (r: seq<int>)
    ensures |r| <= |xs|
  {
    if |xs| == 0 then []
    else
      (if xs[0] > 0 then [xs[0]] else []) + PositiveSamples(xs[1..])
  }

  lemma {:induction false} PositiveSamplesMembers(xs: seq<int>)
    ensures forall x :: x in PositiveSamples(xs) <==> x in xs && x > 0
    decreases |xs|
  {
    if |xs| > 0 {
      assert xs == [xs[0]] + xs[1..];
      PositiveSamplesMembers(xs[1..]);
    }
  }

  lemma {:induction false} PositiveSamplesConcat(a: seq<int>, b: seq<int>)
    ensures PositiveSamples(a + b) == PositiveSamples(a) + PositiveSamples(b)
    decreases |a|
  {
    if |a| == 0 {
      assert a + b == b;
    } else {
      assert (a + b)[0] == a[0];
      assert (a + b)[1..] == a[1..] + b;
      PositiveSamplesConcat(a[1..], b);
    }
  }

  lemma {:induction false} RemoveFirstKeepsPositives(xs: seq<int>, v: int)
    requires v in xs && v <= 0
    ensures PositiveSamples(RemoveFirst(xs, v)) == PositiveSamples(xs)
    decreases |xs|
  {
    if xs[0] != v {
      assert v in xs[1..] by {
        var k :| 0 <= k < |xs| && xs[k] == v;
        assert xs[1..][k - 1] == v;
      }
      RemoveFirstKeepsPositives(xs[1..], v);
      PositiveSamplesConcat([xs[0]], RemoveFirst(xs[1..], v));
    }
  }

  lemma {:induction false} IterRemoveFromKeepsPositives(xs: seq<int>, i: nat)
    ensures PositiveSamples(IterRemoveFrom(xs, i)) == PositiveSamples(xs)
    ensures multiset(IterRemoveFrom(xs, i)) <= multiset(xs)
    decreases |xs| - i
  {
    if i < |xs| {
      if xs[i] <= 0 {
        RemoveFirstKeepsPositives(xs, xs[i]);
        RemoveFirstMultiset(xs, xs[i]);
        IterRemoveFromKeepsPositives(RemoveFirst(xs, xs[i]), i + 1);
      } else {
        IterRemoveFromKeepsPositives(xs, i + 1);
      }
    }
  }

  /**
   * The clean-up never loses a positive sample: the positive samples survive, in order,
   * and what remains is a sub-multiset of the input.
   */
  lemma IterRemoveKeepsPositives(xs: seq<int>)
    ensures PositiveSamples(IterRemove(xs)) == PositiveSamples(xs)
    ensures multiset(IterRemove(xs)) <= multiset(xs)
  {
    IterRemoveFromKeepsPositives(xs, 0);
  }

  /** From index `i` on, no two non-positive samples sit next to each other. */
  predicate NoAdjacentFrom(ys: seq<int>, i: nat) {
    forall k :: i <= k < |ys| - 1 ==> ys[k] > 0 || ys[k + 1] > 0
  }

  lemma PositiveSamplesUnfold(ys: seq<int>, i: nat)
    requires i < |ys|
    ensures PositiveSamples(ys[i..]) == (if ys[i] > 0 then [ys[i]] else []) + PositiveSamples(ys[i + 1..])
  {
    assert ys[i..][0] == ys[i];
    assert ys[i..][1..] == ys[i + 1..];
  }

  lemma {:induction false} IterRemoveFromAgrees(ys: seq<int>, i: nat)
    requires i <= |ys|
    requires forall k :: 0 <= k < i ==> ys[k] > 0
    requires NoAdjacentFrom(ys, i)
    ensures IterRemoveFrom(ys, i) == ys[..i] + PositiveSamples(ys[i..])
    decreases |ys| - i
  {
    if i == |ys| {
      assert ys[..i] == ys && ys[i..] == [];
    } else if ys[i] > 0 {
      IterRemoveFromAgrees(ys, i + 1);
      KeepStep(ys, i);
    } else if i + 1 == |ys| {
      LastRemoved(ys, i);
    } else {
      var zs := ys[..i] + ys[i + 1..];
      RemovalShifts(ys, i);
      IterRemoveFromAgrees(zs, i + 1);
      assert ys[i + 1] > 0;
      RemoveStep(ys, i);
    }
  }

  lemma KeepStep(ys: seq<int>, i: nat)
    requires i < |ys| && ys[i] > 0
    requires IterRemoveFrom(ys, i + 1) == ys[..i + 1] + PositiveSamples(ys[i + 1..])
    ensures IterRemoveFrom(ys, i) == ys[..i] + PositiveSamples(ys[i..])
  {
    PositiveSamplesUnfold(ys, i);
    assert ys[..i + 1] == ys[..i] + [ys[i]];
  }

  lemma LastRemoved(ys: seq<int>, i: nat)
    requires i + 1 == |ys| && ys[i] <= 0
    requires forall k :: 0 <= k < i ==> ys[k] > 0
    ensures IterRemoveFrom(ys, i) == ys[..i] + PositiveSamples(ys[i..])
  {
    RemoveFirstAt(ys, i);
    assert ys[i + 1..] == [];
    assert ys[..i] + ys[i + 1..] == ys[..i];
    PositiveSamplesUnfold(ys, i);
  }

  /** Removing the non-positive sample at `i` keeps the requirements for index `i + 1`. */
  lemma RemovalShifts(ys: seq<int>, i: nat)
    requires i + 1 < |ys| && ys[i] <= 0
    requires forall k :: 0 <= k < i ==> ys[k] > 0
    requires NoAdjacentFrom(ys, i)
    ensures var zs := ys[..i] + ys[i + 1..];
      (forall k :: 0 <= k < i + 1 ==> zs[k] > 0) && NoAdjacentFrom(zs, i + 1)
  {
    var zs := ys[..i] + ys[i + 1..];
    assert forall k :: i <= k < |zs| ==> zs[k] == ys[k + 1];
    assert ys[i + 1] > 0;
  }

  lemma RemoveStep(ys: seq<int>, i: nat)
    requires i + 1 < |ys| && ys[i] <= 0 && ys[i + 1] > 0
    requires forall k :: 0 <= k < i ==> ys[k] != ys[i]
    requires var zs := ys[..i] + ys[i + 1..];
      IterRemoveFrom(zs, i + 1) == zs[..i + 1] + PositiveSamples(zs[i + 1..])
    ensures IterRemoveFrom(ys, i) == ys[..i] + PositiveSamples(ys[i..])
  {
    var zs := ys[..i] + ys[i + 1..];
    RemoveFirstAt(ys, i);
    assert IterRemoveFrom(ys, i) == IterRemoveFrom(zs, i + 1);
    PositiveSamplesUnfold(ys, i);
    PositiveSamplesUnfold(ys, i + 1);
    assert zs[..i + 1] == ys[..i] + [ys[i + 1]];
    assert zs[i + 1..] == ys[i + 2..];
  }

  /** `RemoveFirst` deletes at index `i` when no earlier element equals `xs[i]`. */
  lemma {:induction false} RemoveFirstAt(xs: seq<int>, i: nat)
    requires i < |xs|
    requires forall k :: 0 <= k < i ==> xs[k] != xs[i]
    ensures RemoveFirst(xs, xs[i]) == xs[..i] + xs[i + 1..]
    decreases i
  {
    if i > 0 {
      var t := xs[1..];
      assert t[i - 1] == xs[i];
      RemoveFirstAt(t, i - 1);
      assert xs[..i] == [xs[0]] + t[..i - 1];
      assert xs[i + 1..] == t[i..];
    }
  }

  /**
   * When no two non-positive samples are adjacent, the clean-up as written gives exactly
   * the filtered copy.
   */
  lemma IterRemoveAgrees(xs: seq<int>)
    requires NoAdjacentFrom(xs, 0)
    ensures IterRemove(xs) == PositiveSamples(xs)
  {
    assert xs[0..] == xs;
    IterRemoveFromAgrees(xs, 0);
    assert xs[..0] == [];
  }

  /** Two adjacent non-positive samples: the second one survives the clean-up. */
  lemma SkippedRemoval()
    ensures IterRemove([-1, -2]) == [-2]
    ensures PositiveSamples([-1, -2]) == []
  {
    assert RemoveFirst([-1, -2], -1) == [-2];
    assert PositiveSamples([-2]) == [] by {
      assert [-2][1..] == [];
    }
    assert [-1, -2][1..] == [-2];
  }

  // ---- the median ----

  predicate SortedAsc(s: seq<int>) {
    forall i, j :: 0 <= i < j < |s| ==> s[i] <= s[j]
  }

  function InsertAsc(x: int, s: seq<int>): seq<int> {
    if |s| == 0 then [x]
    else if x <= s[0] then [x] + s
    else [s[0]] + InsertAsc(x, s[1..])
  }

  lemma {:induction false} InsertAscMultiset(x: int, s: seq<int>)
    ensures multiset(InsertAsc(x, s)) == multiset{x} + multiset(s)
    decreases |s|
  {
    if |s| > 0 && x > s[0] {
      InsertAscMultiset(x, s[1..]);
      assert s == [s[0]] + s[1..];
    }
  }

  lemma TailSorted(s: seq<int>)
    requires SortedAsc(s) && |s| > 0
    ensures SortedAsc(s[1..])
  {
    var t := s[1..];
    forall i, j | 0 <= i < j < |t| ensures t[i] <= t[j] {
      assert t[i] == s[i + 1] && t[j] == s[j + 1];
    }
  }

  lemma ConsSorted(a: int, t: seq<int>)
    requires SortedAsc(t) && forall k :: 0 <= k < |t| ==> a <= t[k]
    ensures SortedAsc([a] + t)
  {
    var r := [a] + t;
    forall i, j | 0 <= i < j < |r| ensures r[i] <= r[j] {
      assert r[j] == t[j - 1];
      if i > 0 {
        assert r[i] == t[i - 1];
      }
    }
  }

  lemma {:induction false} InsertAscBound(x: int, s: seq<int>, lo: int)
    requires lo <= x && forall k :: 0 <= k < |s| ==> lo <= s[k]
    ensures forall k :: 0 <= k < |InsertAsc(x, s)| ==> lo <= InsertAsc(x, s)[k]
    decreases |s|
  {
    if |s| > 0 && x > s[0] {
      InsertAscBound(x, s[1..], lo);
      var t := InsertAsc(x, s[1..]);
      forall k | 0 <= k < |[s[0]] + t| ensures lo <= ([s[0]] + t)[k] {
        if k > 0 {
          assert ([s[0]] + t)[k] == t[k - 1];
        }
      }
    }
  }

  lemma {:induction false} InsertAscSorted(x: int, s: seq<int>)
    requires SortedAsc(s)
    ensures SortedAsc(InsertAsc(x, s))
    decreases |s|
  {
    if |s| > 0 {
      if x <= s[0] {
        ConsSorted(x, s);
      } else {
        TailSorted(s);
        InsertAscSorted(x, s[1..]);
        InsertAscBound(x, s[1..], s[0]);
        ConsSorted(s[0], InsertAsc(x, s[1..]));
      }
    }
  }

  /** The ascending sort `statistics.median` performs first. */
  function SortAsc(xs: seq<int>): (r: seq<int>)
    ensures SortedAsc(r) && multiset(r) == multiset(xs)
  {
    if |xs| == 0 then []
    else
      assert xs == [xs[0]] + xs[1..];
      InsertAscSorted(xs[0], SortAsc(xs[1..]));
      InsertAscMultiset(xs[0], SortAsc(xs[1..]));
      InsertAsc(xs[0], SortAsc(xs[1..]))
  }

  /**
   * `statistics.median` of the samples, in hours: the middle sorted sample, or the mean
   * of the two middle ones for an even count. Samples are seconds; an hour is 3600 of them.
   */
  function MedianOf(xs: seq<int>): real
    requires |xs| > 0
  {
    var s := SortAsc(xs);
    var n := |s|;
    if n % 2 == 1 then s[n / 2] as real / 3600.0
    else (s[n / 2 - 1] + s[n / 2]) as real / 7200.0
  }

  /** The median lies within any bounds all samples lie within. */
  lemma MedianWithin(xs: seq<int>, lo: int, hi: int)
    requires |xs| > 0
    requires forall i :: 0 <= i < |xs| ==> lo <= xs[i] <= hi
    ensures lo as real / 3600.0 <= MedianOf(xs) <= hi as real / 3600.0
  {
    var s := SortAsc(xs);
    forall k | 0 <= k < |s| ensures lo <= s[k] <= hi {
      assert s[k] in multiset(xs);
      var i :| 0 <= i < |xs| && xs[i] == s[k];
    }
  }

  /** The `answer_response_time_median` field: blank when no samples remain. */
  function MedianField(samples: seq<int>): (m: Median)
    ensures m == MedianBlank <==> |samples| == 0
  {
    if |samples| > 0 then MedianHours(MedianOf(samples)) else MedianBlank
  }

  /** The median the clean-up evidently intends: over the positive samples only. */
  function IntendedMedianField(samples: seq<int>): (m: Median)
    ensures m == MedianBlank <==> forall x :: x in samples ==> x <= 0
  {
    PositiveSamplesMembers(samples);
    assert forall x :: x in samples && x > 0 ==> x in PositiveSamples(samples);
    assert |PositiveSamples(samples)| > 0 ==> PositiveSamples(samples)[0] in PositiveSamples(samples);
    MedianField(PositiveSamples(samples))
  }

  /** The intended median is blank or a positive number of hours. */
  lemma IntendedMedianPositive(samples: seq<int>)
    ensures IntendedMedianField(samples).MedianHours? ==> IntendedMedianField(samples).hours > 0.0
  {
    var p := PositiveSamples(samples);
    if |p| > 0 {
      PositiveSamplesMembers(samples);
      assert forall i :: 0 <= i < |p| ==> p[i] in p;
      MedianWithin(p, 1, MaxOf(p));
    }
  }

  function MaxOf(xs: seq<int>): (m: int)
    requires |xs| > 0
    ensures forall i :: 0 <= i < |xs| ==> xs[i] <= m
  {
    if |xs| == 1 then xs[0]
    else
      var t := MaxOf(xs[1..]);
      assert forall i :: 1 <= i < |xs| ==> xs[i] == xs[1..][i - 1];
      if xs[0] > t then xs[0] else t
  }

  /**
   * The finding in the clean-up: two adjacent negative samples leave a negative median
   * where the intended field is blank.
   */
  lemma NegativeMedianAsWritten()
    ensures MedianField(IterRemove([-1, -2])) == MedianHours(-2.0 / 3600.0)
    ensures IntendedMedianField([-1, -2]) == MedianBlank
  {
    SkippedRemoval();
    assert SortAsc([-2]) == [-2] by {
      assert [-2][1..] == [];
    }
  }

  // ---- one user record ----

  /** What `process_users` makes of one record for the window (start, end). */
  function Reduced(u: User, start: int, end: int): User {
    var qs := WindowQuestions(u.questions, start, end);
    var ans := WindowAnswers(u.answers, start, end);
    var ars := WindowArticles(u.articles, start, end);
    var samples := IterRemove(u.responseTimes);
    var qUp := u.questionUpvotes + QuestionUpvotes(qs);
    var qDown := u.questionDownvotes + QuestionDownvotes(qs);
    var aUp := u.answerUpvotes + AnswerUpvotes(ans);
    var aDown := u.answerDownvotes + AnswerDownvotes(ans);
    var arUp := u.articleUpvotes + ArticleScore(ars);
    u.(questionCount := u.questionCount + |qs|,
       questionsWithNoAnswers := u.questionsWithNoAnswers + Unanswered(qs),
       questionUpvotes := qUp,
       questionDownvotes := qDown,
       answerCount := u.answerCount + |ans|,
       answerUpvotes := aUp,
       answerDownvotes := aDown,
       answersAccepted := u.answersAccepted + Accepted(ans),
       articleCount := u.articleCount + |ars|,
       articleUpvotes := arUp,
       commentCount := u.commentCount + |WindowComments(u.comments, start, end)|,
       netReputation := u.netReputation + ReputationSum(WindowEvents(u.reputationHistory, start, end)),
       responseTimes := samples,
       median := MedianField(samples),
       totalUpvotes := qUp + aUp + arUp,
       totalDownvotes := Some(qDown + aDown))
  }

  /** The pass over the record's questions: count, unanswered, up and down votes. */
  /** One more question: in the window it adds one to the count and its votes to the sums. */
  lemma QuestionTallyStep(qs: seq<Question>, k: nat, start: int, end: int)
    requires k < |qs|
    ensures var w, w1, q := WindowQuestions(qs[..k], start, end), WindowQuestions(qs[..k + 1], start, end), qs[k];
      if InWindow(q.creationDate, start, end) then
        && |w1| == |w| + 1
        && Unanswered(w1) == Unanswered(w) + (if q.answerCount == 0 then 1 else 0)
        && QuestionUpvotes(w1) == QuestionUpvotes(w) + q.upVoteCount
        && QuestionDownvotes(w1) == QuestionDownvotes(w) + q.downVoteCount
      else w1 == w
  {
    var q := qs[k];
    var w := WindowQuestions(qs[..k], start, end);
    assert qs[..k + 1][..k] == qs[..k] && qs[..k + 1][k] == q;
    if InWindow(q.creationDate, start, end) {
      assert WindowQuestions(qs[..k + 1], start, end) == w + [q];
      assert (w + [q])[..|w|] == w;
    }
  }

  method TallyQuestions(u: User, start: int, end: int) returns (count: int, noAnswers: int, up: int, down: int)
    ensures var w := WindowQuestions(u.questions, start, end);
      && count == u.questionCount + |w|
      && noAnswers == u.questionsWithNoAnswers + Unanswered(w)
      && up == u.questionUpvotes + QuestionUpvotes(w)
      && down == u.questionDownvotes + QuestionDownvotes(w)
  {
    var qs := u.questions;
    count, noAnswers, up, down := u.questionCount, u.questionsWithNoAnswers, u.questionUpvotes, u.questionDownvotes;
    var k := 0;
    while k < |qs|
      invariant 0 <= k <= |qs|
      invariant count == u.questionCount + |WindowQuestions(qs[..k], start, end)|
      invariant noAnswers == u.questionsWithNoAnswers + Unanswered(WindowQuestions(qs[..k], start, end))
      invariant up == u.questionUpvotes + QuestionUpvotes(WindowQuestions(qs[..k], start, end))
      invariant down == u.questionDownvotes + QuestionDownvotes(WindowQuestions(qs[..k], start, end))
    {
      var q := qs[k];
      QuestionTallyStep(qs, k, start, end);
      if InWindow(q.creationDate, start, end) {
        count := count + 1;
        up := up + q.upVoteCount;
        down := down + q.downVoteCount;
        if q.answerCount == 0 {
          noAnswers := noAnswers + 1;
        }
      }
      k := k + 1;
    }
    assert qs[..k] == qs;
  }

  /** The pass over the record's answers: count, up and down votes, accepted. */
  /** One more answer: in the window it adds one to the count, its votes to the sums and its acceptance. */
  lemma AnswerTallyStep(ans: seq<Answer>, k: nat, start: int, end: int)
    requires k < |ans|
    ensures var w, w1, a := WindowAnswers(ans[..k], start, end), WindowAnswers(ans[..k + 1], start, end), ans[k];
      if InWindow(a.creationDate, start, end) then
        && |w1| == |w| + 1
        && AnswerUpvotes(w1) == AnswerUpvotes(w) + a.upVoteCount
        && AnswerDownvotes(w1) == AnswerDownvotes(w) + a.downVoteCount
        && Accepted(w1) == Accepted(w) + (if a.isAccepted then 1 else 0)
      else w1 == w
  {
    var a := ans[k];
    var w := WindowAnswers(ans[..k], start, end);
    assert ans[..k + 1][..k] == ans[..k] && ans[..k + 1][k] == a;
    if InWindow(a.creationDate, start, end) {
      assert WindowAnswers(ans[..k + 1], start, end) == w + [a];
      assert (w + [a])[..|w|] == w;
    }
  }

  method TallyAnswers(u: User, start: int, end: int) returns (count: int, up: int, down: int, accepted: int)
    ensures var w := WindowAnswers(u.answers, start, end);
      && count == u.answerCount + |w|
      && up == u.answerUpvotes + AnswerUpvotes(w)
      && down == u.answerDownvotes + AnswerDownvotes(w)
      && accepted == u.answersAccepted + Accepted(w)
  {
    var ans := u.answers;
    count, up, down, accepted := u.answerCount, u.answerUpvotes, u.answerDownvotes, u.answersAccepted;
    var k := 0;
    while k < |ans|
      invariant 0 <= k <= |ans|
      invariant count == u.answerCount + |WindowAnswers(ans[..k], start, end)|
      invariant up == u.answerUpvotes + AnswerUpvotes(WindowAnswers(ans[..k], start, end))
      invariant down == u.answerDownvotes + AnswerDownvotes(WindowAnswers(ans[..k], start, end))
      invariant accepted == u.answersAccepted + Accepted(WindowAnswers(ans[..k], start, end))
    {
      var a := ans[k];
      AnswerTallyStep(ans, k, start, end);
      if InWindow(a.creationDate, start, end) {
        count := count + 1;
        up := up + a.upVoteCount;
        down := down + a.downVoteCount;
        if a.isAccepted {
          accepted := accepted + 1;
        }
      }
      k := k + 1;
    }
    assert ans[..k] == ans;
  }

  /** The pass over the record's articles: count and score. */
  method TallyArticles(u: User, start: int, end: int) returns (count: int, up: int)
    ensures var w := WindowArticles(u.articles, start, end);
      count == u.articleCount + |w| && up == u.articleUpvotes + ArticleScore(w)
  {
    var ars := u.articles;
    count, up := u.articleCount, u.articleUpvotes;
    var k := 0;
    while k < |ars|
      invariant 0 <= k <= |ars|
      invariant count == u.articleCount + |WindowArticles(ars[..k], start, end)|
      invariant up == u.articleUpvotes + ArticleScore(WindowArticles(ars[..k], start, end))
    {
      var a := ars[k];
      var w := WindowArticles(ars[..k], start, end);
      assert ars[..k + 1][..k] == ars[..k] && ars[..k + 1][k] == a;
      assert WindowArticles(ars[..k + 1], start, end) == if InWindow(a.creationDate, start, end) then w + [a] else w;
      if InWindow(a.creationDate, start, end) {
        assert (w + [a])[..|w|] == w;
        assert ArticleScore(w + [a]) == ArticleScore(w) + a.score;
        count := count + 1;
        up := up + a.score;
      }
      k := k + 1;
    }
    assert ars[..k] == ars;
  }

  /** The pass over the record's comments. */
  method CountComments(u: User, start: int, end: int) returns (count: int)
    ensures count == u.commentCount + |WindowComments(u.comments, start, end)|
  {
    var cs := u.comments;
    count := u.commentCount;
    var k := 0;
    while k < |cs|
      invariant 0 <= k <= |cs|
      invariant count == u.commentCount + |WindowComments(cs[..k], start, end)|
    {
      assert cs[..k + 1][..k] == cs[..k] && cs[..k + 1][k] == cs[k];
      if InWindow(cs[k].creationDate, start, end) {
        count := count + 1;
      }
      k := k + 1;
    }
    assert cs[..k] == cs;
  }

  /** The pass over the record's reputation events. */
  method SumReputation(u: User, start: int, end: int) returns (net: int)
    ensures net == u.netReputation + ReputationSum(WindowEvents(u.reputationHistory, start, end))
  {
    var evs := u.reputationHistory;
    net := u.netReputation;
    var k := 0;
    while k < |evs|
      invariant 0 <= k <= |evs|
      invariant net == u.netReputation + ReputationSum(WindowEvents(evs[..k], start, end))
    {
      var e := evs[k];
      var w := WindowEvents(evs[..k], start, end);
      assert evs[..k + 1][..k] == evs[..k] && evs[..k + 1][k] == e;
      assert WindowEvents(evs[..k + 1], start, end) == if InWindow(e.creationDate, start, end) then w + [e] else w;
      if InWindow(e.creationDate, start, end) {
        assert (w + [e])[..|w|] == w;
        assert ReputationSum(w + [e]) == ReputationSum(w) + e.reputationChange;
        net := net + e.reputationChange;
      }
      k := k + 1;
    }
    assert evs[..k] == evs;
  }

  /**
   * `process_users` for one record: one pass per list adding the windowed items into the
   * record's counters, then the sample clean-up, the median and the totals.
   */
  method Reduce(u: User, start: int, end: int) returns (v: User)
    ensures v == Reduced(u, start, end)
  {
    var questionCount, noAnswers, qUp, qDown := TallyQuestions(u, start, end);
    var answerCount, aUp, aDown, accepted := TallyAnswers(u, start, end);
    var articleCount, arUp := TallyArticles(u, start, end);
    var commentCount := CountComments(u, start, end);
    var net := SumReputation(u, start, end);
    var samples := DropNonPositive(u.responseTimes);
    var median := if |samples| > 0 then MedianHours(MedianOf(samples)) else MedianBlank;
    ghost var r := Reduced(u, start, end);
    assert r.questionCount == questionCount && r.questionsWithNoAnswers == noAnswers;
    assert r.questionUpvotes == qUp && r.questionDownvotes == qDown;
    assert r.answerCount == answerCount && r.answerUpvotes == aUp && r.answerDownvotes == aDown;
    assert r.answersAccepted == accepted && r.articleCount == articleCount && r.articleUpvotes == arUp;
    assert r.commentCount == commentCount && r.netReputation == net;
    assert r.responseTimes == samples && r.median == median;
    v := u.(questionCount := questionCount, questionsWithNoAnswers := noAnswers,
            questionUpvotes := qUp, questionDownvotes := qDown,
            answerCount := answerCount, answerUpvotes := aUp, answerDownvotes := aDown,
            answersAccepted := accepted,
            articleCount := articleCount, articleUpvotes := arUp,
            commentCount := commentCount, netReputation := net,
            responseTimes := samples, median := median,
            totalUpvotes := qUp + aUp + arUp, totalDownvotes := Some(qDown + aDown));
  }

  /**
   * The record's counters are the counts and sums over its own items dated strictly inside
   * (start, end), and its totals add them up: what `process_users` promises of a record.
   */
  predicate CountsWindow(v: User, start: int, end: int) {
    var qs := WindowQuestions(v.questions, start, end);
    var ans := WindowAnswers(v.answers, start, end);
    var ars := WindowArticles(v.articles, start, end);
    && v.questionCount == |qs| && v.questionsWithNoAnswers == Unanswered(qs)
    && v.questionUpvotes == QuestionUpvotes(qs) && v.questionDownvotes == QuestionDownvotes(qs)
    && v.answerCount == |ans| && v.answersAccepted == Accepted(ans)
    && v.answerUpvotes == AnswerUpvotes(ans) && v.answerDownvotes == AnswerDownvotes(ans)
    && v.articleCount == |ars| && v.articleUpvotes == ArticleScore(ars)
    && v.commentCount == |WindowComments(v.comments, start, end)|
    && v.netReputation == ReputationSum(WindowEvents(v.reputationHistory, start, end))
    && v.totalUpvotes == v.questionUpvotes + v.answerUpvotes + v.articleUpvotes
    && v.totalDownvotes.Some? && v.totalDownvotes.value == v.questionDownvotes + v.answerDownvotes
  }

  /**
   * On a record whose counters are still zero, whatever items are attached to it, every
   * counter ends up exactly the count or sum over its windowed items; the unanswered and
   * accepted counts stay within their totals; the median is taken over the cleaned-up
   * samples; and the activity lists, identity and attributes are untouched.
   */
  lemma ReducedCounts(u: User, start: int, end: int)
    requires ZeroCounters(u)
    ensures var v := Reduced(u, start, end);
      && CountsWindow(v, start, end)
      && v.questionsWithNoAnswers <= v.questionCount && v.answersAccepted <= v.answerCount
      && v.responseTimes == IterRemove(u.responseTimes) && v.median == MedianField(v.responseTimes)
      && v.userId == u.userId && v.displayName == u.displayName && v.attrs == u.attrs
      && v.accountStatus == u.accountStatus && v.smeTags == u.smeTags
      && v.questions == u.questions && v.answers == u.answers && v.articles == u.articles
      && v.comments == u.comments && v.reputationHistory == u.reputationHistory
  {
  }

  /** Adding a question dated exactly at either bound changes no counter. */
  lemma BoundaryQuestionIgnored(u: User, q: Question, start: int, end: int)
    requires q.creationDate == start || q.creationDate == end
    ensures var v := Reduced(u, start, end);
      var v' := Reduced(u.(questions := u.questions + [q]), start, end);
      v'.questionCount == v.questionCount && v'.questionUpvotes == v.questionUpvotes
      && v'.questionDownvotes == v.questionDownvotes && v'.totalUpvotes == v.totalUpvotes
      && v'.questionsWithNoAnswers == v.questionsWithNoAnswers
  {
    var qs := u.questions + [q];
    assert qs[..|qs| - 1] == u.questions;
    assert WindowQuestions(qs, start, end) == WindowQuestions(u.questions, start, end);
  }

  /** Adding a reputation event inside the window adds its change to `net_reputation`. */
  lemma WindowedEventCounts(u: User, e: RepEvent, start: int, end: int)
    requires InWindow(e.creationDate, start, end)
    ensures Reduced(u.(reputationHistory := u.reputationHistory + [e]), start, end).netReputation
      == Reduced(u, start, end).netReputation + e.reputationChange
  {
    var evs := u.reputationHistory + [e];
    assert evs[..|evs| - 1] == u.reputationHistory;
    var w := WindowEvents(u.reputationHistory, start, end);
    assert (w + [e])[..|w|] == w;
  }

  lemma CleanUpExample()
    ensures IterRemove([-3600, 7200, 14400, 21600]) == [7200, 14400, 21600]
  {
    var xs := [-3600, 7200, 14400, 21600];
    var ys := [7200, 14400, 21600];
    assert RemoveFirst(xs, -3600) == ys;
    assert IterRemoveFrom(ys, 3) == ys;
    assert IterRemoveFrom(ys, 2) == ys;
    assert IterRemoveFrom(ys, 1) == ys;
  }

  /** Samples already in order come out of the sort unchanged. */
  lemma {:induction false} SortAscKeepsSorted(xs: seq<int>)
    requires SortedAsc(xs)
    ensures SortAsc(xs) == xs
    decreases |xs|
  {
    if |xs| > 0 {
      var t := xs[1..];
      TailSorted(xs);
      SortAscKeepsSorted(t);
      assert SortAsc(xs) == InsertAsc(xs[0], t);
      if |t| > 0 {
        assert xs[0] <= xs[1];
        assert InsertAsc(xs[0], t) == [xs[0]] + t;
      }
      assert [xs[0]] + t == xs;
    }
  }

  lemma SortExample()
    ensures SortAsc([7200, 14400, 21600]) == [7200, 14400, 21600]
  {
    SortAscKeepsSorted([7200, 14400, 21600]);
  }

  /**
   * The worked example: samples of -1, 2, 4 and 6 hours lose the negative one and have a
   * median of 4 hours; a record with no samples gets a blank median, not 0.
   */
  lemma MedianExample()
    ensures MedianField(IterRemove([-3600, 7200, 14400, 21600])) == MedianHours(4.0)
    ensures MedianField(IterRemove([])) == MedianBlank
  {
    CleanUpExample();
    SortExample();
    var ys := [7200, 14400, 21600];
    assert MedianOf(ys) == 14400 as real / 3600.0;
  }
}
