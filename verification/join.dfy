/**
 * The activity join as a specification. `process_questions` (with its nested answers and
 * comments) and `process_articles` attach items one at a time; `Joined` replays that
 * sequence of attachments over a list of user records. The lemmas state what the join
 * guarantees: earlier records keep their place and id, each owner id missing from the
 * list gets exactly one placeholder appended, and each record ends up holding exactly the
 * items of its owner id, in stream order, when it is the first record with that id.
 */
module ActivityJoin {
  import opened Wrappers
  import opened Records

  /** One attachment, in the order the scripts perform them. */
  datatype Activity =
    | Asked(question: Question)
    | Answered(answer: Answer, askedAt: int)  // askedAt: the question's creation_date
    | Commented(comment: Comment)
    | Authored(article: Article)

  function OwnerOf(a: Activity): Owner {
    match a
    case Asked(q) => q.owner
    case Answered(ans, _) => ans.owner
    case Commented(c) => c.owner
    case Authored(ar) => ar.owner
  }

  function KeyOf(a: Activity): Result<UserKey, ResolveError> {
    ValidateUserId(OwnerOf(a))
  }

  /** Every owner in the stream resolves (no uncaught ValueError). */
  predicate Resolves(acts: seq<Activity>) {
    forall i :: 0 <= i < |acts| ==> KeyOf(acts[i]).Ok?
  }

  lemma ResolvesConcat(a: seq<Activity>, b: seq<Activity>)
    ensures Resolves(a + b) <==> Resolves(a) && Resolves(b)
  {
    if Resolves(a + b) {
      forall i | 0 <= i < |a| ensures KeyOf(a[i]).Ok? {
        assert (a + b)[i] == a[i];
      }
      forall i | 0 <= i < |b| ensures KeyOf(b[i]).Ok? {
        assert (a + b)[|a| + i] == b[i];
      }
    }
    if Resolves(a) && Resolves(b) {
      forall i | 0 <= i < |a + b| ensures KeyOf((a + b)[i]).Ok? {
        if i >= |a| {
          assert (a + b)[i] == b[i - |a|];
        }
      }
    }
  }

  /** Appends the activity's item to the list it belongs in; an answer also adds its response time. */
  function Attach(u: User, a: Activity): User {
    match a
    case Asked(q) => u.(questions := u.questions + [q])
    case Answered(ans, askedAt) =>
      u.(answers := u.answers + [ans], responseTimes := u.responseTimes + [ans.creationDate - askedAt])
    case Commented(c) => u.(comments := u.comments + [c])
    case Authored(ar) => u.(articles := u.articles + [ar])
  }

  /**
   * One attachment: the first record holding `key` receives the item; when there is none,
   * a placeholder named after the item's owner is appended and receives it.
   */
  function Step(users: seq<User>, key: UserKey, a: Activity): seq<User> {
    match IndexOfKey(users, key)
    case Some(i) => users[i := Attach(users[i], a)]
    case None => users + [Attach(InitializeDeletedUser(key, OwnerOf(a).displayName), a)]
  }

  /** The records after attaching every activity of `acts`, in order. */
  function Joined(users: seq<User>, acts: seq<Activity>): seq<User>
    requires Resolves(acts)
    decreases |acts|
  {
    if |acts| == 0 then users
    else Joined(Step(users, KeyOf(acts[0]).value, acts[0]), acts[1..])
  }

  lemma {:induction false} JoinedConcat(users: seq<User>, a: seq<Activity>, b: seq<Activity>)
    requires Resolves(a + b)
    ensures Resolves(a) && Resolves(b)
    ensures Joined(users, a + b) == Joined(Joined(users, a), b)
    decreases |a|
  {
    ResolvesConcat(a, b);
    if |a| > 0 {
      assert (a + b)[0] == a[0];
      assert (a + b)[1..] == a[1..] + b;
      JoinedConcat(Step(users, KeyOf(a[0]).value, a[0]), a[1..], b);
    } else {
      assert a + b == b;
    }
  }

  /** Attaching one more activity at the end of the stream is one more `Step`. */
  lemma JoinedSnoc(users: seq<User>, acts: seq<Activity>, a: Activity)
    requires Resolves(acts) && KeyOf(a).Ok?
    ensures Resolves(acts + [a])
    ensures Joined(users, acts + [a]) == Step(Joined(users, acts), KeyOf(a).value, a)
  {
    ResolvesConcat(acts, [a]);
    JoinedConcat(users, acts, [a]);
    assert [a][1..] == [];
  }

  // ---- the activity streams of the scripts' nested loops ----

  function CommentActivities(cs: seq<Comment>): seq<Activity> {
    if |cs| == 0 then [] else CommentActivities(cs[..|cs| - 1]) + [Commented(cs[|cs| - 1])]
  }

  /** One answer: the answer itself, then its comments. */
  function AnswerActivity(ans: Answer, askedAt: int): seq<Activity> {
    [Answered(ans, askedAt)] + CommentActivities(ans.comments)
  }

  function AnswerActivities(answers: seq<Answer>, askedAt: int): seq<Activity> {
    if |answers| == 0 then []
    else AnswerActivities(answers[..|answers| - 1], askedAt) + AnswerActivity(answers[|answers| - 1], askedAt)
  }

  /** One question: the question, then each answer with its comments, then the question's comments. */
  function QuestionActivity(q: Question): seq<Activity> {
    [Asked(q)] + AnswerActivities(q.answers, q.creationDate) + CommentActivities(q.comments)
  }

  function QuestionActivities(qs: seq<Question>): seq<Activity> {
    if |qs| == 0 then [] else QuestionActivities(qs[..|qs| - 1]) + QuestionActivity(qs[|qs| - 1])
  }

  function ArticleActivities(ars: seq<Article>): seq<Activity> {
    if |ars| == 0 then [] else ArticleActivities(ars[..|ars| - 1]) + [Authored(ars[|ars| - 1])]
  }

  lemma {:induction false} CommentActivitiesConcat(a: seq<Comment>, b: seq<Comment>)
    ensures CommentActivities(a + b) == CommentActivities(a) + CommentActivities(b)
    decreases |b|
  {
    if |b| > 0 {
      assert (a + b)[..|a + b| - 1] == a + b[..|b| - 1];
      CommentActivitiesConcat(a, b[..|b| - 1]);
    } else {
      assert a + b == a;
    }
  }

  lemma {:induction false} AnswerActivitiesConcat(a: seq<Answer>, b: seq<Answer>, askedAt: int)
    ensures AnswerActivities(a + b, askedAt) == AnswerActivities(a, askedAt) + AnswerActivities(b, askedAt)
    decreases |b|
  {
    if |b| > 0 {
      assert (a + b)[..|a + b| - 1] == a + b[..|b| - 1];
      AnswerActivitiesConcat(a, b[..|b| - 1], askedAt);
    } else {
      assert a + b == a;
    }
  }

  lemma {:induction false} QuestionActivitiesConcat(a: seq<Question>, b: seq<Question>)
    ensures QuestionActivities(a + b) == QuestionActivities(a) + QuestionActivities(b)
    decreases |b|
  {
    if |b| > 0 {
      assert (a + b)[..|a + b| - 1] == a + b[..|b| - 1];
      QuestionActivitiesConcat(a, b[..|b| - 1]);
    } else {
      assert a + b == a;
    }
  }

  lemma {:induction false} ArticleActivitiesConcat(a: seq<Article>, b: seq<Article>)
    ensures ArticleActivities(a + b) == ArticleActivities(a) + ArticleActivities(b)
    decreases |b|
  {
    if |b| > 0 {
      assert (a + b)[..|a + b| - 1] == a + b[..|b| - 1];
      ArticleActivitiesConcat(a, b[..|b| - 1]);
    } else {
      assert a + b == a;
    }
  }

  // ---- what the join guarantees ----

  /** No earlier record holds the id of record `j`. */
  predicate IsFirst(users: seq<User>, j: nat)
    requires j < |users|
  {
    forall i :: 0 <= i < j ==> users[i].userId != users[j].userId
  }

  predicate UniqueIds(users: seq<User>) {
    forall i, j :: 0 <= i < j < |users| ==> users[i].userId != users[j].userId
  }

  /** The activities of the stream whose owner resolves to `key`, in stream order. */
  function Owned(acts: seq<Activity>, key: UserKey): seq<Activity> {
    if |acts| == 0 then []
    else (if KeyOf(acts[0]) == Ok(key) then [acts[0]] else []) + Owned(acts[1..], key)
  }

  /** The display name of the first activity owned by `key` (the name its placeholder takes). */
  function FirstName(acts: seq<Activity>, key: UserKey): string {
    if |acts| == 0 then ""
    else if KeyOf(acts[0]) == Ok(key) then OwnerOf(acts[0]).displayName
    else FirstName(acts[1..], key)
  }

  /** Attaching the activities one after another to a single record. */
  function Fold(u: User, acts: seq<Activity>): User
    decreases |acts|
  {
    if |acts| == 0 then u else Fold(Attach(u, acts[0]), acts[1..])
  }

  /** What record `j` of the joined list started from: the input record, or a fresh placeholder. */
  function Origin(users: seq<User>, joined: seq<User>, acts: seq<Activity>, j: nat): User
    requires j < |joined|
  {
    if j < |users| then users[j]
    else InitializeDeletedUser(joined[j].userId, FirstName(acts, joined[j].userId))
  }

  lemma StepFacts(users: seq<User>, key: UserKey, a: Activity)
    ensures var u1 := Step(users, key, a);
      && |u1| == |users| + (if IndexOfKey(users, key).None? then 1 else 0)
      && (forall i :: 0 <= i < |users| ==> u1[i].userId == users[i].userId)
      && (IndexOfKey(users, key).None? ==> u1[|users|].userId == key)
      && IndexOfKey(u1, key).Some?
  {
    var u1 := Step(users, key, a);
    match IndexOfKey(users, key)
    case Some(i) =>
      assert u1[i].userId == key;
    case None =>
      assert u1[|users|].userId == key;
  }

  /**
   * Records are never removed or moved: the input records keep their positions and ids;
   * every appended record has an id held by no record before it (one placeholder per
   * missing id); and every owner of the stream is present afterwards.
   */
  lemma {:induction false} JoinedKeys(users: seq<User>, acts: seq<Activity>)
    requires Resolves(acts)
    ensures var w := Joined(users, acts);
      && |w| >= |users|
      && (forall j :: 0 <= j < |users| ==> w[j].userId == users[j].userId)
      && (forall j, i :: |users| <= j < |w| && 0 <= i < j ==> w[i].userId != w[j].userId)
      && (forall k :: 0 <= k < |acts| ==> IndexOfKey(w, KeyOf(acts[k]).value).Some?)
    decreases |acts|
  {
    if |acts| > 0 {
      var a := acts[0];
      var key := KeyOf(a).value;
      var rest := acts[1..];
      var u1 := Step(users, key, a);
      var w := Joined(u1, rest);
      assert Resolves(rest) by {
        forall i | 0 <= i < |rest| ensures KeyOf(rest[i]).Ok? {
          assert rest[i] == acts[i + 1];
        }
      }
      JoinedKeys(u1, rest);
      StepFacts(users, key, a);
      var p := IndexOfKey(u1, key).value;
      assert w[p].userId == key;
      forall k | 0 <= k < |acts| ensures IndexOfKey(w, KeyOf(acts[k]).value).Some? {
        if k > 0 {
          assert acts[k] == rest[k - 1];
        }
      }
    }
  }

  lemma UniqueIdsPreserved(users: seq<User>, acts: seq<Activity>)
    requires Resolves(acts) && UniqueIds(users)
    ensures UniqueIds(Joined(users, acts))
  {
    JoinedKeys(users, acts);
  }

  /**
   * The attribution theorem: record `j` of the joined list is its origin with, appended in
   * stream order, exactly the activities whose owner resolves to its id when it is the first
   * record with that id, and nothing when an earlier record holds the same id.
   */
  lemma {:induction false} Attribution(users: seq<User>, acts: seq<Activity>, j: nat)
    requires Resolves(acts)
    requires j < |Joined(users, acts)|
    ensures var w := Joined(users, acts);
      w[j] == Fold(Origin(users, w, acts, j), if IsFirst(w, j) then Owned(acts, w[j].userId) else [])
    decreases |acts|
  {
    var w := Joined(users, acts);
    if |acts| > 0 {
      var a := acts[0];
      var k := KeyOf(a).value;
      var rest := acts[1..];
      var u1 := Step(users, k, a);
      assert Resolves(rest) by {
        forall i | 0 <= i < |rest| ensures KeyOf(rest[i]).Ok? {
          assert rest[i] == acts[i + 1];
        }
      }
      assert w == Joined(u1, rest);
      JoinedKeys(u1, rest);
      StepFacts(users, k, a);
      Attribution(u1, rest, j);
      var key := w[j].userId;
      assert Owned(acts, key) == (if k == key then [a] else []) + Owned(rest, key);
      var f1 := if IsFirst(w, j) then Owned(rest, key) else [];
      assert w[j] == Fold(Origin(u1, w, rest, j), f1);
      if j < |users| {
        assert w[j].userId == users[j].userId;
        assert Origin(users, w, acts, j) == users[j];
        assert Origin(u1, w, rest, j) == u1[j];
        match IndexOfKey(users, k)
        case Some(i0) =>
          if i0 == j {
            assert key == k;
            assert IsFirst(w, j) by {
              forall i | 0 <= i < j ensures w[i].userId != w[j].userId {
                assert w[i].userId == users[i].userId;
              }
            }
            assert ([a] + Owned(rest, key))[0] == a;
            assert ([a] + Owned(rest, key))[1..] == Owned(rest, key);
          } else {
            assert u1[j] == users[j];
            if key == k {
              assert i0 < j;
              assert w[i0].userId == users[i0].userId == w[j].userId;
              assert !IsFirst(w, j);
            } else {
              assert Owned(acts, key) == Owned(rest, key);
            }
          }
        case None =>
          assert u1[j] == users[j];
          assert key != k;
          assert Owned(acts, key) == Owned(rest, key);
      } else if j < |u1| {
        assert IndexOfKey(users, k).None? && j == |users|;
        assert key == k;
        assert FirstName(acts, k) == OwnerOf(a).displayName;
        assert IsFirst(w, j) by {
          forall i | 0 <= i < j ensures w[i].userId != w[j].userId {
            assert w[i].userId == users[i].userId;
          }
        }
        assert Origin(u1, w, rest, j) == u1[j];
        assert ([a] + Owned(rest, key))[0] == a;
        assert ([a] + Owned(rest, key))[1..] == Owned(rest, key);
      } else {
        var p := IndexOfKey(u1, k).value;
        assert w[p].userId == u1[p].userId == k;
        assert key != k;
        assert FirstName(acts, key) == FirstName(rest, key);
        assert Owned(acts, key) == Owned(rest, key);
        assert Origin(users, w, acts, j) == Origin(u1, w, rest, j);
      }
    }
  }

  // ---- a single record under Fold ----

  function QuestionsIn(acts: seq<Activity>): seq<Question> {
    if |acts| == 0 then []
    else (if acts[0].Asked? then [acts[0].question] else []) + QuestionsIn(acts[1..])
  }

  function AnswersIn(acts: seq<Activity>): seq<Answer> {
    if |acts| == 0 then []
    else (if acts[0].Answered? then [acts[0].answer] else []) + AnswersIn(acts[1..])
  }

  function ResponseTimesIn(acts: seq<Activity>): seq<int> {
    if |acts| == 0 then []
    else (if acts[0].Answered? then [acts[0].answer.creationDate - acts[0].askedAt] else [])
         + ResponseTimesIn(acts[1..])
  }

  function CommentsIn(acts: seq<Activity>): seq<Comment> {
    if |acts| == 0 then []
    else (if acts[0].Commented? then [acts[0].comment] else []) + CommentsIn(acts[1..])
  }

  function ArticlesIn(acts: seq<Activity>): seq<Article> {
    if |acts| == 0 then []
    else (if acts[0].Authored? then [acts[0].article] else []) + ArticlesIn(acts[1..])
  }

  /**
   * Attaching only appends: each list of the record grows by the items of its kind, in
   * order, and every other field (id, name, status, counters, attributes) is untouched.
   */
  lemma {:induction false} FoldAppends(u: User, acts: seq<Activity>)
    ensures Fold(u, acts) == u.(
      questions := u.questions + QuestionsIn(acts),
      answers := u.answers + AnswersIn(acts),
      responseTimes := u.responseTimes + ResponseTimesIn(acts),
      comments := u.comments + CommentsIn(acts),
      articles := u.articles + ArticlesIn(acts))
    decreases |acts|
  {
    if |acts| > 0 {
      FoldAppends(Attach(u, acts[0]), acts[1..]);
    }
  }

  /**
   * The join on a list with unique ids (what the user listing provides): ids stay unique,
   * and every record holds its origin's items followed by exactly the items of its own id.
   */
  lemma ItemsLandWithTheirOwner(users: seq<User>, acts: seq<Activity>, j: nat)
    requires Resolves(acts) && UniqueIds(users)
    requires j < |Joined(users, acts)|
    ensures var w := Joined(users, acts);
      var base := Origin(users, w, acts, j);
      var mine := Owned(acts, w[j].userId);
      && UniqueIds(w)
      && w[j].userId == base.userId
      && w[j].questions == base.questions + QuestionsIn(mine)
      && w[j].answers == base.answers + AnswersIn(mine)
      && w[j].responseTimes == base.responseTimes + ResponseTimesIn(mine)
      && w[j].comments == base.comments + CommentsIn(mine)
      && w[j].articles == base.articles + ArticlesIn(mine)
      && (j >= |users| ==> base.accountStatus == Deleted && Fresh(base))
  {
    var w := Joined(users, acts);
    UniqueIdsPreserved(users, acts);
    JoinedKeys(users, acts);
    Attribution(users, acts, j);
    assert IsFirst(w, j);
    FoldAppends(Origin(users, w, acts, j), Owned(acts, w[j].userId));
  }

  /**
   * Attaching items never touches a counter: when the records start with zero counters,
   * so does every record of the join, placeholders included.
   */
  lemma {:induction false} JoinedZeroCounters(users: seq<User>, acts: seq<Activity>)
    requires Resolves(acts)
    requires forall j :: 0 <= j < |users| ==> ZeroCounters(users[j])
    ensures forall j :: 0 <= j < |Joined(users, acts)| ==> ZeroCounters(Joined(users, acts)[j])
    decreases |acts|
  {
    if |acts| > 0 {
      var next := Step(users, KeyOf(acts[0]).value, acts[0]);
      assert forall j :: 0 <= j < |next| ==> ZeroCounters(next[j]);
      JoinedZeroCounters(next, acts[1..]);
    }
  }

  // ---- the join with its uncaught ValueError ----

  /** The records after a run, and the ValueError that ended it early, if any. */
  datatype Run = Run(users: seq<User>, failure: Option<ResolveError>)

  /**
   * What the scripts do with a stream: attach activity after activity until an owner
   * fails to resolve; the records attached before that stay attached.
   */
  function Execute(users: seq<User>, acts: seq<Activity>): Run
    decreases |acts|
  {
    if |acts| == 0 then Run(users, None)
    else match KeyOf(acts[0])
      case Err(e) => Run(users, Some(e))
      case Ok(key) => Execute(Step(users, key, acts[0]), acts[1..])
  }

  lemma {:induction false} ExecuteConcat(users: seq<User>, a: seq<Activity>, b: seq<Activity>)
    ensures Execute(users, a + b) ==
      (var r := Execute(users, a); if r.failure.Some? then r else Execute(r.users, b))
    decreases |a|
  {
    if |a| == 0 {
      assert a + b == b;
    } else {
      assert (a + b)[0] == a[0];
      assert (a + b)[1..] == a[1..] + b;
      if KeyOf(a[0]).Ok? {
        ExecuteConcat(Step(users, KeyOf(a[0]).value, a[0]), a[1..], b);
      }
    }
  }

  /** The index of the first activity whose owner does not resolve; |acts| when all resolve. */
  function FirstUnresolved(acts: seq<Activity>): (p: nat)
    ensures p <= |acts| && Resolves(acts[..p])
    ensures p < |acts| <==> !Resolves(acts)
    ensures p < |acts| ==> KeyOf(acts[p]).Err?
    decreases |acts|
  {
    if |acts| == 0 then 0
    else if KeyOf(acts[0]).Err? then
      assert acts[..0] == [];
      0
    else
      var rest := acts[1..];
      var q := FirstUnresolved(rest);
      var pre := acts[..q + 1];
      assert Resolves(pre) by {
        forall i | 0 <= i < |pre| ensures KeyOf(pre[i]).Ok? {
          if i > 0 {
            assert pre[i] == rest[..q][i - 1];
          }
        }
      }
      assert !Resolves(rest) ==> !Resolves(acts) by {
        if !Resolves(rest) {
          assert acts[q + 1] == rest[q];
        }
      }
      assert Resolves(rest) ==> Resolves(acts) by {
        if Resolves(rest) {
          forall i | 0 <= i < |acts| ensures KeyOf(acts[i]).Ok? {
            if i > 0 {
              assert acts[i] == rest[i - 1];
            }
          }
        }
      }
      assert q < |rest| ==> acts[q + 1] == rest[q];
      q + 1
  }

  /**
   * A run completes exactly when every owner resolves, and then it is the join; otherwise
   * it stops at the first owner that does not resolve, with the earlier items attached.
   */
  lemma {:induction false} ExecuteOutcome(users: seq<User>, acts: seq<Activity>)
    ensures var p := FirstUnresolved(acts);
      Execute(users, acts) ==
        Run(Joined(users, acts[..p]), if p < |acts| then Some(KeyOf(acts[p]).error) else None)
    decreases |acts|
  {
    var p := FirstUnresolved(acts);
    if |acts| > 0 && KeyOf(acts[0]).Ok? {
      var a := acts[0];
      var rest := acts[1..];
      var u1 := Step(users, KeyOf(a).value, a);
      ExecuteOutcome(u1, rest);
      var q := FirstUnresolved(rest);
      assert p == q + 1;
      var pre := acts[..p];
      assert pre[0] == a && pre[1..] == rest[..q];
      assert Joined(users, pre) == Joined(u1, rest[..q]);
      if q < |rest| {
        assert acts[p] == rest[q];
      }
    } else if |acts| > 0 {
      assert acts[..p] == [];
    } else {
      assert acts[..p] == acts;
    }
  }

  /** A run completes exactly when every owner resolves, and then it is the join. */
  lemma ExecuteCompletes(users: seq<User>, acts: seq<Activity>)
    ensures Execute(users, acts).failure.None? <==> Resolves(acts)
    ensures Resolves(acts) ==> Execute(users, acts).users == Joined(users, acts)
  {
    ExecuteOutcome(users, acts);
    assert acts[..|acts|] == acts;
  }
}
