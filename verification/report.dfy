/**
 * `create_user_report`: the records ordered by net reputation, highest first, with equal
 * values in their original order, each projected onto the report's columns.
 */
module Report {
  import opened Wrappers
  import opened Text
  import opened Records
  import opened Reducer

  // ---- the sort ----

  predicate SortedDesc(us: seq<User>) {
    forall i, j :: 0 <= i < j < |us| ==> us[i].netReputation >= us[j].netReputation
  }

  /** The records whose net reputation is `k`, in order: what stability keeps. */
  function WithReputation(us: seq<User>, k: int): seq<User> {
    if |us| == 0 then []
    else (if us[0].netReputation == k then [us[0]] else []) + WithReputation(us[1..], k)
  }

  /** Put `x` in front of the first record that does not rank strictly above it. */
  function InsertDesc(x: User, us: seq<User>): (r: seq<User>)
    ensures |r| == |us| + 1
  {
    if |us| == 0 || us[0].netReputation <= x.netReputation then [x] + us
    else [us[0]] + InsertDesc(x, us[1..])
  }

  /** Python's `sorted(users, key=net_reputation, reverse=True)`. */
  function SortByReputation(us: seq<User>): (r: seq<User>)
    ensures |r| == |us|
  {
    if |us| == 0 then [] else InsertDesc(us[0], SortByReputation(us[1..]))
  }

  lemma {:induction false} InsertDescMultiset(x: User, us: seq<User>)
    ensures multiset(InsertDesc(x, us)) == multiset(us) + multiset{x}
    decreases |us|
  {
    if |us| > 0 && us[0].netReputation > x.netReputation {
      InsertDescMultiset(x, us[1..]);
      assert us == [us[0]] + us[1..];
    }
  }

  lemma {:induction false} InsertDescStable(x: User, us: seq<User>, k: int)
    ensures WithReputation(InsertDesc(x, us), k) == (if x.netReputation == k then [x] else []) + WithReputation(us, k)
    decreases |us|
  {
    var r := InsertDesc(x, us);
    if |us| == 0 || us[0].netReputation <= x.netReputation {
      assert r[0] == x && r[1..] == us;
    } else {
      InsertDescStable(x, us[1..], k);
      assert r[0] == us[0] && r[1..] == InsertDesc(x, us[1..]);
      // x ranks strictly below us[0], so at most one of them has the value k
      assert us[0].netReputation == k ==> x.netReputation != k;
    }
  }

  lemma {:induction false} InsertDescSorted(x: User, us: seq<User>)
    requires SortedDesc(us)
    ensures SortedDesc(InsertDesc(x, us))
    ensures InsertDesc(x, us)[0] == x || InsertDesc(x, us)[0] == us[0]
    decreases |us|
  {
    var r := InsertDesc(x, us);
    if |us| == 0 || us[0].netReputation <= x.netReputation {
      assert r[0] == x && r[1..] == us;
      forall i, j | 0 <= i < j < |r| ensures r[i].netReputation >= r[j].netReputation {
        assert r[j] == us[j - 1];
        if i > 0 {
          assert r[i] == us[i - 1];
        }
      }
    } else {
      var tail := us[1..];
      assert SortedDesc(tail) by {
        forall i, j | 0 <= i < j < |tail| ensures tail[i].netReputation >= tail[j].netReputation {
          assert tail[i] == us[i + 1] && tail[j] == us[j + 1];
        }
      }
      InsertDescSorted(x, tail);
      var rest := InsertDesc(x, tail);
      assert r[0] == us[0] && r[1..] == rest;
      assert us[0].netReputation >= rest[0].netReputation by {
        if |tail| > 0 {
          assert tail[0] == us[1];
        }
      }
      forall i, j | 0 <= i < j < |r| ensures r[i].netReputation >= r[j].netReputation {
        assert r[j] == rest[j - 1];
        if i > 0 {
          assert r[i] == rest[i - 1];
        }
      }
    }
  }

  /**
   * The report order: highest net reputation first, the same records, and records of
   * equal net reputation in their input order.
   */
  lemma {:induction false} SortByReputationCorrect(us: seq<User>)
    ensures SortedDesc(SortByReputation(us))
    ensures multiset(SortByReputation(us)) == multiset(us)
    ensures forall k :: WithReputation(SortByReputation(us), k) == WithReputation(us, k)
    decreases |us|
  {
    if |us| > 0 {
      SortByReputationCorrect(us[1..]);
      InsertDescMultiset(us[0], SortByReputation(us[1..]));
      InsertDescSorted(us[0], SortByReputation(us[1..]));
      assert us == [us[0]] + us[1..];
      forall k ensures WithReputation(SortByReputation(us), k) == WithReputation(us, k) {
        InsertDescStable(us[0], SortByReputation(us[1..]), k);
        assert WithReputation(us, k) == (if us[0].netReputation == k then [us[0]] else []) + WithReputation(us[1..], k);
      }
    }
  }

  function WithNet(u: User, n: int): User {
    u.(netReputation := n)
  }

  /** Two records of net reputation 5 keep their order around one of -3. */
  lemma StableSortExample(u: User, v: User, w: User)
    ensures var a, b, c := WithNet(u, 5), WithNet(v, -3), WithNet(w, 5);
      SortByReputation([a, b, c]) == [a, c, b]
  {
    var a, b, c := WithNet(u, 5), WithNet(v, -3), WithNet(w, 5);
    assert [a, b, c][1..] == [b, c];
    assert [b, c][1..] == [c];
    assert [c][1..] == [];
    assert SortByReputation([c]) == [c];
    assert InsertDesc(b, [c]) == [c] + InsertDesc(b, []);
    assert SortByReputation([b, c]) == [c, b];
    assert InsertDesc(a, [c, b]) == [a, c, b];
  }

  // ---- the projection ----

  /** One line of the report, column by column in the report's order. */
  datatype Row = Row(
    userId: Value,
    displayName: Value,
    netReputation: Value,
    accountLongevityDays: Value,
    accountInactivityDays: Value,
    questions: Value,
    questionsWithNoAnswers: Value,
    answers: Value,
    answersAccepted: Value,
    medianAnswerTimeHours: Value,
    articles: Value,
    comments: Value,
    totalUpvotes: Value,
    totalDownvotes: Value,
    smeTags: Value,
    accountStatus: Value,
    moderator: Value,
    email: Value,
    title: Value,
    department: Value,
    externalId: Value,
    accountId: Value)

  function KeyValue(k: UserKey): Value {
    match k
    case IntId(id) => IntVal(id)
    case NameId(name) => StrVal(name)
  }

  /** The median column: 0 when the field was never set, '' for no samples, else the hours. */
  function MedianCell(m: Median): (v: Value)
    ensures v == StrVal("") <==> m.MedianBlank?
    ensures m.MedianHours? ==> v == RealVal(m.hours)
    ensures m.MedianUnset? || m.MedianZero? ==> v == IntVal(0)
  {
    match m
    case MedianUnset => IntVal(0)
    case MedianZero => IntVal(0)
    case MedianBlank => StrVal("")
    case MedianHours(h) => RealVal(h)
  }

  /**
   * One user's line, column by column: the identity, the counters and the status from the
   * record; the profile columns read with `safe_get_user_field`, 0 for the two day counts and
   * '' for the text columns when missing, False for a missing moderator flag; the median
   * column as `MedianCell` shows it; the SME tags joined with ", "; a missing downvote total
   * shown as 0.
   */
  function ReportRow(u: User): (r: Row)
    ensures r.userId == KeyValue(u.userId) && r.displayName == StrVal(u.displayName)
    ensures r.netReputation == IntVal(u.netReputation)
    ensures r.accountLongevityDays == SafeGet(u.attrs, "account_longevity_days", IntVal(0))
    ensures r.accountInactivityDays == SafeGet(u.attrs, "account_inactivity_days", IntVal(0))
    ensures r.questions == IntVal(u.questionCount) && r.questionsWithNoAnswers == IntVal(u.questionsWithNoAnswers)
    ensures r.answers == IntVal(u.answerCount) && r.answersAccepted == IntVal(u.answersAccepted)
    ensures r.medianAnswerTimeHours == MedianCell(u.median)
    ensures r.articles == IntVal(u.articleCount) && r.comments == IntVal(u.commentCount)
    ensures r.totalUpvotes == IntVal(u.totalUpvotes)
    ensures u.totalDownvotes.Some? ==> r.totalDownvotes == IntVal(u.totalDownvotes.value)
    ensures u.totalDownvotes.None? ==> r.totalDownvotes == IntVal(0)
    ensures r.smeTags == StrVal(Join(u.smeTags, ", "))
    ensures r.accountStatus == StrVal(StatusName(u.accountStatus))
    ensures r.moderator == SafeGet(u.attrs, "moderator", BoolVal(false))
    ensures "moderator" !in u.attrs ==> r.moderator == BoolVal(false)
    ensures r.email == SafeGet(u.attrs, "email", StrVal(""))
    ensures r.title == SafeGet(u.attrs, "title", StrVal(""))
    ensures r.department == SafeGet(u.attrs, "department", StrVal(""))
    ensures r.externalId == SafeGet(u.attrs, "external_id", StrVal(""))
    ensures r.accountId == SafeGet(u.attrs, "account_id", StrVal(""))
  {
    Row(
      KeyValue(u.userId),
      StrVal(u.displayName),
      IntVal(u.netReputation),
      SafeGet(u.attrs, "account_longevity_days", IntVal(0)),
      SafeGet(u.attrs, "account_inactivity_days", IntVal(0)),
      IntVal(u.questionCount),
      IntVal(u.questionsWithNoAnswers),
      IntVal(u.answerCount),
      IntVal(u.answersAccepted),
      MedianCell(u.median),
      IntVal(u.articleCount),
      IntVal(u.commentCount),
      IntVal(u.totalUpvotes),
      IntVal(u.totalDownvotes.GetOr(0)),
      StrVal(Join(u.smeTags, ", ")),
      StrVal(StatusName(u.accountStatus)),
      SafeGet(u.attrs, "moderator", BoolVal(false)),
      SafeGet(u.attrs, "email", StrVal("")),
      SafeGet(u.attrs, "title", StrVal("")),
      SafeGet(u.attrs, "department", StrVal("")),
      SafeGet(u.attrs, "external_id", StrVal("")),
      SafeGet(u.attrs, "account_id", StrVal("")))
  }

  function Rows(us: seq<User>): (r: seq<Row>)
    ensures |r| == |us|
    ensures forall i :: 0 <= i < |us| ==> r[i] == ReportRow(us[i])
  {
    if |us| == 0 then [] else [ReportRow(us[0])] + Rows(us[1..])
  }

  /** The lines of the report, before the CSV export. */
  function UserReport(us: seq<User>): seq<Row> {
    Rows(SortByReputation(us))
  }

  /**
   * The report has one line per record, lines of records with the same net reputation in
   * record order, and its Net Reputation column never increases going down.
   */
  lemma UserReportOrdered(us: seq<User>)
    ensures |UserReport(us)| == |us|
    ensures forall i, j :: 0 <= i < j < |us| ==>
      UserReport(us)[i].netReputation.i >= UserReport(us)[j].netReputation.i
    ensures forall k :: WithReputation(SortByReputation(us), k) == WithReputation(us, k)
    ensures multiset(SortByReputation(us)) == multiset(us)
  {
    SortByReputationCorrect(us);
  }

  /**
   * A reduced record's line reports its windowed activity: the Questions, Answers, Articles
   * and Comments columns count the items dated inside the window, Net Reputation sums the
   * windowed reputation changes, and the two totals add up the windowed votes.
   */
  lemma ReportedCounts(u: User, start: int, end: int)
    requires CountsWindow(u, start, end)
    ensures var r := ReportRow(u);
      var qs := WindowQuestions(u.questions, start, end);
      var ans := WindowAnswers(u.answers, start, end);
      var ars := WindowArticles(u.articles, start, end);
      && r.questions == IntVal(|qs|) && r.questionsWithNoAnswers == IntVal(Unanswered(qs))
      && r.answers == IntVal(|ans|) && r.answersAccepted == IntVal(Accepted(ans))
      && r.articles == IntVal(|ars|) && r.comments == IntVal(|WindowComments(u.comments, start, end)|)
      && r.netReputation == IntVal(ReputationSum(WindowEvents(u.reputationHistory, start, end)))
      && r.totalUpvotes == IntVal(QuestionUpvotes(qs) + AnswerUpvotes(ans) + ArticleScore(ars))
      && r.totalDownvotes == IntVal(QuestionDownvotes(qs) + AnswerDownvotes(ans))
  {
  }

  /** A placeholder whose median was never set and whose downvote total is absent reads as 0 in both columns. */
  lemma PlaceholderRowDefaults(key: UserKey, name: string)
    ensures var r := ReportRow(InitializeDeletedUser(key, name));
      && r.medianAnswerTimeHours == IntVal(0) && r.totalDownvotes == IntVal(0)
      && r.accountStatus == StrVal("Deleted") && r.email == StrVal("") && r.moderator == StrVal("")
  {
    var u := InitializeDeletedUser(key, name);
    assert "email" in PlaceholderBlanks && "moderator" in PlaceholderBlanks;
    assert u.attrs["email"] == StrVal("") && u.attrs["moderator"] == StrVal("");
  }
}
