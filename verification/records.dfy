/**
 * The records the report joins: activity items with their owner references, reputation
 * events, the v2 user dictionary, and the per-user record the aggregation builds.
 * Also the small pure helpers of the aggregation: owner resolution, the user index
 * search, the deleted-user placeholder and the defaulting field read.
 */
module Records {
  import opened Wrappers
  import opened Text

  /** A scalar JSON value as the scripts store it in a dictionary. */
  datatype Value = IntVal(i: int) | StrVal(s: string) | BoolVal(b: bool) | RealVal(r: real)

  /** A dictionary of scalar fields (the parts of a user dictionary the aggregation only copies). */
  type Dict = map<string, Value>

  /** Python truthiness of a stored value. */
  predicate Truthy(v: Value) {
    match v
    case IntVal(i) => i != 0
    case StrVal(s) => s != ""
    case BoolVal(b) => b
    case RealVal(r) => r != 0.0
  }

  /** `safe_get_user_field`: the stored value when the key is present, the default otherwise. */
  function SafeGet(d: Dict, field: string, default: Value): (r: Value)
    ensures field in d ==> r == d[field]
    ensures field !in d ==> r == default
  {
    if field in d then d[field] else default
  }

  /** A resolved owner: the API's numeric id, or the display name when no id can be read from it. */
  datatype UserKey = IntId(id: int) | NameId(name: string)

  /** The `owner` object of a question, answer, comment or article; `user_id` is absent for deleted accounts. */
  datatype Owner = Owner(userId: Option<int>, displayName: string)

  /** The uncaught ValueError of `int(...)` on the text after "user". */
  datatype ResolveError = ValueError(segment: string)

  datatype Comment = Comment(owner: Owner, creationDate: int)

  datatype Answer = Answer(owner: Owner, creationDate: int, upVoteCount: int, downVoteCount: int,
                           isAccepted: bool, comments: seq<Comment>)

  datatype Question = Question(owner: Owner, creationDate: int, upVoteCount: int, downVoteCount: int,
                               answerCount: int, answers: seq<Answer>, comments: seq<Comment>)

  /** Articles have no down votes; their score stands in for up votes. */
  datatype Article = Article(owner: Owner, creationDate: int, score: int)

  /** The subject-matter experts of a tag: ids of individual users and ids of user groups. */
  datatype Smes = Smes(users: seq<int>, userGroups: seq<int>)

  const NoSmes := Smes([], [])

  /** A tag as the v3 listing returns it; the expert count is never negative. */
  datatype RawTag = RawTag(id: int, name: string, smeCount: nat)

  /** A tag once `get_tags` has given it its expert lists. */
  datatype Tag = Tag(id: int, name: string, smeCount: nat, smes: Smes)

  datatype RepEvent = RepEvent(userId: int, creationDate: int, reputationChange: int)

  /** A user dictionary as the v2 API returns it: the id, the name, and every other field. */
  datatype RawUser = RawUser(userId: int, displayName: string, attrs: Dict)

  datatype Status = Active | Deactivated | Registered | Deleted

  function StatusName(s: Status): string {
    match s
    case Active => "Active"
    case Deactivated => "Deactivated"
    case Registered => "Registered"
    case Deleted => "Deleted"
  }

  /**
   * The `answer_response_time_median` field: absent (placeholders before the reducer runs),
   * the initial 0, the blank '' of "no samples", or a median in hours.
   */
  datatype Median = MedianUnset | MedianZero | MedianBlank | MedianHours(hours: real)

  /**
   * One aggregated user record. `attrs` holds the scalar fields the core only copies
   * (account_id, email, title, department, external_id, moderator, is_deactivated,
   * account_longevity_days, account_inactivity_days, ...); every other field the
   * aggregation reads or writes is a field of its own.
   */
  datatype User = User(
    userId: UserKey,
    displayName: string,
    attrs: Dict,
    accountStatus: Status,
    questions: seq<Question>,
    answers: seq<Answer>,
    articles: seq<Article>,
    comments: seq<Comment>,
    reputationHistory: seq<RepEvent>,
    smeTags: seq<string>,
    responseTimes: seq<int>,  // answer minus question creation time, in seconds
    questionCount: int,
    questionsWithNoAnswers: int,
    questionUpvotes: int,
    questionDownvotes: int,
    answerCount: int,
    answerUpvotes: int,
    answerDownvotes: int,
    answersAccepted: int,
    articleCount: int,
    articleUpvotes: int,
    commentCount: int,
    totalUpvotes: int,
    totalDownvotes: Option<int>,  // only the reducer sets it
    netReputation: int,
    median: Median)

  /** A record as it leaves initialisation: nothing attached, every counter zero. */
  predicate Fresh(u: User) {
    && u.questions == [] && u.answers == [] && u.articles == [] && u.comments == []
    && u.reputationHistory == [] && u.smeTags == [] && u.responseTimes == []
    && ZeroCounters(u)
  }

  /**
   * Every counter the reducer adds to is zero and no downvote total is set: what the
   * initial records and the placeholders start with, whatever gets attached to them.
   */
  predicate ZeroCounters(u: User) {
    && u.questionCount == 0 && u.questionsWithNoAnswers == 0 && u.questionUpvotes == 0
    && u.questionDownvotes == 0 && u.answerCount == 0 && u.answerUpvotes == 0
    && u.answerDownvotes == 0 && u.answersAccepted == 0 && u.articleCount == 0
    && u.articleUpvotes == 0 && u.commentCount == 0 && u.totalUpvotes == 0
    && u.totalDownvotes.None? && u.netReputation == 0
  }

  function EmptyRecord(key: UserKey, name: string, attrs: Dict, status: Status, median: Median): (u: User)
    ensures Fresh(u)
  {
    User(key, name, attrs, status, [], [], [], [], [], [], [], 0, 0, 0, 0, 0, 0, 0, 0, 0, 0, 0, 0, None, 0, median)
  }

  /**
   * `add_new_user_fields` for one user: empty lists, zero counters, a median of 0, and the
   * account status read from `is_deactivated` (Registered when the key is missing).
   */
  function WithNewFields(raw: RawUser): (u: User)
    ensures Fresh(u) && u.median == MedianZero
    ensures u.userId == IntId(raw.userId) && u.displayName == raw.displayName && u.attrs == raw.attrs
    ensures u.accountStatus == Registered <==> "is_deactivated" !in raw.attrs
    ensures u.accountStatus == Deactivated <==> "is_deactivated" in raw.attrs && Truthy(raw.attrs["is_deactivated"])
    ensures u.accountStatus != Deleted
  {
    var status :=
      if "is_deactivated" !in raw.attrs then Registered
      else if Truthy(raw.attrs["is_deactivated"]) then Deactivated
      else Active;
    EmptyRecord(IntId(raw.userId), raw.displayName, raw.attrs, status, MedianZero)
  }

  /** The text fields a placeholder sets to ''. */
  const PlaceholderBlanks: seq<string> :=
    ["moderator", "email", "title", "department", "external_id", "account_id",
     "account_longevity_days", "account_inactivity_days"]

  /** `initialize_deleted_user`: the record made for an owner missing from the user list. */
  function InitializeDeletedUser(key: UserKey, displayName: string): (u: User)
    ensures Fresh(u) && u.userId == key && u.accountStatus == Deleted
    ensures u.displayName == displayName + " (DELETED)"
    ensures u.attrs.Keys == set f | f in PlaceholderBlanks
    ensures forall f :: f in u.attrs ==> u.attrs[f] == StrVal("")
    ensures u.median == MedianUnset
  {
    var blanks := map f | f in PlaceholderBlanks :: StrVal("");
    EmptyRecord(key, displayName + " (DELETED)", blanks, Deleted, MedianUnset)
  }

  /**
   * `validate_user_id`: the owner's `user_id` when present; otherwise `int` of the text after
   * the first "user" in the display name; the display name itself when it holds no "user".
   * `Err` is the ValueError that `int` raises, which nothing catches.
   */
  function ValidateUserId(owner: Owner): (r: Result<UserKey, ResolveError>)
    ensures owner.userId.Some? ==> r == Ok(IntId(owner.userId.value))
    ensures owner.userId.None? ==>
      (r == Ok(NameId(owner.displayName)) <==> !Contains(owner.displayName, "user"))
    ensures owner.userId.None? && Contains(owner.displayName, "user") ==>
      var n := ParseInt(SplitSecond(owner.displayName, "user").value);
      (r.Err? <==> n.None?) && (n.Some? ==> r == Ok(IntId(n.value)))
  {
    match owner.userId
    case Some(id) => Ok(IntId(id))
    case None =>
      match SplitSecond(owner.displayName, "user")
      case None => Ok(NameId(owner.displayName))
      case Some(segment) =>
        match ParseInt(segment)
        case Some(n) => Ok(IntId(n))
        case None => Err(ValueError(segment))
  }

  lemma NoLetterUInNumber(n: int, j: nat)
    ensures !OccursAt(IntToString(n), "user", j)
  {
    var s := IntToString(n);
    if j + 4 <= |s| {
      assert s[j..j + 4][0] == s[j];
    }
  }

  /**
   * The naming convention the resolution relies on: a deleted account shown as
   * "user<n>" resolves to the id n, for every integer n.
   */
  lemma DeletedAccountNameResolves(n: int)
    ensures ValidateUserId(Owner(None, "user" + IntToString(n))) == Ok(IntId(n))
  {
    var digits := IntToString(n);
    var name := "user" + digits;
    assert name[..4] == "user";
    assert FirstOccurrence(name, "user") == Some(0);
    assert name[4..] == digits;
    forall j: nat ensures !OccursAt(digits, "user", j) {
      NoLetterUInNumber(n, j);
    }
    assert FirstOccurrence(digits, "user").None?;
    assert SplitSecond(name, "user") == Some(digits);
    ParseIntOfIntToString(n);
  }

  /** A display name holding "user" with no number after it is the uncaught ValueError. */
  lemma BareUserNameRaises()
    ensures ValidateUserId(Owner(None, "user")).Err?
    ensures ValidateUserId(Owner(None, "user12x")).Err?
  {
    var a := "user";
    assert a[..4] == "user";
    assert FirstOccurrence(a, "user") == Some(0);
    assert FirstOccurrence(a[4..], "user") == None;
    assert SplitSecond(a, "user") == Some("");
    var b := "user12x";
    assert b[..4] == "user";
    assert FirstOccurrence(b, "user") == Some(0);
    assert b[4..] == "12x";
    assert FirstOccurrence("12x", "user") == None;
    assert SplitSecond(b, "user") == Some("12x");
    assert TrimStart("12x") == "12x";
    assert TrimEnd("12x") == "12x";
    assert !IsDigit("12x"[2]);
  }

  /** `get_user_index` as a specification: the lowest index holding `key`, or None. */
  function IndexOfKey(users: seq<User>, key: UserKey): (r: Option<nat>)
    ensures r.Some? ==> r.value < |users| && users[r.value].userId == key
    ensures r.Some? ==> forall j :: 0 <= j < r.value ==> users[j].userId != key
    ensures r.None? ==> forall j :: 0 <= j < |users| ==> users[j].userId != key
  {
    if |users| == 0 then None
    else if users[0].userId == key then Some(0)
    else match IndexOfKey(users[1..], key)
      case None => None
      case Some(i) => Some(i + 1)
  }

  /** `get_user_index`: a linear scan that stops at the first record holding `key`. */
  method GetUserIndex(users: seq<User>, key: UserKey) returns (r: Option<nat>)
    ensures r == IndexOfKey(users, key)
  {
    var index := 0;
    while index < |users|
      invariant 0 <= index <= |users|
      invariant forall j :: 0 <= j < index ==> users[j].userId != key
    {
      if users[index].userId == key {
        return Some(index);
      }
      index := index + 1;
    }
    return None;
  }
}
