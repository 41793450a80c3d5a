/**
 * The aggregation engine: the list of user records that `process_api_data` threads through
 * `add_new_user_fields`, `process_tags`, `process_questions` (with `process_answers` and
 * `process_comments`), `process_articles`, `process_reputation_history` and `process_users`.
 * The list is a field that each step updates in place; each method is proved against the
 * specification functions of the join, the tag and event attribution, and the reducer.
 */
module Aggregator {
  import opened Wrappers
  import opened Records
  import opened ActivityJoin
  import opened Reducer
  import opened Text

  // ---- tag attribution ----

  /** One copy of `name` per entry of `ids` equal to the record's id, in list order. */
  function Matches(ids: seq<int>, key: UserKey, name: string): seq<string> {
    if |ids| == 0 then []
    else Matches(ids[..|ids| - 1], key, name) + (if key == IntId(ids[|ids| - 1]) then [name] else [])
  }

  /** What `process_tags` appends for one tag: the individual matches, then the group matches. */
  function TagCopies(tag: Tag, key: UserKey): seq<string> {
    Matches(tag.smes.users, key, tag.name) + Matches(tag.smes.userGroups, key, tag.name)
  }

  /** What `process_tags` appends to a record over all tags, in tag order. */
  function TagsFor(tags: seq<Tag>, key: UserKey): seq<string> {
    if |tags| == 0 then [] else TagsFor(tags[..|tags| - 1], key) + TagCopies(tags[|tags| - 1], key)
  }

  function WithTags(u: User, tags: seq<Tag>): User {
    u.(smeTags := u.smeTags + TagsFor(tags, u.userId))
  }

  /** One more tag appends that tag's copies after those of the earlier tags. */
  lemma WithTagsStep(u: User, tags: seq<Tag>, i: nat)
    requires i < |tags|
    ensures var v := WithTags(u, tags[..i]);
      WithTags(u, tags[..i + 1]) == v.(smeTags := v.smeTags + TagCopies(tags[i], v.userId))
  {
    var front := tags[..i + 1];
    assert front[..|front| - 1] == tags[..i] && front[|front| - 1] == tags[i];
    assert TagsFor(front, u.userId) == TagsFor(tags[..i], u.userId) + TagCopies(tags[i], u.userId);
    assert u.smeTags + (TagsFor(tags[..i], u.userId) + TagCopies(tags[i], u.userId))
        == u.smeTags + TagsFor(tags[..i], u.userId) + TagCopies(tags[i], u.userId);
  }

  /**
   * The name is appended once per matching entry: as many times as the id occurs in the
   * list, and never for a record whose id is a display name.
   */
  lemma {:induction false} MatchesCount(ids: seq<int>, key: UserKey, name: string)
    ensures |Matches(ids, key, name)| == if key.IntId? then multiset(ids)[key.id] else 0
    ensures forall s :: s in Matches(ids, key, name) ==> s == name
    decreases |ids|
  {
    if |ids| > 0 {
      var init := ids[..|ids| - 1];
      assert ids == init + [ids[|ids| - 1]];
      MatchesCount(init, key, name);
    }
  }

  /** A record gets a tag's name exactly when its id is listed as an individual or a group expert. */
  lemma {:induction false} TagsForMembers(tags: seq<Tag>, id: int, name: string)
    ensures name in TagsFor(tags, IntId(id)) <==>
      exists i :: 0 <= i < |tags| && tags[i].name == name
        && (id in tags[i].smes.users || id in tags[i].smes.userGroups)
    decreases |tags|
  {
    if |tags| > 0 {
      var init := tags[..|tags| - 1];
      var t := tags[|tags| - 1];
      TagsForMembers(init, id, name);
      MatchesCount(t.smes.users, IntId(id), t.name);
      MatchesCount(t.smes.userGroups, IntId(id), t.name);
      assert name in TagCopies(t, IntId(id)) <==> t.name == name && (id in t.smes.users || id in t.smes.userGroups) by {
        if t.name == name && id in t.smes.users {
          assert |Matches(t.smes.users, IntId(id), t.name)| > 0;
          assert Matches(t.smes.users, IntId(id), t.name)[0] in Matches(t.smes.users, IntId(id), t.name);
        }
        if t.name == name && id in t.smes.userGroups {
          assert |Matches(t.smes.userGroups, IntId(id), t.name)| > 0;
          assert Matches(t.smes.userGroups, IntId(id), t.name)[0] in Matches(t.smes.userGroups, IntId(id), t.name);
        }
      }
      if exists i :: 0 <= i < |tags| && tags[i].name == name && (id in tags[i].smes.users || id in tags[i].smes.userGroups) {
        var i :| 0 <= i < |tags| && tags[i].name == name && (id in tags[i].smes.users || id in tags[i].smes.userGroups);
        if i < |tags| - 1 {
          assert init[i] == tags[i];
        }
      }
      if exists i :: 0 <= i < |init| && init[i].name == name && (id in init[i].smes.users || id in init[i].smes.userGroups) {
        var i :| 0 <= i < |init| && init[i].name == name && (id in init[i].smes.users || id in init[i].smes.userGroups);
        assert tags[i] == init[i];
      }
    }
  }

  /** The tag attribution the comment beside the `continue` describes: at most one copy per tag. */
  function IntendedTagCopies(tag: Tag, key: UserKey): (r: seq<string>)
    ensures |r| <= 1
  {
    if key.IntId? && key.id in tag.smes.users then [tag.name]
    else if key.IntId? && key.id in tag.smes.userGroups then [tag.name]
    else []
  }

  /** The intended attribution names the same tags as the code, without repeats. */
  lemma IntendedTagCopiesAgree(tag: Tag, key: UserKey, name: string)
    ensures name in IntendedTagCopies(tag, key) <==> name in TagCopies(tag, key)
  {
    MatchesCount(tag.smes.users, key, tag.name);
    MatchesCount(tag.smes.userGroups, key, tag.name);
    var a := Matches(tag.smes.users, key, tag.name);
    var b := Matches(tag.smes.userGroups, key, tag.name);
    if |a| > 0 {
      assert a[0] in a;
    }
    if |b| > 0 {
      assert b[0] in b;
    }
  }

  /** The finding: an id found among both the individual ids and the group ids of a tag gets the tag twice. */
  lemma DuplicateTagAsWritten()
    ensures TagCopies(Tag(1, "python", 2, Smes([7], [7])), IntId(7)) == ["python", "python"]
    ensures IntendedTagCopies(Tag(1, "python", 2, Smes([7], [7])), IntId(7)) == ["python"]
  {
    assert [7][..0] == [];
  }

  // ---- reputation events ----

  /** The events whose `user_id` equals the record's id, in input order. */
  function EventsFor(events: seq<RepEvent>, key: UserKey): seq<RepEvent> {
    if |events| == 0 then []
    else
      var e := events[|events| - 1];
      EventsFor(events[..|events| - 1], key) + (if key == IntId(e.userId) then [e] else [])
  }

  function WithEvents(u: User, events: seq<RepEvent>): User {
    u.(reputationHistory := u.reputationHistory + EventsFor(events, u.userId))
  }

  lemma {:induction false} EventsForMembers(events: seq<RepEvent>, key: UserKey)
    ensures forall e :: e in EventsFor(events, key) <==> e in events && key == IntId(e.userId)
    decreases |events|
  {
    if |events| > 0 {
      assert events == events[..|events| - 1] + [events[|events| - 1]];
      EventsForMembers(events[..|events| - 1], key);
    }
  }

  /** An event lands in the history of every record holding its user id, and of no other. */
  lemma EventAttribution(users: seq<User>, events: seq<RepEvent>, e: RepEvent)
    requires e in events
    ensures forall j :: 0 <= j < |users| ==>
      (e in EventsFor(events, users[j].userId) <==> users[j].userId == IntId(e.userId))
  {
    forall j | 0 <= j < |users| {
      EventsForMembers(events, users[j].userId);
    }
  }

  /**
   * An event whose user id no record holds is dropped: every record's history is what it
   * was plus events of its own id only, and no record is made for it.
   */
  lemma EventDropped(users: seq<User>, events: seq<RepEvent>, e: RepEvent)
    requires forall j :: 0 <= j < |users| ==> users[j].userId != IntId(e.userId)
    ensures forall j :: 0 <= j < |users| ==> e !in EventsFor(events, users[j].userId)
    ensures forall j :: 0 <= j < |users| ==>
      multiset(WithEvents(users[j], events).reputationHistory)[e] == multiset(users[j].reputationHistory)[e]
  {
    forall j | 0 <= j < |users| ensures e !in EventsFor(events, users[j].userId) {
      EventsForMembers(events, users[j].userId);
    }
  }

  // ---- the initial records ----

  function NewRecords(raw: seq<RawUser>): (r: seq<User>)
    ensures |r| == |raw|
  {
    if |raw| == 0 then [] else NewRecords(raw[..|raw| - 1]) + [WithNewFields(raw[|raw| - 1])]
  }

  lemma {:induction false} NewRecordsAt(raw: seq<RawUser>, i: nat)
    requires i < |raw|
    ensures NewRecords(raw)[i] == WithNewFields(raw[i])
    decreases |raw|
  {
    if i < |raw| - 1 {
      NewRecordsAt(raw[..|raw| - 1], i);
    }
  }

  /** Distinct user ids in the listing give records with distinct ids. */
  lemma NewRecordsUnique(raw: seq<RawUser>)
    requires forall i, j :: 0 <= i < j < |raw| ==> raw[i].userId != raw[j].userId
    ensures UniqueIds(NewRecords(raw))
  {
    forall i | 0 <= i < |raw| ensures NewRecords(raw)[i].userId == IntId(raw[i].userId) {
      NewRecordsAt(raw, i);
    }
  }

  /** The list of user records and the steps that build it up. */
  class Registry {
    var users: seq<User>

    /** `add_new_user_fields` over the user listing. */
    constructor (raw: seq<RawUser>)
      ensures users == NewRecords(raw)
    {
      var records := [];
      var i := 0;
      while i < |raw|
        invariant 0 <= i <= |raw|
        invariant records == NewRecords(raw[..i])
      {
        assert raw[..i + 1][..i] == raw[..i];
        records := records + [WithNewFields(raw[i])];
        i := i + 1;
      }
      assert raw[..i] == raw;
      users := records;
    }

    /**
     * The common body of the `process_*` loops: resolve the owner, find its record or append
     * a placeholder and find that, then attach the item. A ValueError ends the run.
     */
    method AttachTo(a: Activity) returns (failure: Option<ResolveError>)
      modifies this
      ensures Run(users, failure) == Execute(old(users), [a])
    {
      var key := ValidateUserId(OwnerOf(a));
      if key.Err? {
        return Some(key.error);
      }
      var index := GetUserIndex(users, key.value);
      if index.None? {
        users := users + [InitializeDeletedUser(key.value, OwnerOf(a).displayName)];
        index := GetUserIndex(users, key.value);
        assert users[|users| - 1].userId == key.value;
      }
      users := users[index.value := Attach(users[index.value], a)];
      assert [a][1..] == [];
      return None;
    }

    /** `process_comments`: every comment of a question or an answer, in order. */
    method ProcessComments(comments: seq<Comment>) returns (failure: Option<ResolveError>)
      modifies this
      ensures Run(users, failure) == Execute(old(users), CommentActivities(comments))
    {
      var i := 0;
      while i < |comments|
        invariant 0 <= i <= |comments|
        invariant Run(users, None) == Execute(old(users), CommentActivities(comments[..i]))
      {
        ghost var before := users;
        failure := AttachTo(Commented(comments[i]));
        CommentsSplit(comments, i);
        StreamStep(old(users), before, CommentActivities(comments[..i]), [Commented(comments[i])],
                   CommentActivities(comments[i + 1..]));
        if failure.Some? {
          return;
        }
        i := i + 1;
      }
      assert comments[..i] == comments;
      return None;
    }

    /** One answer of `process_answers`: the answer with its response time, then its comments if it has any. */
    method ProcessAnswer(ans: Answer, askedAt: int) returns (failure: Option<ResolveError>)
      modifies this
      ensures Run(users, failure) == Execute(old(users), AnswerActivity(ans, askedAt))
    {
      var answered := [Answered(ans, askedAt)];
      failure := AttachTo(Answered(ans, askedAt));
      if failure.Some? {
        FailedPrefix(old(users), answered, CommentActivities(ans.comments));
        return;
      }
      ghost var mid := users;
      if |ans.comments| > 0 {
        failure := ProcessComments(ans.comments);
      } else {
        assert CommentActivities(ans.comments) == [];
      }
      ExecuteConcat(old(users), answered, CommentActivities(ans.comments));
    }

    /** `process_answers`: each answer in turn, stopping at an owner that does not resolve. */
    method ProcessAnswers(answers: seq<Answer>, askedAt: int) returns (failure: Option<ResolveError>)
      modifies this
      ensures Run(users, failure) == Execute(old(users), AnswerActivities(answers, askedAt))
    {
      var i := 0;
      while i < |answers|
        invariant 0 <= i <= |answers|
        invariant Run(users, None) == Execute(old(users), AnswerActivities(answers[..i], askedAt))
      {
        ghost var before := users;
        failure := ProcessAnswer(answers[i], askedAt);
        AnswerStep(old(users), before, answers, i, askedAt);
        if failure.Some? {
          return;
        }
        i := i + 1;
      }
      assert answers[..i] == answers;
      return None;
    }

    /** One question of `process_questions`: the question, its answers if any, its comments if any. */
    method ProcessQuestion(q: Question) returns (failure: Option<ResolveError>)
      modifies this
      ensures Run(users, failure) == Execute(old(users), QuestionActivity(q))
    {
      var asked := [Asked(q)];
      var answered := AnswerActivities(q.answers, q.creationDate);
      var commented := CommentActivities(q.comments);
      assert QuestionActivity(q) == asked + (answered + commented);
      failure := AttachTo(Asked(q));
      if failure.Some? {
        FailedPrefix(old(users), asked, answered + commented);
        return;
      }
      ExecuteConcat(old(users), asked, answered + commented);
      ghost var mid := users;
      if |q.answers| > 0 {
        failure := ProcessAnswers(q.answers, q.creationDate);
      } else {
        assert answered == [];
      }
      ExecuteConcat(mid, answered, commented);
      if failure.Some? {
        return;
      }
      if |q.comments| > 0 {
        failure := ProcessComments(q.comments);
      } else {
        assert commented == [];
      }
    }

    /** `process_questions`: each question in turn, stopping at an owner that does not resolve. */
    method ProcessQuestions(questions: seq<Question>) returns (failure: Option<ResolveError>)
      modifies this
      ensures Run(users, failure) == Execute(old(users), QuestionActivities(questions))
    {
      var i := 0;
      while i < |questions|
        invariant 0 <= i <= |questions|
        invariant Run(users, None) == Execute(old(users), QuestionActivities(questions[..i]))
      {
        ghost var before := users;
        failure := ProcessQuestion(questions[i]);
        QuestionStep(old(users), before, questions, i);
        if failure.Some? {
          return;
        }
        i := i + 1;
      }
      assert questions[..i] == questions;
      return None;
    }

    /** `process_articles`: each article, attached to its author. */
    method ProcessArticles(articles: seq<Article>) returns (failure: Option<ResolveError>)
      modifies this
      ensures Run(users, failure) == Execute(old(users), ArticleActivities(articles))
    {
      var i := 0;
      while i < |articles|
        invariant 0 <= i <= |articles|
        invariant Run(users, None) == Execute(old(users), ArticleActivities(articles[..i]))
      {
        ghost var before := users;
        failure := AttachTo(Authored(articles[i]));
        ArticlesSplit(articles, i);
        StreamStep(old(users), before, ArticleActivities(articles[..i]), [Authored(articles[i])],
                   ArticleActivities(articles[i + 1..]));
        if failure.Some? {
          return;
        }
        i := i + 1;
      }
      assert articles[..i] == articles;
      return None;
    }

    /** The two expert loops of `process_tags` for record `j` and one tag. */
    method AddSmeTags(j: nat, tag: Tag)
      requires j < |users|
      modifies this
      ensures users == old(users)[j := old(users)[j].(smeTags := old(users)[j].smeTags + TagCopies(tag, old(users)[j].userId))]
    {
      var key := users[j].userId;
      var names := users[j].smeTags;
      var ids := tag.smes.users;
      var k := 0;
      while k < |ids|
        invariant 0 <= k <= |ids|
        invariant names == old(users)[j].smeTags + Matches(ids[..k], key, tag.name)
      {
        assert ids[..k + 1][..k] == ids[..k];
        if key == IntId(ids[k]) {
          names := names + [tag.name];
        }
        k := k + 1;
      }
      assert ids[..k] == ids;
      var groups := tag.smes.userGroups;
      k := 0;
      while k < |groups|
        invariant 0 <= k <= |groups|
        invariant names == old(users)[j].smeTags + Matches(ids, key, tag.name) + Matches(groups[..k], key, tag.name)
      {
        assert groups[..k + 1][..k] == groups[..k];
        if key == IntId(groups[k]) {
          names := names + [tag.name];
        }
        k := k + 1;
      }
      assert groups[..k] == groups;
      assert names == old(users)[j].smeTags + TagCopies(tag, key);
      users := users[j := users[j].(smeTags := names)];
    }

    /** One tag of `process_tags`: every record gets the tag's name once per matching expert entry. */
    method AddTagToAll(tag: Tag)
      modifies this
      ensures |users| == |old(users)|
      ensures forall j :: 0 <= j < |users| ==>
        users[j] == old(users)[j].(smeTags := old(users)[j].smeTags + TagCopies(tag, old(users)[j].userId))
    {
      var j := 0;
      while j < |users|
        invariant 0 <= j <= |users| == |old(users)|
        invariant forall k :: 0 <= k < j ==>
          users[k] == old(users)[k].(smeTags := old(users)[k].smeTags + TagCopies(tag, old(users)[k].userId))
        invariant forall k :: j <= k < |users| ==> users[k] == old(users)[k]
      {
        AddSmeTags(j, tag);
        j := j + 1;
      }
    }

    /** `process_tags`: for each tag, for each record, the name once per matching expert entry. */
    method ProcessTags(tags: seq<Tag>)
      modifies this
      ensures |users| == |old(users)|
      ensures forall j :: 0 <= j < |users| ==> users[j] == WithTags(old(users)[j], tags)
    {
      var i := 0;
      while i < |tags|
        invariant 0 <= i <= |tags|
        invariant |users| == |old(users)|
        invariant forall j :: 0 <= j < |users| ==> users[j] == WithTags(old(users)[j], tags[..i])
      {
        AddTagToAll(tags[i]);
        forall j | 0 <= j < |users| ensures users[j] == WithTags(old(users)[j], tags[..i + 1]) {
          WithTagsStep(old(users)[j], tags, i);
        }
        i := i + 1;
      }
      assert tags[..i] == tags;
    }

    /** `process_reputation_history`: each record collects the events carrying its id. */
    method ProcessReputationHistory(events: seq<RepEvent>)
      modifies this
      ensures |users| == |old(users)|
      ensures forall j :: 0 <= j < |users| ==> users[j] == WithEvents(old(users)[j], events)
    {
      var j := 0;
      while j < |users|
        invariant 0 <= j <= |users| == |old(users)|
        invariant forall m :: 0 <= m < j ==> users[m] == WithEvents(old(users)[m], events)
        invariant forall m :: j <= m < |users| ==> users[m] == old(users)[m]
      {
        var key := users[j].userId;
        var history := users[j].reputationHistory;
        var k := 0;
        while k < |events|
          invariant 0 <= k <= |events|
          invariant history == old(users)[j].reputationHistory + EventsFor(events[..k], key)
        {
          assert events[..k + 1][..k] == events[..k];
          if key == IntId(events[k].userId) {
            history := history + [events[k]];
          }
          k := k + 1;
        }
        assert events[..k] == events;
        users := users[j := users[j].(reputationHistory := history)];
        j := j + 1;
      }
    }

    /** `process_users`: every record reduced for the window (start, end). */
    method ProcessUsers(start: int, end: int)
      modifies this
      ensures |users| == |old(users)|
      ensures forall j :: 0 <= j < |users| ==> users[j] == Reduced(old(users)[j], start, end)
    {
      var j := 0;
      while j < |users|
        invariant 0 <= j <= |users| == |old(users)|
        invariant forall k :: 0 <= k < j ==> users[k] == Reduced(old(users)[k], start, end)
        invariant forall k :: j <= k < |users| ==> users[k] == old(users)[k]
      {
        var v := Reduce(users[j], start, end);
        users := users[j := v];
        j := j + 1;
      }
    }
  }

  // ---- helpers for the early exits ----

  /** Once a prefix of a stream fails, the rest of the stream is never looked at. */
  lemma FailedPrefix(users: seq<User>, a: seq<Activity>, b: seq<Activity>)
    requires Execute(users, a).failure.Some?
    ensures Execute(users, a + b) == Execute(users, a)
  {
    ExecuteConcat(users, a, b);
  }

  /**
   * One piece of a stream further: when the prefix ran clean to `before`, running the piece
   * from `before` is running the longer prefix; a failure there ends the whole stream.
   */
  lemma StreamStep(users: seq<User>, before: seq<User>, done: seq<Activity>, one: seq<Activity>, rest: seq<Activity>)
    requires Run(before, None) == Execute(users, done)
    ensures var r := Execute(before, one);
      && r == Execute(users, done + one)
      && (r.failure.Some? ==> r == Execute(users, done + one + rest))
  {
    ExecuteConcat(users, done, one);
    if Execute(before, one).failure.Some? {
      FailedPrefix(users, done + one, rest);
    }
  }

  lemma CommentsSplit(comments: seq<Comment>, i: nat)
    requires i < |comments|
    ensures CommentActivities(comments[..i + 1]) == CommentActivities(comments[..i]) + [Commented(comments[i])]
    ensures CommentActivities(comments) == CommentActivities(comments[..i + 1]) + CommentActivities(comments[i + 1..])
  {
    var front, back := comments[..i + 1], comments[i + 1..];
    assert front[..|front| - 1] == comments[..i] && front[|front| - 1] == comments[i];
    assert front + back == comments;
    CommentActivitiesConcat(front, back);
  }

  lemma ArticlesSplit(articles: seq<Article>, i: nat)
    requires i < |articles|
    ensures ArticleActivities(articles[..i + 1]) == ArticleActivities(articles[..i]) + [Authored(articles[i])]
    ensures ArticleActivities(articles) == ArticleActivities(articles[..i + 1]) + ArticleActivities(articles[i + 1..])
  {
    var front, back := articles[..i + 1], articles[i + 1..];
    assert front[..|front| - 1] == articles[..i] && front[|front| - 1] == articles[i];
    assert front + back == articles;
    ArticleActivitiesConcat(front, back);
  }

  /** One answer further along an answer list (see StreamStep). */
  lemma AnswerStep(users: seq<User>, before: seq<User>, answers: seq<Answer>, i: nat, askedAt: int)
    requires i < |answers|
    requires Run(before, None) == Execute(users, AnswerActivities(answers[..i], askedAt))
    ensures var r := Execute(before, AnswerActivity(answers[i], askedAt));
      && r == Execute(users, AnswerActivities(answers[..i + 1], askedAt))
      && (r.failure.Some? ==> r == Execute(users, AnswerActivities(answers, askedAt)))
  {
    AnswersSplit(answers, i, askedAt);
    StreamStep(users, before, AnswerActivities(answers[..i], askedAt), AnswerActivity(answers[i], askedAt),
               AnswerActivities(answers[i + 1..], askedAt));
  }

  lemma AnswersSplit(answers: seq<Answer>, i: nat, askedAt: int)
    requires i < |answers|
    ensures var done, one := AnswerActivities(answers[..i], askedAt), AnswerActivity(answers[i], askedAt);
      && AnswerActivities(answers[..i + 1], askedAt) == done + one
      && AnswerActivities(answers, askedAt) == done + one + AnswerActivities(answers[i + 1..], askedAt)
  {
    assert answers[..i + 1][..i] == answers[..i];
    AnswerActivitiesConcat(answers[..i + 1], answers[i + 1..], askedAt);
    assert answers[..i + 1] + answers[i + 1..] == answers;
  }

  /** One question further along a question list (see StreamStep). */
  lemma QuestionStep(users: seq<User>, before: seq<User>, questions: seq<Question>, i: nat)
    requires i < |questions|
    requires Run(before, None) == Execute(users, QuestionActivities(questions[..i]))
    ensures var r := Execute(before, QuestionActivity(questions[i]));
      && r == Execute(users, QuestionActivities(questions[..i + 1]))
      && (r.failure.Some? ==> r == Execute(users, QuestionActivities(questions)))
  {
    QuestionsSnoc(questions, i);
    QuestionsAround(questions, i);
    StreamStep(users, before, QuestionActivities(questions[..i]), QuestionActivity(questions[i]),
               QuestionActivities(questions[i + 1..]));
  }

  lemma QuestionsSnoc(questions: seq<Question>, i: nat)
    requires i < |questions|
    ensures QuestionActivities(questions[..i + 1]) == QuestionActivities(questions[..i]) + QuestionActivity(questions[i])
  {
    var front := questions[..i + 1];
    assert front[..|front| - 1] == questions[..i] && front[|front| - 1] == questions[i];
  }

  lemma QuestionsAround(questions: seq<Question>, i: nat)
    requires i < |questions|
    ensures QuestionActivities(questions) == QuestionActivities(questions[..i + 1]) + QuestionActivities(questions[i + 1..])
  {
    var front, back := questions[..i + 1], questions[i + 1..];
    assert front + back == questions;
    QuestionsJoin(front, back, questions);
  }

  /** The concatenation lemma for a list already known to be `front + back`. */
  lemma QuestionsJoin(front: seq<Question>, back: seq<Question>, questions: seq<Question>)
    requires front + back == questions
    ensures QuestionActivities(questions) == QuestionActivities(front) + QuestionActivities(back)
  {
    QuestionActivitiesConcat(front, back);
  }

  // ---- the whole aggregation ----

  function TaggedAll(users: seq<User>, tags: seq<Tag>): (r: seq<User>)
    ensures |r| == |users|
    ensures forall j :: 0 <= j < |r| ==> r[j] == WithTags(users[j], tags)
  {
    seq(|users|, j requires 0 <= j < |users| => WithTags(users[j], tags))
  }

  function FinishedAll(users: seq<User>, events: seq<RepEvent>, start: int, end: int): (r: seq<User>)
    ensures |r| == |users|
    ensures forall j :: 0 <= j < |r| ==> r[j] == Reduced(WithEvents(users[j], events), start, end)
  {
    seq(|users|, j requires 0 <= j < |users| => Reduced(WithEvents(users[j], events), start, end))
  }

  /**
   * `process_api_data` as a specification: tags onto the initial records, then the question
   * stream and the article stream joined in, then the reputation events and the reducer.
   * A ValueError while joining ends the run before the events and the reducer.
   */
  function Aggregated(users: seq<User>, tags: seq<Tag>, questions: seq<Question>, articles: seq<Article>,
                      events: seq<RepEvent>, start: int, end: int): Run
  {
    var joined := Execute(TaggedAll(users, tags), QuestionActivities(questions) + ArticleActivities(articles));
    if joined.failure.Some? then joined else Run(FinishedAll(joined.users, events, start, end), None)
  }

  /** `process_api_data`: the steps in the scripts' order on one list of records. */
  method ProcessApiData(raw: seq<RawUser>, tags: seq<Tag>, questions: seq<Question>, articles: seq<Article>,
                        events: seq<RepEvent>, start: int, end: int)
    returns (registry: Registry, failure: Option<ResolveError>)
    ensures Run(registry.users, failure) == Aggregated(NewRecords(raw), tags, questions, articles, events, start, end)
  {
    registry := new Registry(raw);
    registry.ProcessTags(tags);
    assert registry.users == TaggedAll(NewRecords(raw), tags);
    ghost var tagged := registry.users;
    ExecuteConcat(tagged, QuestionActivities(questions), ArticleActivities(articles));
    failure := registry.ProcessQuestions(questions);
    if failure.Some? {
      return;
    }
    failure := registry.ProcessArticles(articles);
    if failure.Some? {
      return;
    }
    ghost var joined := registry.users;
    registry.ProcessReputationHistory(events);
    registry.ProcessUsers(start, end);
    assert registry.users == FinishedAll(joined, events, start, end);
  }

  /**
   * When every owner resolves, the run completes and keeps one record per listed user, in
   * listing order, followed by the placeholders; each listed user's record ends up with
   * its tags, its own items and its own events, reduced for the window.
   */
  lemma AggregatedCompletes(raw: seq<RawUser>, tags: seq<Tag>, questions: seq<Question>, articles: seq<Article>,
                            events: seq<RepEvent>, start: int, end: int)
    requires Resolves(QuestionActivities(questions) + ArticleActivities(articles))
    ensures var acts := QuestionActivities(questions) + ArticleActivities(articles);
      var r := Aggregated(NewRecords(raw), tags, questions, articles, events, start, end);
      var w := Joined(TaggedAll(NewRecords(raw), tags), acts);
      && r.failure.None?
      && |r.users| == |w| >= |raw|
      && (forall j :: 0 <= j < |raw| ==> r.users[j].userId == IntId(raw[j].userId))
      && (forall j :: 0 <= j < |r.users| ==> r.users[j] == Reduced(WithEvents(w[j], events), start, end))
  {
    var acts := QuestionActivities(questions) + ArticleActivities(articles);
    var tagged := TaggedAll(NewRecords(raw), tags);
    ExecuteCompletes(tagged, acts);
    JoinedKeys(tagged, acts);
    TaggedIds(raw, tags);
  }

  lemma TaggedIds(raw: seq<RawUser>, tags: seq<Tag>)
    ensures |TaggedAll(NewRecords(raw), tags)| == |raw|
    ensures forall j :: 0 <= j < |raw| ==> TaggedAll(NewRecords(raw), tags)[j].userId == IntId(raw[j].userId)
  {
    forall j | 0 <= j < |raw| ensures NewRecords(raw)[j].userId == IntId(raw[j].userId) {
      NewRecordsAt(raw, j);
    }
  }

  /** The records the tag step leaves: each the new record of its listed user, tagged. */
  lemma TaggedRecord(raw: seq<RawUser>, tags: seq<Tag>, j: nat)
    requires j < |raw|
    ensures var t := TaggedAll(NewRecords(raw), tags);
      && |t| == |raw| && ZeroCounters(t[j]) && t[j].userId == IntId(raw[j].userId)
      && t[j].questions == [] && t[j].answers == [] && t[j].articles == [] && t[j].comments == []
      && t[j].reputationHistory == [] && t[j].smeTags == TagsFor(tags, IntId(raw[j].userId))
  {
    NewRecordsAt(raw, j);
    assert [] + TagsFor(tags, IntId(raw[j].userId)) == TagsFor(tags, IntId(raw[j].userId));
  }

  /** The tagged join over any stream that resolves: every record, once its events are added and it is reduced, counts its window. */
  lemma TaggedJoinCounts(raw: seq<RawUser>, tags: seq<Tag>, acts: seq<Activity>, events: seq<RepEvent>, start: int, end: int)
    requires Resolves(acts)
    ensures var w := Joined(TaggedAll(NewRecords(raw), tags), acts);
      forall j :: 0 <= j < |w| ==> CountsWindow(Reduced(WithEvents(w[j], events), start, end), start, end)
  {
    var tagged := TaggedAll(NewRecords(raw), tags);
    forall j | 0 <= j < |tagged| ensures ZeroCounters(tagged[j]) {
      TaggedRecord(raw, tags, j);
    }
    JoinedZeroCounters(tagged, acts);
    var w := Joined(tagged, acts);
    forall j | 0 <= j < |w| ensures CountsWindow(Reduced(WithEvents(w[j], events), start, end), start, end) {
      ReducedCounts(WithEvents(w[j], events), start, end);
    }
  }

  /**
   * When every owner resolves, every record the run leaves, listed user or placeholder,
   * counts exactly its own items dated inside the window, and its net reputation sums
   * exactly its own events dated inside the window.
   */
  lemma AggregatedCounts(raw: seq<RawUser>, tags: seq<Tag>, questions: seq<Question>, articles: seq<Article>,
                         events: seq<RepEvent>, start: int, end: int)
    requires Resolves(QuestionActivities(questions) + ArticleActivities(articles))
    ensures var r := Aggregated(NewRecords(raw), tags, questions, articles, events, start, end);
      && r.failure.None?
      && forall j :: 0 <= j < |r.users| ==> CountsWindow(r.users[j], start, end)
  {
    AggregatedCompletes(raw, tags, questions, articles, events, start, end);
    TaggedJoinCounts(raw, tags, QuestionActivities(questions) + ArticleActivities(articles), events, start, end);
  }

  /** A listed user's record after the tagged join over any stream that resolves: its own items, its tags, no events yet. */
  lemma ListedJoined(raw: seq<RawUser>, tags: seq<Tag>, acts: seq<Activity>, j: nat)
    requires Resolves(acts)
    requires forall i, k :: 0 <= i < k < |raw| ==> raw[i].userId != raw[k].userId
    requires j < |raw|
    ensures var w := Joined(TaggedAll(NewRecords(raw), tags), acts);
      var key := IntId(raw[j].userId);
      var mine := Owned(acts, key);
      && j < |w| && w[j].userId == key
      && w[j].questions == QuestionsIn(mine) && w[j].answers == AnswersIn(mine)
      && w[j].comments == CommentsIn(mine) && w[j].articles == ArticlesIn(mine)
      && w[j].reputationHistory == [] && w[j].smeTags == TagsFor(tags, key)
  {
    var tagged := TaggedAll(NewRecords(raw), tags);
    TaggedRecord(raw, tags, j);
    NewRecordsUnique(raw);
    TaggedIds(raw, tags);
    assert UniqueIds(tagged);
    JoinedKeys(tagged, acts);
    var w := Joined(tagged, acts);
    ItemsLandWithTheirOwner(tagged, acts, j);
    assert Origin(tagged, w, acts, j) == tagged[j];
    FoldAppends(tagged[j], Owned(acts, w[j].userId));
    Attribution(tagged, acts, j);
  }

  /**
   * The report's numbers for a listed user (ids distinct, every owner resolving): the
   * record holds exactly the items the user owns, in stream order, the events carrying
   * the user's id, in event order, and the tags naming the user's id; and its counters
   * count those items and events inside the window.
   */
  lemma ListedUserTotals(raw: seq<RawUser>, tags: seq<Tag>, questions: seq<Question>, articles: seq<Article>,
                         events: seq<RepEvent>, start: int, end: int, j: nat)
    requires Resolves(QuestionActivities(questions) + ArticleActivities(articles))
    requires forall i, k :: 0 <= i < k < |raw| ==> raw[i].userId != raw[k].userId
    requires j < |raw|
    ensures var r := Aggregated(NewRecords(raw), tags, questions, articles, events, start, end);
      var key := IntId(raw[j].userId);
      var mine := Owned(QuestionActivities(questions) + ArticleActivities(articles), key);
      && r.failure.None? && j < |r.users|
      && r.users[j].userId == key
      && r.users[j].questions == QuestionsIn(mine) && r.users[j].answers == AnswersIn(mine)
      && r.users[j].comments == CommentsIn(mine) && r.users[j].articles == ArticlesIn(mine)
      && r.users[j].reputationHistory == EventsFor(events, key)
      && r.users[j].smeTags == TagsFor(tags, key)
      && CountsWindow(r.users[j], start, end)
  {
    var acts := QuestionActivities(questions) + ArticleActivities(articles);
    AggregatedCompletes(raw, tags, questions, articles, events, start, end);
    AggregatedCounts(raw, tags, questions, articles, events, start, end);
    ListedJoined(raw, tags, acts, j);
    ListedReduced(Joined(TaggedAll(NewRecords(raw), tags), acts)[j], events, start, end);
  }

  /** Adding the events and reducing keeps the lists and tags, and the history is the events of the record's id. */
  lemma ListedReduced(u: User, events: seq<RepEvent>, start: int, end: int)
    requires u.reputationHistory == []
    ensures var v := Reduced(WithEvents(u, events), start, end);
      && v.userId == u.userId && v.questions == u.questions && v.answers == u.answers
      && v.comments == u.comments && v.articles == u.articles && v.smeTags == u.smeTags
      && v.reputationHistory == EventsFor(events, u.userId)
  {
    assert [] + EventsFor(events, u.userId) == EventsFor(events, u.userId);
  }

  // A placeholder end to end: user 10 asks, an account shown as "user99" answers twice.
  const ListedUsers := [WithNewFields(RawUser(10, "Ann", map[])), WithNewFields(RawUser(20, "Bo", map[]))]
  const FirstReply := Answer(Owner(None, "user99"), 200, 1, 0, true, [])
  const SecondReply := Answer(Owner(None, "user99"), 300, 0, 0, false, [])
  const AskedByTen := Question(Owner(Some(10), "Ann"), 100, 2, 0, 2, [FirstReply, SecondReply], [])

  lemma ExampleStream()
    ensures QuestionActivities([AskedByTen]) == [Asked(AskedByTen), Answered(FirstReply, 100), Answered(SecondReply, 100)]
  {
    assert [FirstReply, SecondReply][..1] == [FirstReply];
    assert [FirstReply][..0] == [];
    assert AnswerActivity(FirstReply, 100) == [Answered(FirstReply, 100)];
    assert AnswerActivity(SecondReply, 100) == [Answered(SecondReply, 100)];
    assert AnswerActivities([FirstReply], 100) == [Answered(FirstReply, 100)];
    assert AnswerActivities([FirstReply, SecondReply], 100) == [Answered(FirstReply, 100), Answered(SecondReply, 100)];
    assert [AskedByTen][..0] == [];
  }

  /** The records after the question, after the first answer and after the second. */
  function AfterAsk(): seq<User> {
    ListedUsers[0 := Attach(ListedUsers[0], Asked(AskedByTen))]
  }

  function AfterFirstReply(): seq<User> {
    AfterAsk() + [Attach(InitializeDeletedUser(IntId(99), "user99"), Answered(FirstReply, 100))]
  }

  function AfterSecondReply(): seq<User> {
    AfterFirstReply()[2 := Attach(AfterFirstReply()[2], Answered(SecondReply, 100))]
  }

  lemma ReplierResolves()
    ensures ValidateUserId(Owner(None, "user99")) == Ok(IntId(99))
  {
    DeletedAccountNameResolves(99);
    assert IntToString(99) == "99";
  }

  lemma ExampleSteps()
    ensures Step(ListedUsers, IntId(10), Asked(AskedByTen)) == AfterAsk()
    ensures Step(AfterAsk(), IntId(99), Answered(FirstReply, 100)) == AfterFirstReply()
    ensures Step(AfterFirstReply(), IntId(99), Answered(SecondReply, 100)) == AfterSecondReply()
  {
    assert IndexOfKey(AfterAsk(), IntId(99)).None?;
    var u := AfterFirstReply();
    assert u[0].userId == IntId(10) && u[1].userId == IntId(20) && u[2].userId == IntId(99);
    assert IndexOfKey(u, IntId(99)) == Some(2);
  }

  lemma ExampleRun()
    ensures Execute(ListedUsers, QuestionActivities([AskedByTen])) == Run(AfterSecondReply(), None)
  {
    ExampleStream();
    ReplierResolves();
    ExampleSteps();
    var acts := [Asked(AskedByTen), Answered(FirstReply, 100), Answered(SecondReply, 100)];
    assert acts[1..] == [Answered(FirstReply, 100), Answered(SecondReply, 100)];
    assert acts[1..][1..] == [Answered(SecondReply, 100)];
    assert Execute(AfterSecondReply(), []) == Run(AfterSecondReply(), None);
    assert Execute(AfterFirstReply(), acts[1..][1..]) == Run(AfterSecondReply(), None);
    assert Execute(AfterAsk(), acts[1..]) == Run(AfterSecondReply(), None);
  }

  /**
   * The first answer appends one Deleted record for id 99 after the listed users; the
   * second answer reuses it.
   */
  lemma PlaceholderExample()
    ensures var r := Execute(ListedUsers, QuestionActivities([AskedByTen]));
      && r.failure.None?
      && |r.users| == 3
      && r.users[2].userId == IntId(99) && r.users[2].accountStatus == Deleted
      && r.users[2].displayName == "user99 (DELETED)"
      && r.users[2].answers == [FirstReply, SecondReply] && r.users[2].responseTimes == [100, 200]
      && r.users[0].questions == [AskedByTen] && r.users[1] == ListedUsers[1]
  {
    ExampleRun();
    ExampleRecords();
  }

  lemma ExampleRecords()
    ensures var u := AfterSecondReply();
      && |u| == 3
      && u[2].userId == IntId(99) && u[2].accountStatus == Deleted
      && u[2].displayName == "user99 (DELETED)"
      && u[2].answers == [FirstReply, SecondReply] && u[2].responseTimes == [100, 200]
      && u[0].questions == [AskedByTen] && u[1] == ListedUsers[1]
  {
    var u := AfterSecondReply();
    var p := InitializeDeletedUser(IntId(99), "user99");
    assert u[2] == Attach(Attach(p, Answered(FirstReply, 100)), Answered(SecondReply, 100));
    assert u[2].answers == [FirstReply] + [SecondReply];
    assert u[2].responseTimes == [200 - 100] + [300 - 100];
  }
}
