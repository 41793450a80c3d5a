/**
 * The two collection steps whose results the aggregation takes as input: `get_users`
 * (filter the v2 listing, then merge the v3 attributes, fetching the users v3 does not
 * list in batches of 10) and `get_tags` (fetch the experts of the tags that have any, in
 * batches of 5, and give every other tag empty expert lists). The v3 calls are parameters:
 * a function from an id to the call's result, `None` where the call raises.
 */
module Collectors {
  import opened Wrappers
  import opened Records

  // ---- order-preserving selection ----

  /** The elements of `xs` satisfying `p`, in order: a Python list comprehension with a condition. */
  function Filter<T>(xs: seq<T>, p: T -> bool): (r: seq<T>)
    ensures |r| <= |xs|
  {
    if |xs| == 0 then []
    else Filter(xs[..|xs| - 1], p) + (if p(xs[|xs| - 1]) then [xs[|xs| - 1]] else [])
  }

  /** The positions of the elements of `xs` satisfying `p`, in increasing order. */
  function Where<T>(xs: seq<T>, p: T -> bool): (r: seq<nat>)
    ensures forall t :: 0 <= t < |r| ==> r[t] < |xs| && p(xs[r[t]])
    ensures forall s, t :: 0 <= s < t < |r| ==> r[s] < r[t]
  {
    if |xs| == 0 then []
    else Where(xs[..|xs| - 1], p) + (if p(xs[|xs| - 1]) then [|xs| - 1] else [])
  }

  /** The selected elements are the elements at the selected positions, and every satisfying position is selected. */
  lemma {:induction false} WhereFilter<T>(xs: seq<T>, p: T -> bool)
    ensures |Where(xs, p)| == |Filter(xs, p)|
    ensures forall t :: 0 <= t < |Where(xs, p)| ==> xs[Where(xs, p)[t]] == Filter(xs, p)[t]
    ensures forall k :: 0 <= k < |xs| && p(xs[k]) ==> k in Where(xs, p)
    decreases |xs|
  {
    if |xs| > 0 {
      var init := xs[..|xs| - 1];
      WhereFilter(init, p);
      forall t | 0 <= t < |Where(init, p)| ensures xs[Where(init, p)[t]] == init[Where(init, p)[t]] {
      }
    }
  }

  lemma {:induction false} FilterMembers<T>(xs: seq<T>, p: T -> bool)
    ensures forall x :: x in Filter(xs, p) <==> x in xs && p(x)
    decreases |xs|
  {
    if |xs| > 0 {
      assert xs == xs[..|xs| - 1] + [xs[|xs| - 1]];
      FilterMembers(xs[..|xs| - 1], p);
    }
  }

  /** Conditions that agree everywhere select the same elements. */
  lemma {:induction false} FilterAgrees<T>(xs: seq<T>, p: T -> bool, q: T -> bool)
    requires forall x :: p(x) == q(x)
    ensures Filter(xs, p) == Filter(xs, q)
    decreases |xs|
  {
    if |xs| > 0 {
      FilterAgrees(xs[..|xs| - 1], p, q);
    }
  }

  /** Two comprehensions in a row select what one comprehension with both conditions selects. */
  lemma {:induction false} FilterFilter<T>(xs: seq<T>, p: T -> bool, q: T -> bool, both: T -> bool)
    requires forall x :: both(x) == (p(x) && q(x))
    ensures Filter(Filter(xs, p), q) == Filter(xs, both)
    decreases |xs|
  {
    if |xs| > 0 {
      var init := xs[..|xs| - 1];
      var x := xs[|xs| - 1];
      FilterFilter(init, p, q, both);
      var a := Filter(init, p);
      if p(x) {
        var ax := a + [x];
        assert Filter(xs, p) == ax;
        assert ax[..|ax| - 1] == a && ax[|ax| - 1] == x;
      } else {
        assert Filter(xs, p) == a;
      }
    }
  }

  /** Python's `xs[:m]`: a negative `m` counts from the end. */
  function SliceTo<T>(xs: seq<T>, m: int): (r: seq<T>)
    ensures |r| <= |xs| && r == xs[..|r|]
    ensures 0 <= m ==> |r| == if m < |xs| then m else |xs|
    ensures m < 0 ==> |r| == if -m < |xs| then |xs| + m else 0
  {
    if 0 <= m then (if m < |xs| then xs[..m] else xs)
    else if -m < |xs| then xs[..|xs| + m] else []
  }

  // ---- get_users: the filter ----

  /**
   * Only ids above 1 are kept. The comment beside the filter speaks of ids less than 1 as
   * the Community user and the user groups, but the test `> 1` also drops id 1.
   */
  predicate AboveOne(u: RawUser) {
    u.userId > 1
  }

  function AtLeast(start: int): RawUser -> bool {
    (u: RawUser) => u.userId >= start
  }

  function AtMost(end: int): RawUser -> bool {
    (u: RawUser) => u.userId <= end
  }

  /** The three conditions of the listing filter at once. */
  function Eligible(start: Option<int>, end: Option<int>): RawUser -> bool {
    (u: RawUser) => u.userId > 1 && (start.Some? ==> u.userId >= start.value) && (end.Some? ==> u.userId <= end.value)
  }

  /** The filter at the head of `get_users`: id above 1, the optional inclusive range, then the optional cap. */
  function FilterUsers(v2: seq<RawUser>, maxUsers: Option<int>, start: Option<int>, end: Option<int>): seq<RawUser> {
    var aboveOne := Filter(v2, AboveOne);
    var fromStart := if start.Some? then Filter(aboveOne, AtLeast(start.value)) else aboveOne;
    var inRange := if end.Some? then Filter(fromStart, AtMost(end.value)) else fromStart;
    if maxUsers.Some? then SliceTo(inRange, maxUsers.value) else inRange
  }

  /** The three comprehensions in a row select what one comprehension with all three conditions selects. */
  lemma FilterUsersAsOne(v2: seq<RawUser>, maxUsers: Option<int>, start: Option<int>, end: Option<int>)
    ensures var eligible := Filter(v2, Eligible(start, end));
      FilterUsers(v2, maxUsers, start, end) == if maxUsers.Some? then SliceTo(eligible, maxUsers.value) else eligible
  {
    var fromStart := Eligible(start, None);
    assert (if start.Some? then Filter(Filter(v2, AboveOne), AtLeast(start.value)) else Filter(v2, AboveOne))
        == Filter(v2, fromStart) by {
      if start.Some? {
        FilterFilter(v2, AboveOne, AtLeast(start.value), fromStart);
      } else {
        FilterAgrees(v2, AboveOne, fromStart);
      }
    }
    if end.Some? {
      FilterFilter(v2, fromStart, AtMost(end.value), Eligible(start, end));
    } else {
      FilterAgrees(v2, fromStart, Eligible(start, end));
    }
  }

  /**
   * The filter keeps, in listing order, the eligible users, cut to the first `maxUsers`
   * of them when a cap is given; without a cap it keeps every eligible user.
   */
  lemma FilterUsersSpec(v2: seq<RawUser>, maxUsers: Option<int>, start: Option<int>, end: Option<int>)
    ensures var eligible := Filter(v2, Eligible(start, end));
      FilterUsers(v2, maxUsers, start, end) == if maxUsers.Some? then SliceTo(eligible, maxUsers.value) else eligible
    ensures forall u :: u in FilterUsers(v2, maxUsers, start, end) ==> u in v2 && Eligible(start, end)(u)
    ensures maxUsers.None? ==> forall u :: u in v2 && Eligible(start, end)(u) ==> u in FilterUsers(v2, maxUsers, start, end)
    ensures maxUsers.Some? && maxUsers.value >= 0 ==> |FilterUsers(v2, maxUsers, start, end)| <= maxUsers.value
  {
    var eligible := Filter(v2, Eligible(start, end));
    FilterUsersAsOne(v2, maxUsers, start, end);
    FilterMembers(v2, Eligible(start, end));
    var r := FilterUsers(v2, maxUsers, start, end);
    forall u | u in r ensures u in eligible {
      var i :| 0 <= i < |r| && r[i] == u;
      assert eligible[i] == u;
    }
  }

  // ---- get_users: the merge ----

  /** A user as `v3client.get_all_users` lists it: the id and the other fields. */
  datatype V3User = V3User(id: int, fields: Dict)

  /** `v3_users_lookup`: id to fields; a later entry with the same id replaces an earlier one. */
  function Lookup(v3: seq<V3User>): map<int, Dict> {
    if |v3| == 0 then map[] else Lookup(v3[..|v3| - 1])[v3[|v3| - 1].id := v3[|v3| - 1].fields]
  }

  lemma {:induction false} LookupLatest(v3: seq<V3User>, i: nat)
    requires i < |v3|
    requires forall j :: i < j < |v3| ==> v3[j].id != v3[i].id
    ensures v3[i].id in Lookup(v3) && Lookup(v3)[v3[i].id] == v3[i].fields
    decreases |v3|
  {
    if i < |v3| - 1 {
      LookupLatest(v3[..|v3| - 1], i);
    }
  }

  lemma {:induction false} LookupKeys(v3: seq<V3User>)
    ensures forall id :: id in Lookup(v3) <==> exists j :: 0 <= j < |v3| && v3[j].id == id
    decreases |v3|
  {
    if |v3| > 0 {
      var init := v3[..|v3| - 1];
      LookupKeys(init);
      forall id | id in Lookup(v3) ensures exists j :: 0 <= j < |v3| && v3[j].id == id {
        if id != v3[|v3| - 1].id {
          assert id in Lookup(init);
          assert exists j :: 0 <= j < |init| && init[j].id == id;
          var j :| 0 <= j < |init| && init[j].id == id;
          assert v3[j].id == id;
        }
      }
      forall id | exists j :: 0 <= j < |v3| && v3[j].id == id ensures id in Lookup(v3) {
        var j :| 0 <= j < |v3| && v3[j].id == id;
        if j < |v3| - 1 {
          assert init[j].id == id;
        }
      }
    }
  }

  /** The four profile fields and the moderator flag read from a v3 user. */
  function WithProfile(attrs: Dict, v3: Dict): (r: Dict)
    ensures r.Keys == attrs.Keys + {"email", "title", "department", "external_id", "moderator"}
    ensures r["email"] == SafeGet(v3, "email", StrVal("")) && r["title"] == SafeGet(v3, "jobTitle", StrVal(""))
    ensures r["department"] == SafeGet(v3, "department", StrVal(""))
    ensures r["external_id"] == SafeGet(v3, "externalId", StrVal(""))
    ensures r["moderator"] == BoolVal(SafeGet(v3, "role", StrVal("")) == StrVal("Moderator"))
  {
    attrs["email" := SafeGet(v3, "email", StrVal(""))]
         ["title" := SafeGet(v3, "jobTitle", StrVal(""))]
         ["department" := SafeGet(v3, "department", StrVal(""))]
         ["external_id" := SafeGet(v3, "externalId", StrVal(""))]
         ["moderator" := BoolVal(SafeGet(v3, "role", StrVal("")) == StrVal("Moderator"))]
  }

  /** The defaults of a failed single-user call. */
  function WithBlankProfile(attrs: Dict): Dict {
    attrs["email" := StrVal("")]["title" := StrVal("")]["department" := StrVal("")]
         ["external_id" := StrVal("")]["is_deactivated" := BoolVal(true)]["moderator" := BoolVal(false)]
  }

  /** Not in the v3 listing: the users `get_users` queues for a single-user call. */
  function Unlisted(lookup: map<int, Dict>): RawUser -> bool {
    (u: RawUser) => u.userId !in lookup
  }

  /** What the merge does to one user: profile from the listing, else from the single-user call, else blanks. */
  function Merged(u: RawUser, lookup: map<int, Dict>, fetch: int -> Option<Dict>): RawUser {
    if u.userId in lookup then u.(attrs := WithProfile(u.attrs, lookup[u.userId]))
    else match fetch(u.userId)
      case Some(v3) => u.(attrs := WithProfile(u.attrs, v3)["is_deactivated" := BoolVal(true)])
      case None => u.(attrs := WithBlankProfile(u.attrs))
  }

  /** Whatever the calls return, a user missing from the listing ends up deactivated, and a listed one keeps its flag. */
  lemma MergedDeactivation(u: RawUser, lookup: map<int, Dict>, fetch: int -> Option<Dict>)
    ensures var m := Merged(u, lookup, fetch);
      && m.userId == u.userId && m.displayName == u.displayName
      && (u.userId !in lookup ==> "is_deactivated" in m.attrs && m.attrs["is_deactivated"] == BoolVal(true))
      && (u.userId in lookup ==> ("is_deactivated" in m.attrs <==> "is_deactivated" in u.attrs))
      && (u.userId in lookup && "is_deactivated" in u.attrs ==> m.attrs["is_deactivated"] == u.attrs["is_deactivated"])
      && (u.userId !in lookup && fetch(u.userId).None? ==>
            m.attrs["email"] == StrVal("") && m.attrs["moderator"] == BoolVal(false))
  {
  }

  /** Pauses between `n` items processed `size` at a time: one after every batch but the last. */
  function Pauses(n: nat, size: nat): nat
    requires size > 0
    decreases n
  {
    if n <= size then 0 else 1 + Pauses(n - size, size)
  }

  /** With `p` pauses there are `p + 1` batches: `p` full ones and a last one of 1 to `size` items. */
  lemma {:induction false} PausesBetweenBatches(n: nat, size: nat)
    requires size > 0 && n > 0
    ensures Pauses(n, size) * size < n <= Pauses(n, size) * size + size
    decreases n
  {
    if n > size {
      PausesBetweenBatches(n - size, size);
      assert (1 + Pauses(n - size, size)) * size == Pauses(n - size, size) * size + size;
    }
  }

  /** The batch loop's pause test `i + size < n`, for the batch starting at `start`. */
  lemma PauseStep(start: nat, n: nat, size: nat)
    requires size > 0 && start < n
    ensures Pauses(n - start, size) == (if start + size < n then 1 + Pauses(n - start - size, size) else 0)
  {
  }

  /** Where the merge stands: the users the listing holds are merged, and the queue is merged up to `done`. */
  ghost predicate MergeProgress(users: seq<RawUser>, lookup: map<int, Dict>, fetch: int -> Option<Dict>,
                                pending: seq<nat>, merged: seq<RawUser>, requested: seq<int>)
  {
    && |merged| == |users| && |requested| <= |pending|
    && (forall t :: 0 <= t < |pending| ==> pending[t] < |users| && users[pending[t]].userId !in lookup)
    && (forall s, t :: 0 <= s < t < |pending| ==> pending[s] < pending[t])
    && (forall k :: 0 <= k < |users| && users[k].userId in lookup ==> merged[k] == Merged(users[k], lookup, fetch))
    && (forall t :: 0 <= t < |requested| ==>
          requested[t] == users[pending[t]].userId && merged[pending[t]] == Merged(users[pending[t]], lookup, fetch))
    && (forall t :: |requested| <= t < |pending| ==> merged[pending[t]] == users[pending[t]])
  }

  /** The inner loop of one batch: the single-user call for each queued user of the batch. */
  method FetchBatch(users: seq<RawUser>, lookup: map<int, Dict>, fetch: int -> Option<Dict>, pending: seq<nat>,
                    merged0: seq<RawUser>, requested0: seq<int>, stop: nat)
    returns (merged: seq<RawUser>, requested: seq<int>)
    requires MergeProgress(users, lookup, fetch, pending, merged0, requested0)
    requires |requested0| <= stop <= |pending|
    ensures MergeProgress(users, lookup, fetch, pending, merged, requested)
    ensures |requested| == stop && requested[..|requested0|] == requested0
  {
    merged, requested := merged0, requested0;
    while |requested| < stop
      invariant MergeProgress(users, lookup, fetch, pending, merged, requested)
      invariant |requested0| <= |requested| <= stop && requested[..|requested0|] == requested0
    {
      var j := |requested|;
      var k := pending[j];
      var u := users[k];
      match fetch(u.userId) {
        case Some(found) =>
          merged := merged[k := u.(attrs := WithProfile(u.attrs, found)["is_deactivated" := BoolVal(true)])];
        case None =>
          merged := merged[k := u.(attrs := WithBlankProfile(u.attrs))];
      }
      requested := requested + [u.userId];
    }
  }

  /** The first pass of the merge: listed users get their profile, the others are queued by position. */
  method MergeListed(users: seq<RawUser>, lookup: map<int, Dict>, fetch: int -> Option<Dict>)
    returns (merged: seq<RawUser>, pending: seq<nat>)
    ensures |merged| == |users| && pending == Where(users, Unlisted(lookup))
    ensures forall k :: 0 <= k < |users| && users[k].userId in lookup ==> merged[k] == Merged(users[k], lookup, fetch)
    ensures forall k :: 0 <= k < |users| && users[k].userId !in lookup ==> merged[k] == users[k]
  {
    merged := users;
    pending := [];
    var i := 0;
    while i < |users|
      invariant 0 <= i <= |users| == |merged|
      invariant pending == Where(users[..i], Unlisted(lookup))
      invariant forall k :: 0 <= k < i && users[k].userId in lookup ==> merged[k] == Merged(users[k], lookup, fetch)
      invariant forall k :: 0 <= k < |users| && (i <= k || users[k].userId !in lookup) ==> merged[k] == users[k]
    {
      assert users[..i + 1][..i] == users[..i];
      if users[i].userId in lookup {
        merged := merged[i := users[i].(attrs := WithProfile(users[i].attrs, lookup[users[i].userId]))];
      } else {
        pending := pending + [i];
      }
      i := i + 1;
    }
    assert users[..i] == users;
  }

  /** The second pass: the queued users fetched one by one, 10 per batch, with a pause between batches. */
  method FetchUnlisted(users: seq<RawUser>, lookup: map<int, Dict>, fetch: int -> Option<Dict>, pending: seq<nat>,
                       merged0: seq<RawUser>)
    returns (merged: seq<RawUser>, requested: seq<int>, pauses: nat)
    requires MergeProgress(users, lookup, fetch, pending, merged0, [])
    ensures MergeProgress(users, lookup, fetch, pending, merged, requested) && |requested| == |pending|
    ensures pauses == Pauses(|pending|, 10)
  {
    merged, requested := merged0, [];
    pauses := 0;
    var n := |pending|;
    var start := 0;
    while start < n
      invariant MergeProgress(users, lookup, fetch, pending, merged, requested)
      invariant |requested| == (if start < n then start else n)
      invariant pauses + (if start < n then Pauses(n - start, 10) else 0) == Pauses(n, 10)
      decreases n - start
    {
      PauseStep(start, n, 10);
      var stop := if start + 10 < n then start + 10 else n;
      merged, requested := FetchBatch(users, lookup, fetch, pending, merged, requested, stop);
      if start + 10 < n {
        pauses := pauses + 1;
      }
      start := start + 10;
    }
  }

  /**
   * The merge of `get_users`: the listed users get their profile in one pass; the others
   * are queued and fetched one by one, 10 per batch, with a pause between batches.
   * `requested` is the sequence of ids passed to the single-user call.
   */
  method MergeV3(users: seq<RawUser>, v3: seq<V3User>, fetch: int -> Option<Dict>)
    returns (merged: seq<RawUser>, requested: seq<int>, pauses: nat)
    ensures |merged| == |users|
    ensures forall k :: 0 <= k < |users| ==> merged[k] == Merged(users[k], Lookup(v3), fetch)
    ensures var missing := Filter(users, Unlisted(Lookup(v3)));
      |requested| == |missing| && forall t :: 0 <= t < |missing| ==> requested[t] == missing[t].userId
    ensures pauses == Pauses(|requested|, 10)
  {
    var lookup := Lookup(v3);
    var pending;
    merged, pending := MergeListed(users, lookup, fetch);
    WhereFilter(users, Unlisted(lookup));
    merged, requested, pauses := FetchUnlisted(users, lookup, fetch, pending, merged);
    forall k | 0 <= k < |users| ensures merged[k] == Merged(users[k], lookup, fetch) {
      if users[k].userId !in lookup {
        assert Unlisted(lookup)(users[k]);
        assert k in pending;
      }
    }
  }

  /** A listed id is never fetched; an unlisted one is fetched once for each time it is listed in v2. */
  lemma FetchedOnlyWhenUnlisted(users: seq<RawUser>, lookup: map<int, Dict>, id: int)
    ensures id in lookup ==> id !in Ids(Filter(users, Unlisted(lookup)))
    ensures id !in lookup ==> multiset(Ids(Filter(users, Unlisted(lookup))))[id] == multiset(Ids(users))[id]
  {
    UnlistedIds(users, lookup, id);
  }

  function Ids(users: seq<RawUser>): (r: seq<int>)
    ensures |r| == |users|
  {
    if |users| == 0 then [] else Ids(users[..|users| - 1]) + [users[|users| - 1].userId]
  }

  lemma {:induction false} UnlistedIds(users: seq<RawUser>, lookup: map<int, Dict>, id: int)
    ensures id in lookup ==> multiset(Ids(Filter(users, Unlisted(lookup))))[id] == 0
    ensures id !in lookup ==> multiset(Ids(Filter(users, Unlisted(lookup))))[id] == multiset(Ids(users))[id]
    decreases |users|
  {
    if |users| > 0 {
      var init := users[..|users| - 1];
      var u := users[|users| - 1];
      UnlistedIds(init, lookup, id);
      var f := Filter(init, Unlisted(lookup));
      if Unlisted(lookup)(u) {
        var fu := f + [u];
        assert fu[..|fu| - 1] == f;
        assert Ids(fu) == Ids(f) + [u.userId];
      } else {
        assert Filter(users, Unlisted(lookup)) == f;
      }
    }
  }

  // ---- get_tags ----

  /** A tag with at least one expert: the ones whose experts are fetched. */
  predicate HasSmes(t: RawTag) {
    t.smeCount > 0
  }

  /** The experts a tag ends up with: fetched when it has any, empty when the call fails or the count is 0. */
  function WithSmes(t: RawTag, fetch: int -> Option<Smes>): Tag {
    Tag(t.id, t.name, t.smeCount, if t.smeCount > 0 then fetch(t.id).GetOr(NoSmes) else NoSmes)
  }

  /** A tag whose expert count is 0 has no experts; the call is made only for the others. */
  lemma WithSmesDefaults(t: RawTag, fetch: int -> Option<Smes>)
    ensures var r := WithSmes(t, fetch);
      && r.id == t.id && r.name == t.name && r.smeCount == t.smeCount
      && (t.smeCount == 0 ==> r.smes == NoSmes)
      && (t.smeCount > 0 && fetch(t.id).Some? ==> r.smes == fetch(t.id).value)
      && (fetch(t.id).None? ==> r.smes == NoSmes)
  {
  }

  ghost predicate TagProgress(raw: seq<RawTag>, fetch: int -> Option<Smes>, selected: seq<nat>,
                              experts: seq<Option<Smes>>, requested: seq<int>)
  {
    && |experts| == |raw| && |requested| <= |selected|
    && (forall t :: 0 <= t < |selected| ==> selected[t] < |raw| && HasSmes(raw[selected[t]]))
    && (forall s, t :: 0 <= s < t < |selected| ==> selected[s] < selected[t])
    && (forall t :: 0 <= t < |requested| ==>
          requested[t] == raw[selected[t]].id && experts[selected[t]] == Some(WithSmes(raw[selected[t]], fetch).smes))
    && (forall t :: |requested| <= t < |selected| ==> experts[selected[t]].None?)
  }

  /** The inner loop of one batch of `get_tags`. */
  method FetchTagBatch(raw: seq<RawTag>, fetch: int -> Option<Smes>, selected: seq<nat>,
                       experts0: seq<Option<Smes>>, requested0: seq<int>, stop: nat)
    returns (experts: seq<Option<Smes>>, requested: seq<int>)
    requires TagProgress(raw, fetch, selected, experts0, requested0)
    requires |requested0| <= stop <= |selected|
    requires forall k :: 0 <= k < |raw| && !HasSmes(raw[k]) ==> experts0[k].None?
    ensures TagProgress(raw, fetch, selected, experts, requested)
    ensures forall k :: 0 <= k < |raw| && !HasSmes(raw[k]) ==> experts[k].None?
    ensures |requested| == stop
  {
    experts, requested := experts0, requested0;
    while |requested| < stop
      invariant TagProgress(raw, fetch, selected, experts, requested)
      invariant forall k :: 0 <= k < |raw| && !HasSmes(raw[k]) ==> experts[k].None?
      invariant |requested| <= stop
    {
      var k := selected[|requested|];
      var found := fetch(raw[k].id);
      experts := experts[k := Some(found.GetOr(NoSmes))];
      requested := requested + [raw[k].id];
    }
  }

  /**
   * `get_tags`: the tags with experts are fetched 5 per batch with a pause between
   * batches; then every tag with no experts gets empty lists.
   */
  method GetTags(raw: seq<RawTag>, fetch: int -> Option<Smes>)
    returns (tags: seq<Tag>, requested: seq<int>, pauses: nat)
    ensures |tags| == |raw|
    ensures forall i :: 0 <= i < |raw| ==> tags[i] == WithSmes(raw[i], fetch)
    ensures var withSmes := Filter(raw, HasSmes);
      |requested| == |withSmes| && forall t :: 0 <= t < |withSmes| ==> requested[t] == withSmes[t].id
    ensures pauses == Pauses(|requested|, 5)
  {
    var selected := Where(raw, HasSmes);
    WhereFilter(raw, HasSmes);
    var experts: seq<Option<Smes>> := seq(|raw|, _ => None);
    requested := [];
    pauses := 0;
    var n := |selected|;
    var start := 0;
    while start < n
      invariant TagProgress(raw, fetch, selected, experts, requested)
      invariant forall k :: 0 <= k < |raw| && !HasSmes(raw[k]) ==> experts[k].None?
      invariant |requested| == (if start < n then start else n)
      invariant pauses + (if start < n then Pauses(n - start, 5) else 0) == Pauses(n, 5)
      decreases n - start
    {
      PauseStep(start, n, 5);
      var stop := if start + 5 < n then start + 5 else n;
      experts, requested := FetchTagBatch(raw, fetch, selected, experts, requested, stop);
      if start + 5 < n {
        pauses := pauses + 1;
      }
      start := start + 5;
    }
    forall k | 0 <= k < |raw| && HasSmes(raw[k]) ensures experts[k] == Some(WithSmes(raw[k], fetch).smes) {
      assert k in selected;
    }
    var i := 0;
    while i < |raw|
      invariant 0 <= i <= |raw| == |experts|
      invariant forall k :: 0 <= k < |raw| && (HasSmes(raw[k]) || k < i) ==> experts[k] == Some(WithSmes(raw[k], fetch).smes)
    {
      if raw[i].smeCount == 0 {
        experts := experts[i := Some(NoSmes)];
      }
      i := i + 1;
    }
    tags := seq(|raw|, k requires 0 <= k < |raw| => Tag(raw[k].id, raw[k].name, raw[k].smeCount, experts[k].GetOr(NoSmes)));
  }
}
