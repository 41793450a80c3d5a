# so4t_api_user_report in Dafny

This project models the core of the Stack Overflow for Teams user report. The report
has two halves.

The collection half reads the site's APIs:
- the v2.3 client works out its API URL and team slug from the site URL;
- it builds a filter, pages through a listing, and fetches reputation history in batches of 50 ids;
- the user collector filters the v2 user listing and merges in the v3 profile fields, fetching unlisted users one by one in batches of 10;
- the tag collector fetches the subject-matter experts of every tag that has any, in batches of 5.

The aggregation half works on the collected data:
- every user record gets its new fields;
- each record collects the names of the tags it is an expert for;
- questions, answers, comments and articles are attached to their owners, with a placeholder record appended for an owner missing from the list;
- reputation events are attached to the records with their id;
- each record is reduced to windowed counters, a median answer time and vote totals;
- the report sorts the records by net reputation, highest first, and projects each onto its columns.

Modules, one per concern:

| module | file | what it holds |
|---|---|---|
| `Wrappers` | wrappers.dfy | `Option` and `Result` |
| `Text` | text.dfy | Python's `in`, `split`, `join`, `str(int)` and `int(str)` on strings |
| `Records` | records.dfy | the user record and the activity items; `add_new_user_fields`, `initialize_deleted_user`, `safe_get_user_field`, `validate_user_id`, `get_user_index` |
| `ActivityJoin` | join.dfy | the attachment of activity items to owners, as a specification |
| `Reducer` | reducer.dfy | `process_users` for one record |
| `Aggregator` | aggregator.dfy | the `Registry` class and `process_api_data`'s steps on the list of records |
| `Report` | report.dfy | the sort and the projection of `create_user_report` |
| `Collectors` | collectors.dfy | the filter and merge of `get_users`, and `get_tags` |
| `ApiV2` | api_v2.dfy | the v2.3 client: `__init__`, `get_items`, `create_filter`, `get_reputation_history` |

## How the code maps to the model

The scripts update one list of user dictionaries in place. The model keeps that list as
the `users` field of the class `Aggregator.Registry`. Each `process_*` loop becomes a
method with `modifies this`, proved against a specification function on values:
- `ActivityJoin.Execute` for the attachment loops;
- `Aggregator.WithTags` for the tag loop;
- `Aggregator.WithEvents` for the event loop;
- `Reducer.Reduced` for the reducer.

Lemmas then state what those functions promise. The attachment of items to owners is
`ActivityJoin.Joined` when every owner resolves. A run stops at the first owner whose
display name gives the ValueError of `int`: the scripts do not catch it.

The paging loop of `get_items` is a method over a finite sequence of server replies
(the i-th request receives the i-th reply). It is proved equal to the specification
function `ApiV2.Crawl`. The calls into the v3 client are function parameters of the
collectors.

The main path models the code as written, including five behaviours that look unintended:
- **Repeated tag names.** The `continue` in `process_tags` (so4t_user_report.py:465) ends
  only the current iteration of the inner loop over individual experts, and the loop over
  group entries still runs. So an id that appears both among a tag's individual expert ids
  and among its group ids gets the tag name twice, and an id listed twice among the
  individuals gets it twice. `Aggregator.TagCopies` follows the code;
  `Aggregator.IntendedTagCopies` is the corrected definition.
- **Group ids compared with user ids.** The group loop (so4t_user_report.py:466-468)
  compares the user's id with the id of each group entry, which is the group's own id.
  Group membership is never looked up, so a member of an expert group gets nothing through
  the group. The model keeps this comparison as written (`Aggregator.TagCopies`).
- **Skipped removals.** The clean-up of response times (so4t_user_report.py:588-590)
  removes from the list it iterates over. A non-positive sample right after a removed one
  is skipped and survives. `Reducer.IterRemove` follows the code; `Reducer.PositiveSamples`
  is the filtered copy that was evidently meant, and `Reducer.IntendedMedianField` the
  median over it.
- **Dropped reputation events.** `process_reputation_history`
  (so4t_user_report.py:444-451) keeps an event only for a record holding its user id. An
  event of a user missing from the list is silently dropped, and no placeholder is made,
  unlike the activity loops. `Aggregator.EventDropped` states this.
- **Date keywords the wrappers do not take.** `get_questions_answers_comments` and
  `get_articles` call `get_all_questions` and `get_all_articles` with the keywords
  `fromdate` and `todate` (so4t_user_report.py:311, 334). Those wrappers declare only
  `filter_string` (so4t_api_v2.py:106, 122), so each call raises TypeError before any
  request is made, with or without a date window. `get_api_data` makes these calls after
  the users and their reputation history (so4t_user_report.py:152-156), so a run over the
  API stops there. `ApiV2.ListingCallAsWritten` follows the code; `ApiV2.ListingCall`
  is the intended call, which sends the window's bounds as listing parameters. The
  aggregation half takes the questions and articles as its input, as if collected.

## Model

| member | source | states |
|---|---|---|
| Records.SafeGet | so4t_user_report.py:723-731 | The stored value when the field is present, the given default otherwise. |
| Records.WithNewFields | so4t_user_report.py:396-441 | Zeroed counters and empty lists, a median of 0, identity and attributes kept. The status is Registered exactly when `is_deactivated` is missing, and Deactivated exactly when it is present and truthy. It is never Deleted. |
| Records.InitializeDeletedUser | so4t_user_report.py:674-720 | A fresh record with the given id, the name suffixed " (DELETED)" and status Deleted. The blank attributes include `moderator`, all set to ''. No median field. |
| Records.ValidateUserId | so4t_user_report.py:734-750 | The `user_id` when present. Otherwise, when the display name holds no "user", the name itself. Otherwise the integer after the first "user", or the ValueError exactly when that text does not parse. |
| Records.DeletedAccountNameResolves | so4t_user_report.py:736-744 | "user<n>" resolves to the id n for every integer n. |
| Records.NoLetterUInNumber | so4t_user_report.py:744 | The decimal text of an integer never contains "user", so the split finds only the prefix. |
| Records.BareUserNameRaises | so4t_user_report.py:743-745 | "user" alone and "user12x" give the ValueError, not a fallback. |
| Records.IndexOfKey | so4t_user_report.py:665-671 | The lowest index holding the id, with no earlier record holding it; None exactly when no record holds it. |
| Records.GetUserIndex | so4t_user_report.py:665-671 | The scan that stops at the first match returns `IndexOfKey`. |
| Text.SplitSecond | so4t_user_report.py:744 | `s.split(sep)[1]`: None exactly when `sep` does not occur. Otherwise the text after the first occurrence, up to the next occurrence or the end, and free of `sep`. |
| Text.SplitJoin | so4t_api_v2.py:94-97 | Splitting a ';'-join on ';' gives back the parts when no part holds ';'. |
| Text.IntToString | so4t_api_v2.py:161 | `str(n)`: non-empty, ends in a digit, starts with '-' exactly for negatives, and holds only digits and '-'. |
| Text.ParseIntOfIntToString | so4t_user_report.py:744 | `int(str(n)) == n` for every integer. |
| ActivityJoin.ExecuteOutcome | so4t_user_report.py:473-552 | A run of attachments is the join of the items before the first owner that does not resolve, with that owner's ValueError, or with no error when every owner resolves. |
| ActivityJoin.ExecuteCompletes | so4t_user_report.py:473-552 | The run completes exactly when every owner resolves, and then it equals the join. |
| ActivityJoin.ExecuteConcat | so4t_user_report.py:475-491 | Running two streams in turn is running their concatenation: the second stream runs only when the first did not fail. |
| ActivityJoin.StepFacts | so4t_user_report.py:477-484 | One attachment keeps every existing id in place. It appends one record, with the owner's id, exactly when no record had it. Afterwards the owner is found. |
| ActivityJoin.JoinedKeys | so4t_user_report.py:479-482 | The join keeps the listed records' ids in place. It appends only records whose id no earlier record holds, and every owner of the stream is found afterwards. |
| ActivityJoin.UniqueIdsPreserved | so4t_user_report.py:479-482 | Records with distinct ids stay distinct after the join. |
| ActivityJoin.Attribution | so4t_user_report.py:484-527 | Each record of the join is its origin (the listed record, or the placeholder made for the first item of a missing owner) with, in stream order, exactly the items whose owner is its id. Records shadowed by an earlier record with the same id get none. |
| ActivityJoin.FoldAppends | so4t_user_report.py:484-542 | Attaching only appends to each list, by kind and in order. The id, name, status, counters and attributes are untouched. |
| ActivityJoin.ItemsLandWithTheirOwner | so4t_user_report.py:473-552 | When the listed ids are distinct, every record ends with its origin's items followed by exactly its own items of each kind. Records past the listing are fresh Deleted placeholders. |
| ActivityJoin.JoinedZeroCounters | so4t_user_report.py:473-552 | Attaching items never touches a counter. When the records start with zero counters, every record of the join has them too, placeholders included. |
| ActivityJoin.FirstUnresolved | so4t_user_report.py:476 | The index of the first owner whose id raises: the items before it all resolve, and it is inside the stream exactly when some owner raises. |
| Aggregator.Registry.constructor | so4t_user_report.py:396-441 | The registry starts with `NewRecords` of the user listing: each listed user with its new fields, in listing order. |
| Aggregator.Registry.AttachTo | so4t_user_report.py:476-484 | Resolving the owner, finding the record or appending a placeholder, and attaching the item is one step of `Execute`. |
| Aggregator.Registry.ProcessComments | so4t_user_report.py:516-529 | The new list and the outcome are `Execute` over the comments in order. |
| Aggregator.Registry.ProcessAnswer | so4t_user_report.py:497-511 | The answer with its response time, then its comments, as one `Execute`. |
| Aggregator.Registry.ProcessAnswers | so4t_user_report.py:495-513 | `Execute` over the answers' activity stream, stopping at the first ValueError. |
| Aggregator.Registry.ProcessQuestion | so4t_user_report.py:475-490 | The question, then its answers, then its comments, as one `Execute`. |
| Aggregator.Registry.ProcessQuestions | so4t_user_report.py:473-492 | `Execute` over the whole question stream. |
| Aggregator.Registry.ProcessArticles | so4t_user_report.py:532-552 | `Execute` over the articles, each attached to its author. |
| Aggregator.Registry.AddSmeTags | so4t_user_report.py:461-468 | Record j gets the tag name once per matching individual entry, then once per matching group entry. Nothing else changes. |
| Aggregator.Registry.AddTagToAll | so4t_user_report.py:461-468 | One tag: every record gets that tag's copies after its earlier tags, and the number of records is kept. |
| Aggregator.Registry.ProcessTags | so4t_user_report.py:454-470 | Every record becomes `WithTags` of its old self over all tags, in tag order. |
| Aggregator.Registry.ProcessReputationHistory | so4t_user_report.py:444-451 | Every record appends, in event order, the events carrying its id. The number of records is kept. |
| Aggregator.Registry.ProcessUsers | so4t_user_report.py:555-602 | Every record becomes `Reduced` of its old self for the window. |
| Aggregator.MatchesCount | so4t_user_report.py:462-468 | The tag name is appended as many times as the id occurs in the expert list, and never for a record whose id is a display name. |
| Aggregator.TagsForMembers | so4t_user_report.py:454-470 | A record holds a tag's name exactly when its id is listed under that tag as an individual or group expert. |
| Aggregator.WithTagsStep | so4t_user_report.py:460-468 | One more tag appends only that tag's copies. |
| Aggregator.IntendedTagCopies | so4t_user_report.py:458-465 | The corrected attribution: at most one copy of the name per tag. |
| Aggregator.IntendedTagCopiesAgree | so4t_user_report.py:458-468 | The corrected attribution names a tag exactly when the code's attribution does. |
| Aggregator.DuplicateTagAsWritten | so4t_user_report.py:462-468 | Id 7 listed among both the individual ids and the group ids of one tag gets ["python", "python"]; the corrected attribution gives ["python"]. |
| Aggregator.EventsForMembers | so4t_user_report.py:446-449 | A record collects an event exactly when it is one of the events and carries the record's id. |
| Aggregator.EventAttribution | so4t_user_report.py:446-449 | An event lands with every record holding its id, and with no other record. |
| Aggregator.EventDropped | so4t_user_report.py:446-449 | An event whose id no record holds lands nowhere: its count in every history is unchanged. |
| Aggregator.NewRecords | so4t_user_report.py:396-441 | One new record per listed user, in listing order. |
| Aggregator.NewRecordsAt | so4t_user_report.py:398 | Record i is `WithNewFields` of listed user i. |
| Aggregator.NewRecordsUnique | so4t_user_report.py:396-441 | Distinct listed ids give records with distinct ids. |
| Aggregator.TaggedAll | so4t_user_report.py:380 | The tag step on every record, in place. |
| Aggregator.FinishedAll | so4t_user_report.py:383-384 | The event step, then the reducer, on every record. |
| Aggregator.ProcessApiData | so4t_user_report.py:376-393 | The steps in the scripts' order on one registry: new fields, tags, questions, articles, events, reducer. The result equals `Aggregated`, and a ValueError ends the run before the events. |
| Aggregator.AggregatedCompletes | so4t_user_report.py:376-393 | When every owner resolves, the run completes. The listed users come first, with their ids, in listing order, and each record is the reduced, event-extended record of the tagged join. |
| Aggregator.TaggedIds | so4t_user_report.py:379-380 | Tagging the new records keeps their number and their ids. |
| Aggregator.TaggedRecord | so4t_user_report.py:379-380 | After the tag step, listed user j's record has zero counters, its id, no items or events, and exactly the tags naming its id. |
| Aggregator.TaggedJoinCounts | so4t_user_report.py:381-384 | After the join of any stream that resolves, then the events and the reducer, every record counts its own window. |
| Aggregator.AggregatedCounts | so4t_user_report.py:376-393 | When every owner resolves, every record of the run, listed user or placeholder, counts exactly its own items dated inside the window, and its net reputation sums its own windowed events. |
| Aggregator.ListedJoined | so4t_user_report.py:379-382 | With distinct listed ids, listed user j's record after the join holds exactly the items the user owns, in stream order, with the tags naming its id and no events yet. |
| Aggregator.ListedReduced | so4t_user_report.py:383-384 | The event step and the reducer keep the items and tags, and the history becomes exactly the events carrying the record's id. |
| Aggregator.ListedUserTotals | so4t_user_report.py:376-393 | For a listed user with distinct listed ids and every owner resolving, the final record holds exactly the user's own items, in stream order. It also holds the events carrying the user's id, in event order, and the tags naming the id, and its counters count those items and events inside the window. |
| Aggregator.ReplierResolves | so4t_user_report.py:742-744 | An answer owner shown as "user99" resolves to id 99. |
| Aggregator.ExampleSteps | so4t_user_report.py:475-508 | The three attachments of a worked example, one step at a time. |
| Aggregator.ExampleRun | so4t_user_report.py:473-513 | In a worked example, a question by user 10 is answered twice by the deleted "user99". The run completes. |
| Aggregator.ExampleRecords | so4t_user_report.py:479-508 | In the worked example, the question lands with user 10. One Deleted placeholder "user99 (DELETED)" is appended with both answers and both response times, and the other listed user is untouched. |
| Aggregator.PlaceholderExample | so4t_user_report.py:495-508 | The first answer by a missing owner appends the placeholder, and the second reuses it. |
| Reducer.WindowQuestions | so4t_user_report.py:559-560 | The windowed questions are a sub-list of the questions. |
| Reducer.WindowedQuestionsMembers | so4t_user_report.py:559-560 | A question is counted exactly when it is dated strictly inside (start, end). |
| Reducer.Unanswered | so4t_user_report.py:564-565 | The unanswered count is at most the number of questions, and 0 exactly when every question has answers. |
| Reducer.Accepted | so4t_user_report.py:572-573 | The accepted count is at most the number of answers, and 0 exactly when none is accepted. |
| Reducer.TallyQuestions | so4t_user_report.py:559-565 | The loop adds the windowed question count, the unanswered count, and the up and down votes to the record's counters. |
| Reducer.TallyAnswers | so4t_user_report.py:567-573 | The loop adds the windowed answer count, up and down votes, and the accepted count. |
| Reducer.TallyArticles | so4t_user_report.py:575-578 | The loop adds the windowed article count and score. |
| Reducer.CountComments | so4t_user_report.py:580-582 | The loop adds the windowed comment count. |
| Reducer.SumReputation | so4t_user_report.py:584-586 | The loop adds the windowed reputation changes to `net_reputation`. |
| Reducer.RemoveFirst | so4t_user_report.py:590 | `list.remove`: one element shorter. |
| Reducer.RemoveFirstMultiset | so4t_user_report.py:590 | `list.remove` drops exactly one copy of the value. |
| Reducer.DropNonPositive | so4t_user_report.py:588-590 | The index-based iteration with removals returns `IterRemove`. |
| Reducer.IterRemoveKeepsPositives | so4t_user_report.py:588-590 | The clean-up keeps every positive sample, in order, and keeps only samples of the input. |
| Reducer.IterRemoveAgrees | so4t_user_report.py:588-590 | With no two adjacent non-positive samples, the clean-up equals the filtered copy. |
| Reducer.SkippedRemoval | so4t_user_report.py:588-590 | [-1, -2] cleans up to [-2] where the filtered copy is []. |
| Reducer.PositiveSamples | so4t_user_report.py:588-590 | The intended clean-up is no longer than the input. |
| Reducer.PositiveSamplesMembers | so4t_user_report.py:588-590 | The intended clean-up keeps exactly the positive samples. |
| Reducer.SortAsc | so4t_user_report.py:594 | The sort inside `statistics.median` is ascending and a permutation of the samples. |
| Reducer.SortAscKeepsSorted | so4t_user_report.py:594 | Sorting sorted samples leaves them as they are. |
| Reducer.MedianWithin | so4t_user_report.py:593-594 | The median lies within any bounds that hold all the samples. |
| Reducer.MedianField | so4t_user_report.py:592-596 | The median field is blank ('') exactly when no samples remain. |
| Reducer.IntendedMedianField | so4t_user_report.py:588-596 | The corrected median is blank exactly when no sample is positive. |
| Reducer.IntendedMedianPositive | so4t_user_report.py:588-596 | The corrected median, when set, is a positive number of hours. |
| Reducer.NegativeMedianAsWritten | so4t_user_report.py:588-596 | [-1, -2] leaves a median of -2 seconds in hours where the corrected field is blank. |
| Reducer.Reduce | so4t_user_report.py:558-600 | The method for one record, pass by pass, returns `Reduced`. |
| Reducer.ReducedCounts | so4t_user_report.py:555-602 | On a record whose counters are still zero, whatever items are attached to it: each counter is the count or sum over its own items dated strictly inside the window, and net reputation sums its windowed changes. The unanswered and accepted counts are at most their totals. Upvotes total the three kinds and downvotes the two kinds. The median is taken over the cleaned-up samples, and the lists, identity, attributes, status and tags are untouched. |
| Reducer.BoundaryQuestionIgnored | so4t_user_report.py:560 | A question dated exactly at either bound changes no counter: both bounds are exclusive. |
| Reducer.WindowedEventCounts | so4t_user_report.py:584-586 | An event inside the window adds exactly its change to `net_reputation`. |
| Reducer.CleanUpExample | so4t_user_report.py:588-590 | -1, 2, 4 and 6 hours lose the negative sample. |
| Reducer.SortExample | so4t_user_report.py:594 | Sorted samples sort to themselves. |
| Reducer.MedianExample | so4t_user_report.py:588-596 | -1, 2, 4 and 6 hours give a median of 4 hours; no samples give a blank median. |
| Report.InsertDesc | so4t_user_report.py:608 | One insertion step of the sort adds one record. |
| Report.SortByReputation | so4t_user_report.py:608 | The sort keeps the number of records. |
| Report.InsertDescMultiset | so4t_user_report.py:608 | An insertion adds exactly the inserted record. |
| Report.InsertDescStable | so4t_user_report.py:608 | An insertion puts the inserted record before records of its own net reputation. |
| Report.InsertDescSorted | so4t_user_report.py:608 | Inserting into a descending list keeps it descending. |
| Report.SortByReputationCorrect | so4t_user_report.py:608 | The order is non-increasing by net reputation, a permutation of the records, and stable: records of equal net reputation keep their order. |
| Report.StableSortExample | so4t_user_report.py:608 | Two records of reputation 5 around one of -3 come out as 5, 5, -3, in their input order. |
| Report.MedianCell | so4t_user_report.py:629 | The median column: '' exactly for a blank median, the hours when set, 0 when never set or zero. |
| Report.ReportRow | so4t_user_report.py:612-652 | Every one of the 22 columns. The id, name, counters, status and net reputation come from the record. The day counts default to 0, and email, title, department, external id and account id default to ''. The moderator flag defaults to False. The median column is `MedianCell`, the SME tags are joined with ", ", and a missing downvote total shows 0. |
| Report.ReportedCounts | so4t_user_report.py:605-653 | For a reduced record, the Questions, Answers, Articles and Comments columns count its items dated inside the window. Net Reputation sums the windowed changes, and the two totals add the windowed votes. |
| Report.Rows | so4t_user_report.py:611-653 | One row per record, in order. |
| Report.UserReportOrdered | so4t_user_report.py:605-653 | One line per record, and the Net Reputation column never increases going down. Records of equal net reputation keep their order, and the sorted records are a permutation of the input. |
| Report.PlaceholderRowDefaults | so4t_user_report.py:629-647 | An unreduced placeholder's row, before `process_users` has set its median and downvote total, shows 0 in both of those columns, "Deleted" as status, and '' as email and moderator. |
| Collectors.Filter | so4t_user_report.py:191-197 | A list comprehension with a condition is no longer than its input. |
| Collectors.Where | so4t_user_report.py:220-231 | The positions of the users the lookup misses, increasing and all satisfying the test. |
| Collectors.WhereFilter | so4t_user_report.py:220-231 | The queued positions hold exactly the filtered users, and every satisfying position is queued. |
| Collectors.FilterMembers | so4t_user_report.py:191-197 | An element is kept exactly when it is in the input and satisfies the condition. |
| Collectors.FilterAgrees | so4t_user_report.py:191-197 | Conditions that agree everywhere select the same elements. |
| Collectors.FilterFilter | so4t_user_report.py:191-197 | Two comprehensions in a row select what one comprehension with both conditions selects. |
| Collectors.SliceTo | so4t_user_report.py:200-201 | `xs[:m]` is a prefix of `xs`: `m` elements or all of them when m >= 0, and all but the last -m when m < 0. |
| Collectors.FilterUsersAsOne | so4t_user_report.py:191-201 | The three filters in a row equal one comprehension with all three conditions, then the cap. |
| Collectors.FilterUsersSpec | so4t_user_report.py:191-201 | Only eligible listed users are kept, in listing order. Without a cap every eligible user is kept, and with a cap m >= 0 at most m are kept. |
| Collectors.LookupLatest | so4t_user_report.py:215 | The lookup maps an id to its last v3 entry. |
| Collectors.LookupKeys | so4t_user_report.py:215 | The lookup holds exactly the ids of the v3 listing. |
| Collectors.WithProfile | so4t_user_report.py:224-228 | Email, title, department, external id and the moderator flag are read from the v3 user with '' defaults. Moderator is true exactly for the role "Moderator". |
| Collectors.MergedDeactivation | so4t_user_report.py:220-258 | A user missing from the v3 listing ends deactivated, with blank fields when the single-user call fails. A listed user keeps its own flag. |
| Collectors.PausesBetweenBatches | so4t_user_report.py:238-263 | With p pauses there are p + 1 batches: p full ones and a last one of 1 to `size` items. |
| Collectors.PauseStep | so4t_user_report.py:262-263 | The loop pauses after a batch exactly when more items follow. |
| Collectors.FetchBatch | so4t_user_report.py:242-258 | One batch fetches the queued users of the batch in order and merges each. |
| Collectors.MergeListed | so4t_user_report.py:220-231 | Listed users get their v3 profile and the others are queued by position, in order. |
| Collectors.FetchUnlisted | so4t_user_report.py:233-263 | Every queued user is fetched once, in order, 10 per batch, with one pause between batches. |
| Collectors.MergeV3 | so4t_user_report.py:214-265 | Every user is `Merged`. The single-user calls are exactly the unlisted users' ids, in order, and the pauses number one fewer than the batches of 10. |
| Collectors.FetchedOnlyWhenUnlisted | so4t_user_report.py:220-231 | A listed id is never fetched; an unlisted id is fetched once for each time the v2 listing holds it. |
| Collectors.UnlistedIds | so4t_user_report.py:220-231 | The queued ids: none of a listed id, and every occurrence of an unlisted one. |
| Collectors.WithSmesDefaults | so4t_user_report.py:347-371 | A tag with no experts gets empty lists. One with experts gets the fetched lists, or empty lists when the call fails. |
| Collectors.FetchTagBatch | so4t_user_report.py:357-362 | One batch requests the experts of its tags in order. |
| Collectors.GetTags | so4t_user_report.py:339-373 | Every tag gets its experts as `WithSmes` says. The calls are exactly the ids of the tags with experts, in order, and the pauses number one fewer than the batches of 5. |
| ApiV2.NewClient | so4t_api_v2.py:10-44 | No URL is an error. A Teams URL needs the "/c/" path and a token, and gives the Teams API URL and the slug after the path. Any other URL needs a key and gives `url + "/api/2.3"`, with no slug. |
| ApiV2.TeamUrlRoundTrip | so4t_api_v2.py:19-31 | "https://stackoverflowteams.com/c/" + slug, with a token, gives back that slug. |
| ApiV2.TeamUrlWithoutPath | so4t_api_v2.py:19-22 | A Teams subdomain without the "/c/" path is the uncaught IndexError. |
| ApiV2.Prepared | so4t_api_v2.py:184-186 | On Business and Basic, `team` is set to the slug; on Enterprise the parameters are unchanged. |
| ApiV2.ReadPage | so4t_api_v2.py:197-224 | The loop continues exactly when the reply succeeded with `has_more` and the request has a page number. The page's items and backoff are taken in order, and otherwise the reply's verdict ends the loop. |
| ApiV2.GetItems | so4t_api_v2.py:182-226 | The page loop's result equals `Crawl` on the prepared parameters. |
| ApiV2.CrawlShape | so4t_api_v2.py:189-224 | One request per consumed reply, on consecutive pages. There is at least one request when there is a reply, and at most one without a page number. |
| ApiV2.CrawlEnds | so4t_api_v2.py:197-224 | Every reply before the last asked for more. An early stop is the last reply's verdict or the missing page. Done means a 200 reply without `has_more`, and an HTTP error is the last reply's non-200 status. |
| ApiV2.CrawlCollects | so4t_api_v2.py:206-222 | The items are those of the consumed pages, in order. The waits are `backoff + 1` for each consumed page that asked for more with a non-zero backoff. |
| ApiV2.CrawlStep | so4t_api_v2.py:189-224 | One more page extends the loop's state by that page. |
| ApiV2.FilterParams | so4t_api_v2.py:89-97 | `base`, `unsafe` False, and `include` exactly when there are attributes, as their ';'-join. |
| ApiV2.IncludeRoundTrip | so4t_api_v2.py:94-97 | Splitting the include list on ';' gives back the attributes when none holds ';'. |
| ApiV2.CreateFilter | so4t_api_v2.py:80-103 | The `filter` field of the first item returned. A loop that raises, no item, or no field are the errors. |
| ApiV2.FilterRequestAsksOnce | so4t_api_v2.py:89-100 | Without a page number the filter request asks once, and a reply asking for more is the KeyError. |
| ApiV2.ChunksCorrect | so4t_api_v2.py:160-162 | The batches put back together are the ids. Each batch holds 1 to 50 ids, all but the last are full, and there are ceil(n/50) of them. |
| ApiV2.ThreeBatchesForOneHundredTwenty | so4t_api_v2.py:160-162 | 120 ids make three requests. |
| ApiV2.ChunkMembers | so4t_api_v2.py:162 | Every id of a batch is one of the ids. |
| ApiV2.IdStrings | so4t_api_v2.py:161 | `str` of every id, in order. |
| ApiV2.ListingParams | so4t_api_v2.py:170-175 | Page 1, 100 per page, and `filter` exactly when one is given. |
| ApiV2.BindKeywords | so4t_user_report.py:311 | The call binds exactly when every keyword passed is declared. Otherwise it raises on the first undeclared keyword in the order passed. |
| ApiV2.ListingCallAsWritten | so4t_user_report.py:311 | For every filter and window, including no window, the call into `get_all_questions` (so4t_api_v2.py:106) raises on `fromdate`. The call at line 334 into `get_all_articles` is the same. |
| ApiV2.DatedListingParams | so4t_user_report.py:311 | The listing parameters kept as they are, plus `fromdate` and `todate` exactly when given, with their values. Nothing else is added. |
| ApiV2.ListingCall | so4t_user_report.py:311 | The intended call always binds, and asks for the listing narrowed to the window. |
| ApiV2.WindowCallMismatch | so4t_user_report.py:311 | On every input, the call as written raises on a keyword the wrapper does not declare, while the intended call binds. With no window, it asks for exactly the plain listing. |
| ApiV2.HistoryStep | so4t_api_v2.py:165-177 | One more batch adds its events after the earlier ones, or ends with its loop's error. |
| ApiV2.FetchBatches | so4t_api_v2.py:165-177 | The batch loop returns `History` and asks the endpoint naming each batch, in order, up to the first failure. |
| ApiV2.GetReputationHistory | so4t_api_v2.py:154-179 | The ids go as strings in batches of 50. The endpoints asked are those of the batches, in order, and the result is the history over them. |
| ApiV2.HistoryConcatenates | so4t_api_v2.py:165-177 | When no batch's loop raises, the history is every batch's items concatenated in batch order. |
| ApiV2.BatchItems | so4t_api_v2.py:177 | One item list per batch. |
| ApiV2.BatchIdsRoundTrip | so4t_api_v2.py:161-166 | A batch's ';'-joined endpoint list splits back into the batch, and every id text parses. |
| ApiV2.IdStringClean | so4t_api_v2.py:161-166 | The text of an id holds no ';'. |

## Left out

- HTTP transport, headers, SSL verification and `test_connection` are not modelled. Server replies are a parameter of the paging loop, and the connection test is not part of `ApiV2.NewClient`.
- Sleeps are not modelled as time: the rate-limit pauses are counted, and backoffs are recorded as waits of `backoff + 1` seconds.
- `account_longevity_days` and `account_inactivity_days` (so4t_user_report.py:429-432) read the clock. They are not computed. The report reads them from the record's attributes when present.
- Floating point is not modelled. Response times are whole seconds rather than float hours, and the median is an exact real in hours. `round(…, 2)` is not modelled.
- The CSV and JSON export, argument parsing, `main`, `get_api_data` and all printing are not modelled.
- The v3 client is not modelled: its `get_all_users`, `get_user`, `get_all_tags` and `get_tag_smes` calls are parameters of the collectors.
- The `soedemo` branches for internal testing (so4t_user_report.py:178, 204-205) are not modelled.
- The filter attributes chosen in `get_questions_answers_comments` and `get_articles` (so4t_user_report.py:276-337) are not modelled. Their calls into the v2 `get_all_questions` and `get_all_articles` wrappers are modelled only up to binding the keywords, which fails as written (see "Date keywords the wrappers do not take"). A wrapper that bound would page with `ApiV2.GetItems`.
- `get_users` builds the filter through `create_filter` on Enterprise only (so4t_user_report.py:178-186). The model takes the filter string as a parameter of the history and listing calls.
- ApiV2.GetItems: a finite sequence of replies can run out. The model then ends with `OutOfReplies`, which the scripts cannot reach; `ApiV2.CrawlEnds` says this happens only when every reply asked for more.
- Text.ParseInt: `int()` accepts ASCII digits, one sign and surrounding spaces. Underscores and non-ASCII digits are not modelled.
- A reply body is a record of `items`, `has_more` and `backoff`. A JSON body that is not an object is not modelled.
- Tags: a negative `subjectMatterExpertCount` is not modelled, since the expert count is a natural number. In the scripts such a tag would get no `smes` key at all.
- Aggregator.Registry.ProcessTags: a user's id compared with expert ids is an integer. A record whose id is a display name never matches, as in the scripts.
- The aliasing between the v2 user dictionaries and the queue of unlisted users in `get_users` is modelled by position in the list, not by shared references.

## Findings

| source | as written | input that shows it | evidently intended | confidence | as-written member | corrected member |
|---|---|---|---|---|---|---|
| so4t_user_report.py:462-468 | `continue` ends one iteration of the individual-expert loop, so the group loop still runs | a tag whose individual ids and group ids both hold 7, for the user with id 7 | the tag name at most once per tag, as the comment on line 465 says | not executed | Aggregator.DuplicateTagAsWritten | Aggregator.IntendedTagCopiesAgree |
| so4t_user_report.py:588-590 | `remove` inside a `for` over the same list skips the element after each removal | response times [-1, -2] leave [-2] and a negative median | every non-positive time removed; a blank median when none is positive | not executed | Reducer.NegativeMedianAsWritten | Reducer.IntendedMedianPositive |
| so4t_user_report.py:311 | `get_all_questions` is called with the keywords `fromdate` and `todate`, which it does not declare (so4t_api_v2.py:106); the same holds for `get_all_articles` at line 334 | any run of `get_api_data`, with or without `--api-start-date`: the keyword `fromdate` is passed even when its value is None | the wrappers take the window and send it as the listing's `fromdate` and `todate` parameters | not executed | ApiV2.ListingCallAsWritten | ApiV2.WindowCallMismatch |
