# A Dafny model of the VK_WEB_2025 question-and-answer data layer

This project models the data layer of a Django question-and-answer site.
It covers four parts of the code.

- The `fill_db` management command. In one atomic transaction it creates `ratio`
  users and draws `ratio` tag names, of which it inserts those not already taken.
  It creates `10 * ratio` questions and gives each new question between one and
  four tags of `all_tags`, a slice of `ratio` tags of the tag table. It creates
  `100 * ratio` answers. It draws `100 * ratio` question likes and as many answer
  likes; a like whose (user, item) pair is already stored is dropped, so fewer may
  be added. Last, it recomputes the cached `rating` of every new question and
  answer as the sum of its like values.
- The model constraints and the ordered queries:
  - the constraints are the 50-character unique tag name, the 255-character
    question title, the like value
    choices 1 and -1, and one like per user and item;
  - the queries are `QuestionManager.new` and `hot`, `TagManager.popular` and
    `ProfileManager.best`.
- Form cleaning. `QuestionForm.clean_tags` splits the comma-separated tag field.
  `RegistrationForm.clean` checks that the two password fields match.
- The 5 MiB upload size validator.

Each table is a sequence of rows in primary-key order. The user, tag, question and
answer tables each have an id sequence. The link and like tables get their own ids
too, but nothing reads them, so the model has no sequence for them.
A `bulk_create(..., ignore_conflicts=True)` insert is `Tables.InsertOrIgnore`: a
candidate whose unique key is already taken is dropped.
The command works on a class `FillDb.Database` whose fields are the tables. Each of
its methods is proved equal to a step function on the pure value `FillDb.Store`.
The properties are proved as lemmas about those step functions:
- the database stays consistent (keys, constraints, foreign keys);
- new rows carry their net votes;
- each new question has its tags;
- nothing earlier is changed.

Every Faker and `random` result is a parameter (`FillDb.Draws`). `random.choice`,
`random.randint` and `random.sample` are functions of these draws. Every result the
real call can give is the result of some draw (`FillDb.ChoiceReaches`,
`FillDb.RandIntReaches`, `FillDb.SampleReaches`).

Files:
- `common.dfy`: `Option`, `Min`, `Take`.
- `ordering.dfy`: descending sort and top-N selection.
- `tables.dfy`: unique keys and the conflict-ignoring insert.
- `models.dfy`: entities, constraints, queries.
- `ratings.dfy`: the rating update.
- `forms.dfy`: the two form cleaners.
- `validators.dfy`: the upload size check.
- `fill_db.dfy`: the command.

## Model

| member | source | states |
|---|---|---|
| Models.NewQuestion | questions/models.py:43-49 | a new question starts with rating 0 and keeps the given id, author and creation time |
| Models.NewAnswer | questions/models.py:59-65 | a new answer starts with rating 0 and is not marked correct |
| Models.New | questions/models.py:37-38 | `new()` returns every question exactly once (same multiset), ordered by non-increasing `created_at` |
| Models.Hot | questions/models.py:40-41 | `hot()` returns every question exactly once, ordered by non-increasing `rating` |
| Models.NumQuestions | questions/models.py:21 | `Count('question')` is at most the number of links, and is 0 exactly when no link names the tag; the exact count: `Models.NumQuestionsExact` |
| Models.NumQuestionsExact | questions/models.py:21 | `Count('question')` is the number of link rows that point at the tag |
| Models.NumAnswers | questions/models.py:8 | `Count('answer')` is at most the number of answers, and is 0 exactly when the profile wrote none; the exact count: `Models.NumAnswersExact` |
| Models.NumAnswersExact | questions/models.py:8 | `Count('answer')` is the number of answers the profile wrote |
| Models.Popular | questions/models.py:19-21 | `popular()` returns min(10, number of tags) tags, drawn from the table without repeats, ordered by non-increasing question count; no tag left out is used by more questions than one that is included |
| Models.Best | questions/models.py:6-8 | `best()` returns min(5, number of profiles) profiles, ordered by non-increasing answer count; no profile left out has more answers than one included |
| Ordering.SortDesc | questions/models.py:37-41 | `order_by('-key')` is a permutation of its input, sorted by non-increasing key |
| Ordering.TopN | questions/models.py:8 | `order_by('-key')[:n]` has length min(n, size), is sorted, is a sub-multiset, and is a top selection |
| Tables.InsertOrIgnore | questions/management/commands/fill_db.py:42 | a conflict-ignoring bulk insert keeps every existing row in place and adds at most one row per candidate |
| Tables.InsertOrIgnoreUnique | questions/models.py:24 | the insert never breaks the unique constraint it guards (`unique=True`, `unique_together`) |
| Tables.InsertOrIgnoreKeys | questions/management/commands/fill_db.py:42 | afterwards the key values present are exactly the old ones plus the candidates' ones |
| Tables.InsertOrIgnoreRows | questions/management/commands/fill_db.py:66 | every stored row is an old row or a candidate |
| Tables.InsertOrIgnoreFirstWins | questions/management/commands/fill_db.py:89 | the first candidate for a key not yet in the table is stored, even when later candidates share its key |
| Tables.InsertOrIgnorePresent | questions/management/commands/fill_db.py:100 | candidates whose keys are all present change nothing |
| Tables.InsertOrIgnoreIdempotent | questions/management/commands/fill_db.py:66 | repeating the same conflict-ignoring insert is a no-op |
| Tables.InsertOrIgnoreUniqueOther | questions/management/commands/fill_db.py:42 | the primary key stays unique across a conflict-ignoring insert on another unique column |
| Tables.UniqueKeysCount | questions/management/commands/fill_db.py:62 | rows with unique keys have exactly one distinct key per row |
| Ratings.AggregateRating | questions/management/commands/fill_db.py:103-107 | the subquery's value is the sum of the item's like values, 0 when it has none; `Ratings.AggregateRatingIsNetVotes` |
| Ratings.RerateQuestions | questions/management/commands/fill_db.py:109-111 | the update keeps the table's length and every row's id in place; new ratings and what stays unchanged: `Ratings.RerateQuestionsSpec` |
| Ratings.RerateAnswers | questions/management/commands/fill_db.py:120-122 | the same for answers, which also keep their question; `Ratings.RerateAnswersSpec` |
| Ratings.AggregateRatingIsNetVotes | questions/management/commands/fill_db.py:103-111 | `Coalesce(Sum(value), 0)` over votes of 1 or -1 is likes minus dislikes: 0 with no votes, and never more than the vote count in absolute value |
| Ratings.AggregateRatingExample | questions/management/commands/fill_db.py:106 | votes +1, -1, +1 give rating 1; an item without votes gets 0, not NULL |
| Ratings.RerateQuestionsSpec | questions/management/commands/fill_db.py:109-111 | after the update each selected question's rating is its net votes; other questions and every other field are unchanged |
| Ratings.RerateAnswersSpec | questions/management/commands/fill_db.py:120-122 | the same for answers |
| Validators.ValidateFileSize | questions/validators.py:3-6 | a file is rejected exactly when it is larger than 5242880 bytes, with the "File too large" message |
| Validators.LimitIsFiveMebibytes | questions/validators.py:4 | the limit is 5 * 1024 * 1024 = 5242880 bytes |
| Validators.LimitItselfAccepted | questions/validators.py:5 | the comparison is strict: exactly 5 MiB passes, one byte more fails |
| Validators.RejectionMonotone | questions/validators.py:5-6 | any file larger than a rejected one is rejected too |
| Forms.StripLeft | questions/forms.py:65 | `lstrip()` removes exactly the leading whitespace: the result is a suffix that does not start with whitespace, and every removed character is whitespace |
| Forms.StripRight | questions/forms.py:65 | `rstrip()` removes exactly the trailing whitespace: the result is a prefix that does not end with whitespace, and every removed character is whitespace |
| Forms.Strip | questions/forms.py:65 | `strip()` result is no longer than the input and neither starts nor ends with whitespace; `Forms.StripTrims` states what is removed |
| Forms.StripTrims | questions/forms.py:65 | `strip()` returns `s[a..b]` where every character before `a` and from `b` on is whitespace; with `Forms.Strip` this is exactly `str.strip()` |
| Forms.StripStripped | questions/forms.py:65 | `strip()` leaves an already stripped string unchanged |
| Forms.Split | questions/forms.py:65 | `split(',')` gives one more piece than there are commas, and no piece holds a comma |
| Forms.JoinSplit | questions/forms.py:65 | joining the pieces of `split(',')` with commas gives the input back |
| Forms.SplitJoin | questions/forms.py:65 | splitting comma-joined comma-free pieces gives the pieces back |
| Forms.StripNonBlank | questions/forms.py:65 | the list comprehension keeps at most one entry per piece, each non-empty and stripped; which entries and in what order: `Forms.StripNonBlankMembers`, `Forms.StripNonBlankConcat` |
| Forms.StripNonBlankMembers | questions/forms.py:65 | a string is in the comprehension's output exactly when it is the non-empty `strip()` of some piece |
| Forms.StripNonBlankConcat | questions/forms.py:65 | the comprehension works piece by piece in input order: its output for `a + b` is its output for `a` followed by its output for `b`, duplicates included |
| Forms.CleanTags | questions/forms.py:60-66 | a missing or empty field gives `[]`; otherwise at most one tag per comma piece, each non-empty, stripped and comma-free; which tags and in what order: `Forms.CleanTagsMembers`, `Forms.CleanTagsComma`, `Forms.CleanTagsPiece` |
| Forms.CleanTagsMembers | questions/forms.py:65 | a tag is in the cleaned list exactly when it is the non-empty `strip()` of some comma piece of the field |
| Forms.SplitComma | questions/forms.py:65 | `split(',')` of `a + ',' + b` is the pieces of `a` followed by the pieces of `b` |
| Forms.CleanTagsComma | questions/forms.py:60-66 | cleaning `a + ',' + b` gives the tags of `a` followed by the tags of `b`, so order and duplicates follow the field |
| Forms.CleanTagsPiece | questions/forms.py:60-66 | a field without commas gives the single tag `strip()` of it, or no tag when it is blank |
| Forms.CleanTagsExample | questions/forms.py:60-66 | the field `" a, ,b "` is cleaned to `["a", "b"]` |
| Forms.CleanTagsStripped | questions/forms.py:65 | every cleaned tag is a fixed point of `strip()` |
| Forms.CleanTagsJoin | questions/forms.py:60-66 | clean tags joined with commas are parsed back to the same list, duplicates and order included |
| Forms.CleanTagsIdempotent | questions/forms.py:60-66 | cleaning the comma-joined result of cleaning gives the same list |
| Forms.CleanTagsKeepsDuplicates | questions/forms.py:65 | cleaning is case-sensitive and does not de-duplicate |
| Forms.RegistrationForm.Clean | questions/forms.py:23-31 | differing passwords append "Passwords do not match!" to the `password_repeat` errors and drop that field from the cleaned data; matching ones change nothing; the cleaned data is returned |
| FillDb.Choice | questions/management/commands/fill_db.py:49 | `random.choice` returns an element of its non-empty argument |
| FillDb.RandInt | questions/management/commands/fill_db.py:62 | `random.randint(lo, hi)` lies in the closed range |
| FillDb.Sample | questions/management/commands/fill_db.py:62 | `random.sample(population, k)` has k elements, all drawn from the population |
| FillDb.ChoiceReaches | questions/management/commands/fill_db.py:49 | every element of the list is the choice of some draw |
| FillDb.RandIntReaches | questions/management/commands/fill_db.py:62 | every value of the closed range is the result of some draw |
| FillDb.SampleReaches | questions/management/commands/fill_db.py:62 | every arrangement of `k` elements taken from the population without replacement is the sample of some draws |
| FillDb.SampleUnique | questions/management/commands/fill_db.py:62 | a sample from a population with unique keys has unique keys (no replacement) |
| FillDb.AllTags | questions/management/commands/fill_db.py:43 | `all_tags` is min(ratio, number of tags) tags of the table, taken in primary-key order (see "Left out") |
| FillDb.LinksFor | questions/management/commands/fill_db.py:61-64 | a question gets no links when there are no tags, and otherwise between 1 and min(4, len(all_tags)) links, all for that question; `FillDb.LinksForCount` adds that the tags are distinct and from `all_tags` |
| FillDb.TagLinks | questions/management/commands/fill_db.py:58-64 | there are no links when there are no tags, and every link is for one of the new questions; per-question counts and tag origins: `FillDb.TagLinksCount`, `FillDb.TagLinksOthers`, `FillDb.TagLinksFrom` |
| FillDb.LinksForCount | questions/management/commands/fill_db.py:61-64 | one question's links name between 1 and min(4, len(all_tags)) distinct tags, or none when there are no tags |
| FillDb.TagLinksCount | questions/management/commands/fill_db.py:60-64 | in `through_objects` every new question has between 1 and min(4, len(all_tags)) distinct tags |
| FillDb.TagLinksOthers | questions/management/commands/fill_db.py:60-64 | `through_objects` links no question outside the new ones |
| FillDb.TagLinksFrom | questions/management/commands/fill_db.py:60-64 | every link joins a new question to one of `all_tags` |
| FillDb.LinkedTagsInsert | questions/management/commands/fill_db.py:66 | inserting links adds exactly the candidates' tags to each question |
| FillDb.NewestFirst | questions/management/commands/fill_db.py:38 | `values_list('id').order_by('-id')[:n]` after `n` fresh rows lists those rows' ids, largest first; its order and range: `FillDb.NewestFirstIds` |
| FillDb.NewestFirstIds | questions/management/commands/fill_db.py:54-55 | those ids are in strictly decreasing order, so distinct, and are exactly the fresh ids |
| FillDb.TagBatch | questions/management/commands/fill_db.py:41 | one `Tag` per drawn name, in draw order, with consecutive ids; what the insert keeps of it: `FillDb.TagBatchInsert`, `FillDb.TagNamesInserted` |
| FillDb.QuestionBatch | questions/management/commands/fill_db.py:46-52 | one question per draw, with consecutive ids, an author from `new_users_ids`, the drawn title, rating 0 and the current time |
| FillDb.AnswerBatch | questions/management/commands/fill_db.py:69-75 | one answer per draw, with an author from `new_users_ids`, a question from `question_ids`, rating 0 and not correct |
| FillDb.VoteBatch | questions/management/commands/fill_db.py:82-88 | one like per draw, from a new user on a given item, with value 1 or -1 |
| FillDb.BuildQuestions | questions/management/commands/fill_db.py:46-52 | the question loop builds exactly `QuestionBatch` |
| FillDb.BuildAnswers | questions/management/commands/fill_db.py:69-75 | the answer loop builds exactly `AnswerBatch` |
| FillDb.BuildVotes | questions/management/commands/fill_db.py:93-99 | each vote loop builds exactly `VoteBatch` |
| FillDb.BuildTagLinks | questions/management/commands/fill_db.py:59-64 | the tagging loop builds exactly `TagLinks`, whose properties are the lemmas above |
| FillDb.AppendLinks | questions/management/commands/fill_db.py:63-64 | the inner loop appends one link per chosen tag, in order |
| FillDb.TagBatchInsert | questions/management/commands/fill_db.py:41-42 | inserting fresh tags of at most 50 characters keeps tag names and ids unique and keeps every old tag id |
| FillDb.TagNamesInserted | questions/management/commands/fill_db.py:42 | afterwards the tag names are the old names plus every drawn name |
| FillDb.AddUsers | questions/management/commands/fill_db.py:36 | creating users changes only the user table and its sequence, keeps every old user and adds exactly `n`; consistency: `FillDb.AddUsersConsistent` |
| FillDb.AddTags | questions/management/commands/fill_db.py:42 | inserting tags changes only the tag table and its sequence, keeps the old tags in place and adds at most one per drawn name; `FillDb.TagBatchInsert`, `FillDb.TagNamesInserted`, `FillDb.AddTagsConsistent` |
| FillDb.AddQuestions | questions/management/commands/fill_db.py:53 | creating questions changes only the question table and its sequence, keeps the old questions as a prefix and adds exactly one per draw; `FillDb.AddQuestionsConsistent` |
| FillDb.AddLinks | questions/management/commands/fill_db.py:66 | inserting links changes only the link table, keeps the old links as a prefix and adds at most one per candidate; `FillDb.LinkedTagsInsert`, `FillDb.AddLinksConsistent` |
| FillDb.AddAnswers | questions/management/commands/fill_db.py:76 | creating answers changes only the answer table and its sequence, keeps the old answers as a prefix and adds exactly one per draw; `FillDb.AddAnswersConsistent` |
| FillDb.AddQuestionVotes | questions/management/commands/fill_db.py:89 | inserting question likes changes only that table, keeps the old likes as a prefix and adds at most one per vote; `FillDb.AddQuestionVotesConsistent` |
| FillDb.AddAnswerVotes | questions/management/commands/fill_db.py:100 | the same for answer likes; `FillDb.AddAnswerVotesConsistent` |
| FillDb.AfterQuestions | questions/management/commands/fill_db.py:25-66 | the first half of `handle` leaves answers and likes alone and adds `ratio` users and `10 * ratio` questions; `FillDb.AfterQuestionsConsistent`, `FillDb.AfterQuestionsTagged` |
| FillDb.AfterAnswers | questions/management/commands/fill_db.py:68-100 | the second half leaves users, tags, questions and links alone and adds `100 * ratio` answers; `FillDb.AfterAnswersConsistent` |
| FillDb.AfterFill | questions/management/commands/fill_db.py:19-124 | a successful run advances the user and tag sequences by `ratio`, the question sequence by `10 * ratio` and the answer sequence by `100 * ratio`, and adds exactly that many questions and answers; `FillDb.AfterFillConsistent`, `FillDb.AfterFillQuestions`, `FillDb.AfterFillAnswers`, `FillDb.AfterFillKeeps`, `FillDb.AfterFillOutcome` |
| FillDb.AddUsersConsistent | questions/management/commands/fill_db.py:36 | creating users keeps the database consistent |
| FillDb.AddTagsConsistent | questions/management/commands/fill_db.py:42 | inserting tags keeps the database consistent |
| FillDb.AddQuestionsConsistent | questions/management/commands/fill_db.py:53 | creating questions whose titles fit 255 characters keeps the database consistent and appends ids counting up from the sequence |
| FillDb.AddLinksConsistent | questions/management/commands/fill_db.py:66 | inserting links between existing questions and tags keeps the database consistent |
| FillDb.AddAnswersConsistent | questions/management/commands/fill_db.py:76 | creating answers to existing questions keeps the database consistent |
| FillDb.AddQuestionVotesConsistent | questions/management/commands/fill_db.py:89 | inserting question likes keeps the `unique_together` and value constraints |
| FillDb.AddAnswerVotesConsistent | questions/management/commands/fill_db.py:100 | the same for answer likes |
| FillDb.RerateQuestionsConsistent | questions/management/commands/fill_db.py:109-111 | the question rating update keeps the database consistent |
| FillDb.RerateAnswersConsistent | questions/management/commands/fill_db.py:120-122 | the answer rating update keeps the database consistent |
| FillDb.AfterQuestionsConsistent | questions/management/commands/fill_db.py:25-66 | the first half of `handle` keeps the database consistent, and every id in `question_ids` exists |
| FillDb.AfterAnswersConsistent | questions/management/commands/fill_db.py:68-100 | answers and votes keep the database consistent |
| FillDb.AfterFillConsistent | questions/management/commands/fill_db.py:19-124 | a successful run keeps every key, constraint and foreign key |
| FillDb.AfterQuestionsTagged | questions/management/commands/fill_db.py:38-66 | after the tagging step each new question has between 1 and min(4, available tags) tags and is written by a new user |
| FillDb.AfterFillQuestions | questions/management/commands/fill_db.py:46-111 | after a run the new questions carry their net votes, have their tags, and are written by new users; old questions are unchanged |
| FillDb.AfterFillAnswers | questions/management/commands/fill_db.py:69-122 | after a run the new answers carry their net votes and are written by new users on new questions; old answers are unchanged |
| FillDb.AfterFillKeeps | questions/management/commands/fill_db.py:36-100 | a run adds `ratio` users and every drawn tag name, and removes or changes no link or like |
| FillDb.AfterFillOutcome | questions/management/commands/fill_db.py:19-124 | everything a successful run promises (`FillOutcome`) holds from any consistent database |
| FillDb.RerateNewQuestions | questions/management/commands/fill_db.py:109-111 | updating the new questions settles their ratings and keeps their tags |
| FillDb.RerateNewAnswers | questions/management/commands/fill_db.py:120-122 | updating the new answers settles their ratings and keeps their questions |
| FillDb.Database.CreateUsers | questions/management/commands/fill_db.py:28-38 | appends `n` users and returns their ids newest first; the database stays consistent |
| FillDb.Database.InsertTags | questions/management/commands/fill_db.py:41-42 | the tag table becomes `AddTags` of the old one; the database stays consistent |
| FillDb.Database.CreateQuestions | questions/management/commands/fill_db.py:46-55 | appends the question batch and returns the new ids newest first; the database stays consistent |
| FillDb.Database.TagQuestions | questions/management/commands/fill_db.py:43-66 | inserts the links of the tagging loop over `all_tags`; the database stays consistent |
| FillDb.Database.CreateAnswers | questions/management/commands/fill_db.py:69-78 | appends the answer batch and returns the new ids newest first; the database stays consistent |
| FillDb.Database.VoteOnQuestions | questions/management/commands/fill_db.py:82-89 | inserts the question likes, ignoring repeated votes; the database stays consistent |
| FillDb.Database.VoteOnAnswers | questions/management/commands/fill_db.py:93-100 | inserts the answer likes, ignoring repeated votes; the database stays consistent |
| FillDb.Database.RecomputeQuestionRatings | questions/management/commands/fill_db.py:103-111 | rewrites the selected questions' ratings; the database stays consistent |
| FillDb.Database.RecomputeAnswerRatings | questions/management/commands/fill_db.py:114-122 | rewrites the selected answers' ratings; the database stays consistent |
| FillDb.Database.PostQuestions | questions/management/commands/fill_db.py:25-66 | users, tags, questions and links, as `AfterQuestions`; every id in `question_ids` exists; the database stays consistent |
| FillDb.Database.PostAnswersAndVotes | questions/management/commands/fill_db.py:68-100 | answers and both kinds of likes, as `AfterAnswers`; the database stays consistent |
| FillDb.RolledBack | questions/management/commands/fill_db.py:19 | a rolled-back run leaves every table as it was and moves the user and tag sequences on by the ids already taken; consistency: `FillDb.RolledBackConsistent` |
| FillDb.RolledBackConsistent | questions/management/commands/fill_db.py:19 | a rollback keeps the database consistent |
| FillDb.Database.RollBack | questions/management/commands/fill_db.py:19 | the state becomes `RolledBack` of the old state and stays consistent |
| FillDb.Database.Handle | questions/management/commands/fill_db.py:19-124 | a negative ratio fails before any insert and leaves the database unchanged. A tag name over 50 characters rolls back every row but keeps the `ratio` user ids taken; a title over 255 characters also keeps the tag ids taken. Otherwise the run fills the database, which stays consistent and satisfies `FillOutcome` |

## Left out

- Output, Faker text and password hashing are left out. The `print` calls and `make_password` have no effect on the tables that are modelled. The generated usernames, e-mails, titles and texts are arbitrary draws.
- `batch_size` is left out. Splitting a bulk insert into batches inside one transaction gives the same rows.
- Users are modelled as ids only. Usernames are not modelled, so the model cannot show a duplicate generated username aborting the run.
- The Question, Answer and like author columns are declared as foreign keys to `Profile`. The command fills them with `User` ids and creates no profiles. The model treats them as user ids and does not check that foreign key. Nor does it model the `Profile` table, except as the input of `ProfileManager.best`. The real run commits only when a profile exists for every drawn user id; otherwise the deferred foreign-key check fails at commit and the whole transaction rolls back.
- FillDb.Database.Handle: `Outcome.Filled` presumes that a profile exists for every new user id, as above. The model has no outcome for the rollback at commit.
- FillDb.AfterQuestions: `Question.objects.all()` goes through the manager's `select_related('author', 'author__user')`, an inner join that hides questions whose author has no profile. The model takes `new_questions` as the newest `10 * ratio` questions, which is the same only when every author resolves.
- FillDb.AllTags: `Tag.objects.all()[:ratio]` has no `order_by`, and `Tag` declares no default ordering, so the database may return any `ratio` tags. The model takes them in primary-key order. The lemmas about tagging use only that `all_tags` is min(ratio, number of tags) distinct tags of the table.
- FillDb.QuestionBatch, FillDb.AnswerBatch: `auto_now_add` gives each row of a `bulk_create` its own `timezone.now()`. The model gives every row of a batch the same `now`.
- The tag name limit of 50 characters is modelled as the database refusing the insert, so the atomic transaction rolls back. That is `Outcome.TagNameTooLong`. The question title limit of 255 characters is modelled the same way as `Outcome.TitleTooLong`. The database backend is not part of this model.
- FillDb.RolledBack: the refused insert's own sequence is kept where it was. A database may take values from it, for earlier batches of `batch_size` or for rows formed before the refusal.
- A negative `ratio` is modelled as Django's `ValueError` for a negative slice, so the transaction rolls back. That is `Outcome.NegativeRatio`.
- Tag ids are given to every candidate of the tag insert, so a skipped duplicate name leaves a gap in the sequence, as a database sequence does.
- Models.New, Models.Hot, Models.Popular, Models.Best: ties are broken by a stable sort. The source leaves the order of equal keys to the database, so the model promises nothing about it.
- Models.New, Models.Hot: `select_related`, `prefetch_related` and the `num_answers` annotation of `get_queryset` are left out. When every author resolves to a profile they add joined data but do not change which questions are returned or their order; the inner join of `select_related` hides questions whose author has no profile.
- Forms.RegistrationForm.Clean: the ModelForm base validation (`super().clean()`) is modelled by its result. The cleaned data and field errors are constructor parameters.
- `LoginForm`, `SettingsForm`, `AnswerForm`, `RegistrationForm.save` are left out. So are the views, URLs, admin registrations, the `__str__` methods and `get_absolute_url`. None of them changes the data that is modelled.
- Concurrency is left out: the command runs alone inside its transaction. The clock is the `now` parameter.
