/**
 * The `fill_db` management command (questions/management/commands/fill_db.py):
 * generates `ratio` users and tags, ten times as many questions with tags,
 * a hundred times as many answers and likes, then recomputes the cached
 * ratings. Every Faker and `random` result is a parameter (`Draws`).
 */
module FillDb {
  import opened Common
  import opened Models
  import opened Tables
  import opened Ratings

  /** Faker text and `random` results used while building one question. */
  datatype QuestionDraw = QuestionDraw(author: nat, title: string, text: string)
  /** `random.randint(1, min(4, len(all_tags)))` and the picks of `random.sample`. */
  datatype TagDraw = TagDraw(count: nat, picks: seq<nat>)
  datatype AnswerDraw = AnswerDraw(author: nat, question: nat, text: string)
  /** `random.choice` of voter, item and value. */
  datatype VoteDraw = VoteDraw(user: nat, item: nat, value: nat)

  /** Everything Faker and `random` return during one run, in loop order. */
  datatype Draws = Draws(
    tagNames: seq<string>,
    questions: seq<QuestionDraw>,
    tagging: seq<TagDraw>,
    answers: seq<AnswerDraw>,
    questionVotes: seq<VoteDraw>,
    answerVotes: seq<VoteDraw>)

  /** One draw per loop iteration, as `range(ratio)`, `range(ratio * 10)` and `range(ratio * 100)` give. */
  predicate Shaped(d: Draws, ratio: nat)
  {
    && |d.tagNames| == ratio
    && |d.questions| == 10 * ratio
    && |d.tagging| == 10 * ratio
    && |d.answers| == 100 * ratio
    && |d.questionVotes| == 100 * ratio
    && |d.answerVotes| == 100 * ratio
  }

  /** `random.choice([1, -1])` for a vote's value. */
  const VoteChoices: seq<int> := [1, -1]

  /** `random.choice(xs)`: the draw selects an element; every element can be selected. */
  function Choice<T>(xs: seq<T>, n: nat): (x: T)
    requires xs != []
    ensures x in xs
  {
    xs[n % |xs|]
  }

  /** `random.randint(lo, hi)`: the draw selects a value in the closed range. */
  function RandInt(lo: int, hi: int, n: nat): (r: int)
    requires lo <= hi
    ensures lo <= r <= hi
  {
    lo + n % (hi - lo + 1)
  }

  /** The next pick of a draw sequence; an exhausted sequence picks 0. */
  function HeadPick(picks: seq<nat>): nat
  {
    if picks == [] then 0 else picks[0]
  }

  /** `random.sample(population, k)`: k picks without replacement. */
  function Sample<T>(population: seq<T>, k: nat, picks: seq<nat>): (r: seq<T>)
    requires k <= |population|
    ensures |r| == k
    ensures forall x :: x in r ==> x in population
    decreases k
  {
    if k == 0 then []
    else
      var i := HeadPick(picks) % |population|;
      var remaining := population[..i] + population[i + 1..];
      var rest := Sample(remaining, k - 1, if picks == [] then [] else picks[1..]);
      assert forall x :: x in remaining ==> x in population;
      [population[i]] + rest
  }

  /** Every element of the list is the choice of some draw. */
  lemma ChoiceReaches<T>(xs: seq<T>, i: nat)
    requires i < |xs|
    ensures Choice(xs, i) == xs[i]
  {
  }

  /** Every value of the closed range is the result of some draw. */
  lemma RandIntReaches(lo: int, hi: int, v: int)
    requires lo <= v <= hi
    ensures RandInt(lo, hi, v - lo) == v
  {
  }

  /** A value below the modulus is its own remainder. */
  lemma ModSmall(i: nat, n: nat)
    requires i < n
    ensures i % n == i
  {
  }

  /** A draw that picks position `i` first samples `population[i]` and then samples the rest. */
  lemma SampleFirst<T>(population: seq<T>, k: nat, i: nat, more: seq<nat>)
    requires 0 < k <= |population| && i < |population|
    ensures Sample(population, k, [i] + more)
         == [population[i]] + Sample(population[..i] + population[i + 1..], k - 1, more)
  {
    var picks := [i] + more;
    assert HeadPick(picks) == i;
    assert i % |population| == i by { ModSmall(i, |population|); }
    assert picks[1..] == more;
  }

  /** Taking the first element of `r` out of the population leaves room for the rest of `r`. */
  lemma RemoveFirstSubMultiset<T>(population: seq<T>, i: nat, r: seq<T>)
    requires i < |population| && r != [] && population[i] == r[0]
    requires multiset(r) <= multiset(population)
    ensures multiset(r[1..]) <= multiset(population[..i] + population[i + 1..])
  {
    var remaining := population[..i] + population[i + 1..];
    assert population == population[..i] + [population[i]] + population[i + 1..];
    assert multiset(population) == multiset(remaining) + multiset{r[0]};
    assert r == [r[0]] + r[1..];
    assert multiset(r) == multiset(r[1..]) + multiset{r[0]};
    assert forall x :: multiset(r[1..])[x] <= multiset(remaining)[x] by {
      forall x
        ensures multiset(r[1..])[x] <= multiset(remaining)[x]
      {
        assert multiset(r)[x] <= multiset(population)[x];
      }
    }
  }

  /** Draws that make `Sample` return exactly `r`, built one pick at a time. */
  lemma {:induction false} SampleDraws<T>(population: seq<T>, r: seq<T>) returns (picks: seq<nat>)
    requires |r| <= |population| && multiset(r) <= multiset(population)
    ensures Sample(population, |r|, picks) == r
    decreases |r|
  {
    if r == [] {
      picks := [];
    } else {
      assert r[0] in population by {
        assert r[0] in multiset(r);
      }
      var i :| 0 <= i < |population| && population[i] == r[0];
      var remaining := population[..i] + population[i + 1..];
      RemoveFirstSubMultiset(population, i, r);
      var more := SampleDraws(remaining, r[1..]);
      picks := [i] + more;
      SampleFirst(population, |r|, i, more);
      assert [r[0]] + r[1..] == r;
    }
  }

  /** Every arrangement of elements taken without replacement is the sample of some draws. */
  lemma SampleReaches<T>(population: seq<T>, r: seq<T>)
    requires |r| <= |population| && multiset(r) <= multiset(population)
    ensures exists picks :: Sample(population, |r|, picks) == r
  {
    var picks := SampleDraws(population, r);
  }

  /** A sample never holds two elements with the same key when the population does not. */
  lemma {:induction false} SampleUnique<T, K>(population: seq<T>, k: nat, picks: seq<nat>, key: T -> K)
    requires k <= |population|
    requires UniqueKeys(population, key)
    ensures UniqueKeys(Sample(population, k, picks), key)
    decreases k
  {
    if k > 0 {
      var i := HeadPick(picks) % |population|;
      var remaining := population[..i] + population[i + 1..];
      var tail := if picks == [] then [] else picks[1..];
      assert Sample(population, k, picks) == [population[i]] + Sample(remaining, k - 1, tail);
      RemoveAtUnique(population, i, key);
      SampleUnique(remaining, k - 1, tail, key);
      ConsUnique(population[i], Sample(remaining, k - 1, tail), key);
    }
  }

  /** `all_tags = list(Tag.objects.all()[:ratio])`, table order. */
  function AllTags(tags: seq<Tag>, ratio: nat): (r: seq<Tag>)
    ensures r <= tags && |r| == Min(ratio, |tags|) && |r| <= ratio
  {
    Take(tags, ratio)
  }

  /** One `QuestionTag(question=..., tag=...)` per chosen tag, in order. */
  function LinksOf(question: nat, chosen: seq<Tag>): (r: seq<QuestionTag>)
    ensures |r| == |chosen|
  {
    seq(|chosen|, j requires 0 <= j < |chosen| => QuestionTag(question, chosen[j].id))
  }

  /** The links of one new question: none without tags, else one per sampled tag. */
  function LinksFor(question: nat, allTags: seq<Tag>, d: TagDraw): (r: seq<QuestionTag>)
    ensures allTags == [] ==> r == []
    ensures allTags != [] ==> 1 <= |r| <= Min(4, |allTags|)
    ensures forall l :: l in r ==> l.question == question
  {
    if allTags == [] then []
    else LinksOf(question, Sample(allTags, RandInt(1, Min(4, |allTags|), d.count), d.picks))
  }

  /** `through_objects` after the loop over `new_questions`. */
  function TagLinks(questions: seq<nat>, allTags: seq<Tag>, draws: seq<TagDraw>): (r: seq<QuestionTag>)
    requires |draws| == |questions|
    ensures allTags == [] ==> r == []
    ensures forall l :: l in r ==> l.question in questions
  {
    if questions == [] then []
    else LinksFor(questions[0], allTags, draws[0]) + TagLinks(questions[1..], allTags, draws[1..])
  }

  /** The tags linked to `question` by the rows of a link table. */
  function LinkedTags(links: seq<QuestionTag>, question: nat): set<nat>
  {
    set l | l in Keys(links, LinkKey) && l.question == question :: l.tag
  }

  /** How many tags a new question gets: none without tags, else 1 to min(4, available). */
  predicate TagCountInRange(linked: set<nat>, available: nat)
  {
    if available == 0 then linked == {} else 1 <= |linked| <= Min(4, available)
  }

  lemma LinkedTagsConcat(a: seq<QuestionTag>, b: seq<QuestionTag>, question: nat)
    ensures LinkedTags(a + b, question) == LinkedTags(a, question) + LinkedTags(b, question)
  {
    KeysConcat(a, b, LinkKey);
  }

  /** One question's links name exactly the sampled tags, distinct, between 1 and min(4, |allTags|) of them. */
  lemma LinksForCount(question: nat, allTags: seq<Tag>, d: TagDraw)
    requires UniqueKeys(allTags, TagId)
    ensures TagCountInRange(LinkedTags(LinksFor(question, allTags, d), question), |allTags|)
  {
    var links := LinksFor(question, allTags, d);
    if allTags != [] {
      var chosen := Sample(allTags, RandInt(1, Min(4, |allTags|), d.count), d.picks);
      SampleUnique(allTags, RandInt(1, Min(4, |allTags|), d.count), d.picks, TagId);
      assert LinkedTags(links, question) == Keys(chosen, TagId) by {
        forall t | t in Keys(chosen, TagId) ensures t in LinkedTags(links, question) {
          var j :| 0 <= j < |chosen| && chosen[j].id == t;
          assert links[j] == QuestionTag(question, t);
          assert links[j] in Keys(links, LinkKey);
        }
      }
      UniqueKeysCount(chosen, TagId);
    }
  }

  /** One question's links name no other question. */
  lemma LinksForOthers(question: nat, allTags: seq<Tag>, d: TagDraw, other: nat)
    requires other != question
    ensures LinkedTags(LinksFor(question, allTags, d), other) == {}
  {
  }

  /** Every new question's links in `through_objects` name between 1 and min(4, |allTags|) distinct tags. */
  lemma {:induction false} TagLinksCount(questions: seq<nat>, allTags: seq<Tag>, draws: seq<TagDraw>, k: nat)
    requires |draws| == |questions|
    requires k < |questions|
    requires forall i, j :: 0 <= i < j < |questions| ==> questions[i] != questions[j]
    requires UniqueKeys(allTags, TagId)
    ensures TagCountInRange(LinkedTags(TagLinks(questions, allTags, draws), questions[k]), |allTags|)
  {
    var head := LinksFor(questions[0], allTags, draws[0]);
    var tail := TagLinks(questions[1..], allTags, draws[1..]);
    LinkedTagsConcat(head, tail, questions[k]);
    if k == 0 {
      LinksForCount(questions[0], allTags, draws[0]);
      assert LinkedTags(tail, questions[0]) == {} by {
        TagLinksOthers(questions[1..], allTags, draws[1..], questions[0]);
      }
    } else {
      LinksForOthers(questions[0], allTags, draws[0], questions[k]);
      TagLinksCount(questions[1..], allTags, draws[1..], k - 1);
    }
  }

  /** `through_objects` links no question outside `questions`. */
  lemma {:induction false} TagLinksOthers(questions: seq<nat>, allTags: seq<Tag>, draws: seq<TagDraw>, other: nat)
    requires |draws| == |questions|
    requires other !in questions
    ensures LinkedTags(TagLinks(questions, allTags, draws), other) == {}
  {
    if questions != [] {
      LinkedTagsConcat(LinksFor(questions[0], allTags, draws[0]), TagLinks(questions[1..], allTags, draws[1..]), other);
      LinksForOthers(questions[0], allTags, draws[0], other);
      TagLinksOthers(questions[1..], allTags, draws[1..], other);
    }
  }

  /** The ids `bulk_create` gives to `n` new rows when the sequence is at `start`. */
  function FreshIds(start: nat, n: nat): (r: seq<nat>)
    ensures |r| == n
    ensures forall i :: 0 <= i < n ==> r[i] == start + i
  {
    seq(n, i requires 0 <= i < n => start + i)
  }

  /** `order_by('-id')[:n]` over a table whose `n` largest ids are `start .. start + n - 1`. */
  function NewestFirst(start: nat, n: nat): (r: seq<nat>)
    ensures |r| == n
    ensures forall i :: 0 <= i < n ==> r[i] == start + n - 1 - i
  {
    seq(n, i requires 0 <= i < n => start + n - 1 - i)
  }

  /** Newest-first ids are in strictly decreasing order, so distinct, and are exactly the fresh ids. */
  lemma NewestFirstIds(start: nat, n: nat)
    ensures forall i, j :: 0 <= i < j < n ==> NewestFirst(start, n)[i] > NewestFirst(start, n)[j]
    ensures forall i, j :: 0 <= i < j < n ==> NewestFirst(start, n)[i] != NewestFirst(start, n)[j]
    ensures forall x :: x in NewestFirst(start, n) <==> start <= x < start + n
  {
    var r := NewestFirst(start, n);
    forall x | start <= x < start + n ensures x in r {
      assert r[start + n - 1 - x] == x;
    }
  }

  /** The `Tag(name=...)` objects of one run, numbered from `start`. */
  function TagBatch(start: nat, names: seq<string>): (r: seq<Tag>)
    ensures |r| == |names|
    ensures forall i :: 0 <= i < |r| ==> r[i].id == start + i && r[i].name == names[i]
  {
    seq(|names|, i requires 0 <= i < |names| => Tag(start + i, names[i]))
  }

  /** The `Question(...)` objects the question loop appends, numbered from `start`. */
  function QuestionBatch(start: nat, authors: seq<nat>, draws: seq<QuestionDraw>, now: int): (r: seq<Question>)
    requires draws != [] ==> authors != []
    ensures |r| == |draws|
    ensures forall i :: 0 <= i < |r| ==>
      && r[i].id == start + i && r[i].author in authors && r[i].rating == 0 && r[i].createdAt == now
      && r[i].title == draws[i].title
  {
    seq(|draws|, i requires 0 <= i < |draws| =>
      NewQuestion(start + i, Choice(authors, draws[i].author), draws[i].title, draws[i].text, now))
  }

  /** The `Answer(...)` objects the answer loop appends, numbered from `start`. */
  function AnswerBatch(start: nat, authors: seq<nat>, questions: seq<nat>, draws: seq<AnswerDraw>, now: int): (r: seq<Answer>)
    requires draws != [] ==> authors != [] && questions != []
    ensures |r| == |draws|
    ensures forall i :: 0 <= i < |r| ==>
      && r[i].id == start + i && r[i].author in authors && r[i].question in questions
      && r[i].rating == 0 && !r[i].isCorrect && r[i].createdAt == now
  {
    seq(|draws|, i requires 0 <= i < |draws| =>
      NewAnswer(start + i, Choice(authors, draws[i].author), Choice(questions, draws[i].question), draws[i].text, now))
  }

  /** The like objects a vote loop appends: voter and item drawn from the given ids, value 1 or -1. */
  function VoteBatch(users: seq<nat>, items: seq<nat>, draws: seq<VoteDraw>): (r: seq<Like>)
    requires draws != [] ==> users != [] && items != []
    ensures |r| == |draws|
    ensures forall i :: 0 <= i < |r| ==> r[i].user in users && r[i].item in items && IsLikeValue(r[i].value)
  {
    seq(|draws|, i requires 0 <= i < |draws| =>
      Like(Choice(users, draws[i].user), Choice(items, draws[i].item), Choice(VoteChoices, draws[i].value)))
  }

  /** The question loop: one `Question` per draw, appended in order. */
  method BuildQuestions(start: nat, authors: seq<nat>, draws: seq<QuestionDraw>, now: int) returns (batch: seq<Question>)
    requires draws != [] ==> authors != []
    ensures batch == QuestionBatch(start, authors, draws, now)
  {
    batch := [];
    var i := 0;
    while i < |draws|
      invariant 0 <= i <= |draws|
      invariant batch == QuestionBatch(start, authors, draws[..i], now)
    {
      batch := batch + [NewQuestion(start + i, Choice(authors, draws[i].author), draws[i].title, draws[i].text, now)];
      i := i + 1;
    }
    assert draws[..i] == draws;
  }

  /** The answer loop: one `Answer` per draw, appended in order. */
  method BuildAnswers(start: nat, authors: seq<nat>, questions: seq<nat>, draws: seq<AnswerDraw>, now: int)
    returns (batch: seq<Answer>)
    requires draws != [] ==> authors != [] && questions != []
    ensures batch == AnswerBatch(start, authors, questions, draws, now)
  {
    batch := [];
    var i := 0;
    while i < |draws|
      invariant 0 <= i <= |draws|
      invariant batch == AnswerBatch(start, authors, questions, draws[..i], now)
    {
      batch := batch + [NewAnswer(start + i, Choice(authors, draws[i].author), Choice(questions, draws[i].question), draws[i].text, now)];
      i := i + 1;
    }
    assert draws[..i] == draws;
  }

  /** A vote loop: one like object per draw, appended in order. */
  method BuildVotes(users: seq<nat>, items: seq<nat>, draws: seq<VoteDraw>) returns (batch: seq<Like>)
    requires draws != [] ==> users != [] && items != []
    ensures batch == VoteBatch(users, items, draws)
  {
    batch := [];
    var i := 0;
    while i < |draws|
      invariant 0 <= i <= |draws|
      invariant batch == VoteBatch(users, items, draws[..i])
    {
      batch := batch + [Like(Choice(users, draws[i].user), Choice(items, draws[i].item), Choice(VoteChoices, draws[i].value))];
      i := i + 1;
    }
    assert draws[..i] == draws;
  }

  /** The tagging loop: for each new question, when there are tags, one link per sampled tag. */
  method BuildTagLinks(questions: seq<nat>, allTags: seq<Tag>, draws: seq<TagDraw>) returns (through: seq<QuestionTag>)
    requires |draws| == |questions|
    ensures through == TagLinks(questions, allTags, draws)
  {
    through := [];
    var i := 0;
    while i < |questions|
      invariant 0 <= i <= |questions|
      invariant through + TagLinks(questions[i..], allTags, draws[i..]) == TagLinks(questions, allTags, draws)
    {
      ghost var before := through;
      if allTags != [] {
        var chosen := Sample(allTags, RandInt(1, Min(4, |allTags|), draws[i].count), draws[i].picks);
        through := AppendLinks(through, questions[i], chosen);
      }
      TagLinksAt(questions, allTags, draws, i, before, through);
      i := i + 1;
    }
  }

  /** The inner loop over the sampled tags: one link per tag, appended in order. */
  method AppendLinks(through: seq<QuestionTag>, question: nat, chosen: seq<Tag>) returns (r: seq<QuestionTag>)
    ensures r == through + LinksOf(question, chosen)
  {
    r := through;
    var j := 0;
    while j < |chosen|
      invariant 0 <= j <= |chosen|
      invariant r == through + LinksOf(question, chosen[..j])
    {
      LinksOfSnoc(question, chosen, j);
      r := r + [QuestionTag(question, chosen[j].id)];
      j := j + 1;
    }
    assert chosen[..j] == chosen;
  }

  /** Linking one more chosen tag appends one link. */
  lemma LinksOfSnoc(question: nat, chosen: seq<Tag>, j: nat)
    requires j < |chosen|
    ensures LinksOf(question, chosen[..j + 1]) == LinksOf(question, chosen[..j]) + [QuestionTag(question, chosen[j].id)]
  {
  }

  /** Appending the `i`-th question's links to what precedes them leaves the links of the questions after it to go. */
  lemma TagLinksAt(questions: seq<nat>, allTags: seq<Tag>, draws: seq<TagDraw>, i: nat,
                   before: seq<QuestionTag>, after: seq<QuestionTag>)
    requires |draws| == |questions| && i < |questions|
    requires before + TagLinks(questions[i..], allTags, draws[i..]) == TagLinks(questions, allTags, draws)
    requires after == before + LinksFor(questions[i], allTags, draws[i])
    ensures after + TagLinks(questions[i + 1..], allTags, draws[i + 1..]) == TagLinks(questions, allTags, draws)
  {
    var links := LinksFor(questions[i], allTags, draws[i]);
    var rest := TagLinks(questions[i + 1..], allTags, draws[i + 1..]);
    assert TagLinks(questions[i..], allTags, draws[i..]) == links + rest by {
      assert questions[i..][1..] == questions[i + 1..] && draws[i..][1..] == draws[i + 1..];
    }
    ConcatAssoc(before, links, rest);
  }

  /** Every link of `through_objects` joins one of `questions` to one of `allTags`. */
  lemma {:induction false} TagLinksFrom(questions: seq<nat>, allTags: seq<Tag>, draws: seq<TagDraw>)
    requires |draws| == |questions|
    ensures forall l :: l in TagLinks(questions, allTags, draws) ==>
      l.question in questions && l.tag in Keys(allTags, TagId)
  {
    if questions != [] {
      TagLinksFrom(questions[1..], allTags, draws[1..]);
      var links := LinksFor(questions[0], allTags, draws[0]);
      if allTags != [] {
        var chosen := Sample(allTags, RandInt(1, Min(4, |allTags|), draws[0].count), draws[0].picks);
        forall l | l in links ensures l.question == questions[0] && l.tag in Keys(allTags, TagId) {
          var j :| 0 <= j < |links| && links[j] == l;
          assert chosen[j] in allTags;
          var t :| 0 <= t < |allTags| && allTags[t] == chosen[j];
        }
      }
    }
  }

  /** Inserting links adds exactly the candidates' tags to each question. */
  lemma LinkedTagsInsert(rows: seq<QuestionTag>, cands: seq<QuestionTag>, question: nat)
    ensures LinkedTags(InsertOrIgnore(rows, cands, LinkKey), question)
      == LinkedTags(rows, question) + LinkedTags(cands, question)
  {
    InsertOrIgnoreKeys(rows, cands, LinkKey);
  }

  /** Inserting a batch of fresh tags keeps the tag table's constraints and every existing tag id. */
  lemma TagBatchInsert(tags: seq<Tag>, start: nat, names: seq<string>)
    requires ValidTags(tags) && UniqueKeys(tags, TagId)
    requires forall t :: t in tags ==> t.id < start
    requires forall n :: n in names ==> |n| <= TagNameMaxLength
    ensures var r := InsertOrIgnore(tags, TagBatch(start, names), TagName);
      && ValidTags(r) && UniqueKeys(r, TagId)
      && (forall t :: t in r ==> t.id < start + |names|)
      && Keys(tags, TagId) <= Keys(r, TagId)
  {
    var batch := TagBatch(start, names);
    InsertOrIgnoreUnique(tags, batch, TagName);
    forall i, j | 0 <= i < j < |tags + batch| ensures TagId((tags + batch)[i]) != TagId((tags + batch)[j]) {
      if i < |tags| && j >= |tags| {
        assert tags[i] in tags;
      }
    }
    InsertOrIgnoreUniqueOther(tags, batch, TagName, TagId);
    InsertOrIgnoreRows(tags, batch, TagName);
    InsertOrIgnoreKeys(tags, batch, TagId);
    forall t | t in batch ensures |t.name| <= TagNameMaxLength && t.id < start + |names| {
      var i :| 0 <= i < |batch| && batch[i] == t;
      assert names[i] in names;
    }
  }

  /** How a run of `handle` ends. */
  datatype Outcome =
    | Filled
      /** `[:ratio]` with a negative ratio raises `ValueError`; the transaction rolls back. */
    | NegativeRatio
      /** The database refuses a tag name over 50 characters; the transaction rolls back. */
    | TagNameTooLong
      /** The database refuses a question title over 255 characters; the transaction rolls back. */
    | TitleTooLong

  /**
   * The tables the command writes to, one sequence per table in primary-key
   * order, and the next value of each id sequence.
   */
  datatype Store = Store(
    users: seq<nat>,
    tags: seq<Tag>,
    questions: seq<Question>,
    questionTags: seq<QuestionTag>,
    answers: seq<Answer>,
    questionLikes: seq<Like>,
    answerLikes: seq<Like>,
    nextUserId: nat,
    nextTagId: nat,
    nextQuestionId: nat,
    nextAnswerId: nat)

  /** An empty database; every id sequence starts at 1. */
  const EmptyStore: Store := Store([], [], [], [], [], [], [], 1, 1, 1, 1)

  /** User ids are unique and below the user id sequence. */
  ghost predicate UsersOk(s: Store)
  {
    && (forall i, j :: 0 <= i < j < |s.users| ==> s.users[i] != s.users[j])
    && (forall u :: u in s.users ==> u < s.nextUserId)
  }

  /** Tag names are unique and at most 50 characters; tag ids are unique and below the sequence. */
  ghost predicate TagsOk(s: Store)
  {
    && ValidTags(s.tags) && UniqueKeys(s.tags, TagId)
    && (forall t :: t in s.tags ==> t.id < s.nextTagId)
  }

  /** Question ids are unique and below the sequence; titles are at most 255 characters. */
  ghost predicate QuestionsOk(s: Store)
  {
    && UniqueKeys(s.questions, QuestionId)
    && (forall q :: q in s.questions ==> q.id < s.nextQuestionId && |q.title| <= TitleMaxLength)
  }

  /** Every drawn tag name fits the `name` column. */
  predicate TagNamesFit(names: seq<string>)
  {
    forall n :: n in names ==> |n| <= TagNameMaxLength
  }

  /** Every drawn title fits the `title` column. */
  predicate TitlesFit(draws: seq<QuestionDraw>)
  {
    forall q :: q in draws ==> |q.title| <= TitleMaxLength
  }

  /** Answer ids are unique and below the sequence; every answer's question exists. */
  ghost predicate AnswersOk(s: Store)
  {
    && UniqueKeys(s.answers, AnswerId)
    && (forall a :: a in s.answers ==> a.id < s.nextAnswerId && a.question in Keys(s.questions, QuestionId))
  }

  /** No question is linked to a tag twice; both ends of every link exist. */
  ghost predicate LinksOk(s: Store)
  {
    && UniqueKeys(s.questionTags, LinkKey)
    && (forall l :: l in s.questionTags ==> l.question in Keys(s.questions, QuestionId) && l.tag in Keys(s.tags, TagId))
  }

  /** Question votes are 1 or -1, at most one per user and question, on existing questions. */
  ghost predicate QuestionVotesOk(s: Store)
  {
    && ValidLikes(s.questionLikes)
    && (forall l :: l in s.questionLikes ==> l.item in Keys(s.questions, QuestionId))
  }

  /** Answer votes are 1 or -1, at most one per user and answer, on existing answers. */
  ghost predicate AnswerVotesOk(s: Store)
  {
    && ValidLikes(s.answerLikes)
    && (forall l :: l in s.answerLikes ==> l.item in Keys(s.answers, AnswerId))
  }

  /** Primary keys unique and below their sequence, the declared constraints, and the foreign keys. */
  ghost predicate Consistent(s: Store)
  {
    && UsersOk(s) && TagsOk(s) && QuestionsOk(s) && AnswersOk(s)
    && LinksOk(s) && QuestionVotesOk(s) && AnswerVotesOk(s)
  }

  /** `User.objects.bulk_create(users)` of `n` new users. */
  function AddUsers(s: Store, n: nat): (r: Store)
    ensures r == s.(users := r.users, nextUserId := r.nextUserId)
    ensures s.users <= r.users && |r.users| == |s.users| + n
  {
    s.(users := s.users + FreshIds(s.nextUserId, n), nextUserId := s.nextUserId + n)
  }

  /** `Tag.objects.bulk_create(tags, ignore_conflicts=True)`: a name already present is skipped. */
  function AddTags(s: Store, names: seq<string>): (r: Store)
    ensures r == s.(tags := r.tags, nextTagId := r.nextTagId)
    ensures s.tags <= r.tags && |r.tags| <= |s.tags| + |names|
  {
    s.(tags := InsertOrIgnore(s.tags, TagBatch(s.nextTagId, names), TagName), nextTagId := s.nextTagId + |names|)
  }

  /** `Question.objects.bulk_create(questions)`. */
  function AddQuestions(s: Store, authors: seq<nat>, draws: seq<QuestionDraw>, now: int): (r: Store)
    requires draws != [] ==> authors != []
    ensures r == s.(questions := r.questions, nextQuestionId := r.nextQuestionId)
    ensures s.questions <= r.questions && |r.questions| == |s.questions| + |draws|
  {
    s.(questions := s.questions + QuestionBatch(s.nextQuestionId, authors, draws, now),
       nextQuestionId := s.nextQuestionId + |draws|)
  }

  /** `QuestionTag.objects.bulk_create(through_objects, ignore_conflicts=True)`. */
  function AddLinks(s: Store, through: seq<QuestionTag>): (r: Store)
    ensures r == s.(questionTags := r.questionTags)
    ensures s.questionTags <= r.questionTags && |r.questionTags| <= |s.questionTags| + |through|
  {
    s.(questionTags := InsertOrIgnore(s.questionTags, through, LinkKey))
  }

  /** `Answer.objects.bulk_create(answers)`. */
  function AddAnswers(s: Store, authors: seq<nat>, questionIds: seq<nat>, draws: seq<AnswerDraw>, now: int): (r: Store)
    requires draws != [] ==> authors != [] && questionIds != []
    ensures r == s.(answers := r.answers, nextAnswerId := r.nextAnswerId)
    ensures s.answers <= r.answers && |r.answers| == |s.answers| + |draws|
  {
    s.(answers := s.answers + AnswerBatch(s.nextAnswerId, authors, questionIds, draws, now),
       nextAnswerId := s.nextAnswerId + |draws|)
  }

  /** `QuestionLike.objects.bulk_create(question_likes, ignore_conflicts=True)`: a second vote by a user on a question is skipped. */
  function AddQuestionVotes(s: Store, votes: seq<Like>): (r: Store)
    ensures r == s.(questionLikes := r.questionLikes)
    ensures s.questionLikes <= r.questionLikes && |r.questionLikes| <= |s.questionLikes| + |votes|
  {
    s.(questionLikes := InsertOrIgnore(s.questionLikes, votes, LikeKey))
  }

  /** `AnswerLike.objects.bulk_create(answer_likes, ignore_conflicts=True)`. */
  function AddAnswerVotes(s: Store, votes: seq<Like>): (r: Store)
    ensures r == s.(answerLikes := r.answerLikes)
    ensures s.answerLikes <= r.answerLikes && |r.answerLikes| <= |s.answerLikes| + |votes|
  {
    s.(answerLikes := InsertOrIgnore(s.answerLikes, votes, LikeKey))
  }

  /** The `update(rating=Coalesce(Subquery(...), 0))` over the selected questions. */
  function RerateQuestionsIn(s: Store, ids: seq<nat>): Store
  {
    s.(questions := RerateQuestions(s.questions, ids, s.questionLikes))
  }

  /** The same update over the selected answers. */
  function RerateAnswersIn(s: Store, ids: seq<nat>): Store
  {
    s.(answers := RerateAnswers(s.answers, ids, s.answerLikes))
  }

  /** `handle` up to the `QuestionTag` insert: users, tags, questions, and each new question's tags. */
  function AfterQuestions(s: Store, ratio: nat, d: Draws, now: int): (r: Store)
    requires Shaped(d, ratio)
    ensures r.answers == s.answers && r.questionLikes == s.questionLikes && r.answerLikes == s.answerLikes
    ensures |r.users| == |s.users| + ratio && |r.questions| == |s.questions| + 10 * ratio
  {
    var posted := AddQuestions(AddTags(AddUsers(s, ratio), d.tagNames), NewestFirst(s.nextUserId, ratio), d.questions, now);
    AddLinks(posted, TagLinks(NewestFirst(s.nextQuestionId, 10 * ratio), AllTags(posted.tags, ratio), d.tagging))
  }

  /** The answers and both vote loops, by the given users on the given questions. */
  function AfterAnswers(s: Store, authors: seq<nat>, questionIds: seq<nat>, d: Draws, now: int): (r: Store)
    requires Shaped(d, |authors|) && |questionIds| == 10 * |authors|
    ensures r.users == s.users && r.tags == s.tags && r.questions == s.questions && r.questionTags == s.questionTags
    ensures |r.answers| == |s.answers| + 100 * |authors|
  {
    var answered := AddAnswers(s, authors, questionIds, d.answers, now);
    var voted := AddQuestionVotes(answered, VoteBatch(authors, questionIds, d.questionVotes));
    AddAnswerVotes(voted, VoteBatch(authors, NewestFirst(s.nextAnswerId, |d.answers|), d.answerVotes))
  }

  /** A whole successful run of `handle`, ending with the two rating updates. */
  function AfterFill(s: Store, ratio: nat, d: Draws, now: int): (r: Store)
    requires Shaped(d, ratio)
    ensures r.nextUserId == s.nextUserId + ratio && r.nextTagId == s.nextTagId + ratio
    ensures r.nextQuestionId == s.nextQuestionId + 10 * ratio && r.nextAnswerId == s.nextAnswerId + 100 * ratio
    ensures |r.questions| == |s.questions| + 10 * ratio && |r.answers| == |s.answers| + 100 * ratio
  {
    var questionIds := NewestFirst(s.nextQuestionId, 10 * ratio);
    var filled := AfterAnswers(AfterQuestions(s, ratio, d, now), NewestFirst(s.nextUserId, ratio), questionIds, d, now);
    RerateAnswersIn(RerateQuestionsIn(filled, questionIds), NewestFirst(s.nextAnswerId, 100 * ratio))
  }

  /**
   * What a successful run leaves behind: `ratio` new users, every drawn tag
   * name in the tag table, new questions and answers carrying their net votes
   * and written by the new users, each new question with between 1 and
   * min(4, |all_tags|) tags (none without tags), new answers only on new
   * questions, and no earlier row changed or removed.
   */
  ghost predicate FillOutcome(before: Store, after: Store, ratio: nat, d: Draws)
  {
    && |after.users| == |before.users| + ratio
    && Keys(after.tags, TagName) == Keys(before.tags, TagName) + (set n | n in d.tagNames)
    && QuestionsSettled(before.questions, after.questions, after.questionLikes, 10 * ratio)
    && NewQuestionsTagged(before.questions, after.questions, after.questionTags, Min(ratio, |after.tags|))
    && (forall i :: |before.questions| <= i < |after.questions| ==>
          before.nextUserId <= after.questions[i].author < before.nextUserId + ratio)
    && AnswersSettled(before.answers, after.answers, after.answerLikes, 100 * ratio)
    && (forall i :: |before.answers| <= i < |after.answers| ==>
          && before.nextUserId <= after.answers[i].author < before.nextUserId + ratio
          && before.nextQuestionId <= after.answers[i].question < before.nextQuestionId + 10 * ratio)
    && before.questionTags <= after.questionTags
    && before.questionLikes <= after.questionLikes
    && before.answerLikes <= after.answerLikes
  }

  /**
   * What `handle` leaves behind for the rows it appended to a question or
   * answer table: the old rows are kept as they were, and every new row's
   * rating is its likes minus its dislikes.
   */
  ghost predicate QuestionsSettled(before: seq<Question>, after: seq<Question>, likes: seq<Like>, added: nat)
  {
    && |after| == |before| + added
    && before <= after
    && forall i :: |before| <= i < |after| ==> after[i].rating == NetVotes(likes, after[i].id)
  }

  ghost predicate AnswersSettled(before: seq<Answer>, after: seq<Answer>, likes: seq<Like>, added: nat)
  {
    && |after| == |before| + added
    && before <= after
    && forall i :: |before| <= i < |after| ==> after[i].rating == NetVotes(likes, after[i].id)
  }

  /** Every question appended after `before` has between 1 and min(4, available) tags, or none when nothing is available. */
  ghost predicate NewQuestionsTagged(before: seq<Question>, after: seq<Question>, links: seq<QuestionTag>, available: nat)
  {
    forall i :: |before| <= i < |after| ==> TagCountInRange(LinkedTags(links, after[i].id), available)
  }

  /** `after` is `before` with rows appended whose ids run up from `start`, above every id in `before`. */
  ghost predicate AppendedFrom<R>(before: seq<R>, after: seq<R>, start: nat, key: R -> nat)
  {
    && before <= after
    && (forall i :: 0 <= i < |before| ==> key(before[i]) < start)
    && (forall i :: |before| <= i < |after| ==> key(after[i]) == start + (i - |before|))
  }

  /** Creating users keeps the database consistent. */
  lemma AddUsersConsistent(s: Store, n: nat)
    requires Consistent(s)
    ensures Consistent(AddUsers(s, n))
  {
    var created := FreshIds(s.nextUserId, n);
    forall i, j | 0 <= i < j < |s.users + created| ensures (s.users + created)[i] != (s.users + created)[j] {
      if i < |s.users| && j >= |s.users| {
        assert s.users[i] in s.users;
      }
    }
  }

  /** Inserting tags of at most 50 characters keeps the database consistent. */
  lemma AddTagsConsistent(s: Store, names: seq<string>)
    requires Consistent(s)
    requires forall n :: n in names ==> |n| <= TagNameMaxLength
    ensures Consistent(AddTags(s, names))
  {
    TagBatchInsert(s.tags, s.nextTagId, names);
  }

  /** Creating questions keeps the database consistent and appends ids counting up from the sequence. */
  lemma AddQuestionsConsistent(s: Store, authors: seq<nat>, draws: seq<QuestionDraw>, now: int)
    requires Consistent(s)
    requires draws != [] ==> authors != []
    requires TitlesFit(draws)
    ensures Consistent(AddQuestions(s, authors, draws, now))
    ensures AppendedFrom(s.questions, AddQuestions(s, authors, draws, now).questions, s.nextQuestionId, QuestionId)
  {
    QuestionsAppended(s, authors, draws, now);
    var batch := QuestionBatch(s.nextQuestionId, authors, draws, now);
    forall i, j | 0 <= i < j < |s.questions + batch|
      ensures QuestionId((s.questions + batch)[i]) != QuestionId((s.questions + batch)[j])
    {
      if i < |s.questions| && j >= |s.questions| {
        assert s.questions[i] in s.questions;
      }
    }
    KeysConcat(s.questions, batch, QuestionId);
    forall q | q in batch
      ensures |q.title| <= TitleMaxLength
    {
      var i :| 0 <= i < |batch| && batch[i] == q;
      assert draws[i] in draws;
    }
  }

  /** New question ids count up from the sequence, above every existing id. */
  lemma QuestionsAppended(s: Store, authors: seq<nat>, draws: seq<QuestionDraw>, now: int)
    requires QuestionsOk(s)
    requires draws != [] ==> authors != []
    ensures AppendedFrom(s.questions, AddQuestions(s, authors, draws, now).questions, s.nextQuestionId, QuestionId)
  {
    forall i | 0 <= i < |s.questions| ensures s.questions[i].id < s.nextQuestionId {
      assert s.questions[i] in s.questions;
    }
  }

  /** Inserting links between existing questions and tags keeps the database consistent. */
  lemma AddLinksConsistent(s: Store, through: seq<QuestionTag>)
    requires Consistent(s)
    requires forall l :: l in through ==> l.question in Keys(s.questions, QuestionId) && l.tag in Keys(s.tags, TagId)
    ensures Consistent(AddLinks(s, through))
  {
    InsertOrIgnoreUnique(s.questionTags, through, LinkKey);
    InsertOrIgnoreRows(s.questionTags, through, LinkKey);
  }

  /** Creating answers to existing questions keeps the database consistent and appends ids counting up from the sequence. */
  lemma AddAnswersConsistent(s: Store, authors: seq<nat>, questionIds: seq<nat>, draws: seq<AnswerDraw>, now: int)
    requires Consistent(s)
    requires draws != [] ==> authors != [] && questionIds != []
    requires forall q :: q in questionIds ==> q in Keys(s.questions, QuestionId)
    ensures Consistent(AddAnswers(s, authors, questionIds, draws, now))
    ensures AppendedFrom(s.answers, AddAnswers(s, authors, questionIds, draws, now).answers, s.nextAnswerId, AnswerId)
  {
    var batch := AnswerBatch(s.nextAnswerId, authors, questionIds, draws, now);
    forall i, j | 0 <= i < j < |s.answers + batch|
      ensures AnswerId((s.answers + batch)[i]) != AnswerId((s.answers + batch)[j])
    {
      if i < |s.answers| && j >= |s.answers| {
        assert s.answers[i] in s.answers;
      }
    }
    forall i | 0 <= i < |s.answers| ensures s.answers[i].id < s.nextAnswerId {
      assert s.answers[i] in s.answers;
    }
    KeysConcat(s.answers, batch, AnswerId);
  }

  /** Inserting votes of 1 or -1 on existing questions keeps the database consistent. */
  lemma AddQuestionVotesConsistent(s: Store, votes: seq<Like>)
    requires Consistent(s)
    requires forall l :: l in votes ==> IsLikeValue(l.value) && l.item in Keys(s.questions, QuestionId)
    ensures Consistent(AddQuestionVotes(s, votes))
  {
    InsertOrIgnoreUnique(s.questionLikes, votes, LikeKey);
    InsertOrIgnoreRows(s.questionLikes, votes, LikeKey);
  }

  /** Inserting votes of 1 or -1 on existing answers keeps the database consistent. */
  lemma AddAnswerVotesConsistent(s: Store, votes: seq<Like>)
    requires Consistent(s)
    requires forall l :: l in votes ==> IsLikeValue(l.value) && l.item in Keys(s.answers, AnswerId)
    ensures Consistent(AddAnswerVotes(s, votes))
  {
    InsertOrIgnoreUnique(s.answerLikes, votes, LikeKey);
    InsertOrIgnoreRows(s.answerLikes, votes, LikeKey);
  }

  /** The question rating update keeps the database consistent: it changes no id. */
  lemma RerateQuestionsConsistent(s: Store, ids: seq<nat>)
    requires Consistent(s)
    ensures Consistent(RerateQuestionsIn(s, ids))
  {
    var r := RerateQuestions(s.questions, ids, s.questionLikes);
    RerateQuestionsSpec(s.questions, ids, s.questionLikes);
    assert forall i :: 0 <= i < |r| ==> r[i].id == s.questions[i].id;
    assert Keys(r, QuestionId) == Keys(s.questions, QuestionId);
    forall q | q in r
      ensures q.id < s.nextQuestionId && |q.title| <= TitleMaxLength
    {
      var i :| 0 <= i < |r| && r[i] == q;
      assert s.questions[i] in s.questions;
    }
  }

  /** The answer rating update keeps the database consistent: it changes no id and no question. */
  lemma RerateAnswersConsistent(s: Store, ids: seq<nat>)
    requires Consistent(s)
    ensures Consistent(RerateAnswersIn(s, ids))
  {
    var r := RerateAnswers(s.answers, ids, s.answerLikes);
    RerateAnswersSpec(s.answers, ids, s.answerLikes);
    assert forall i :: 0 <= i < |r| ==> r[i].id == s.answers[i].id;
    assert Keys(r, AnswerId) == Keys(s.answers, AnswerId);
    forall a | a in r ensures a.id < s.nextAnswerId && a.question in Keys(s.questions, QuestionId) {
      var i :| 0 <= i < |r| && r[i] == a;
      assert s.answers[i] in s.answers;
    }
  }

  /** The first half of a run keeps the database consistent, and every new question id is then in the table. */
  lemma AfterQuestionsConsistent(s: Store, ratio: nat, d: Draws, now: int)
    requires Consistent(s) && Shaped(d, ratio)
    requires forall n :: n in d.tagNames ==> |n| <= TagNameMaxLength
    requires TitlesFit(d.questions)
    ensures Consistent(AfterQuestions(s, ratio, d, now))
    ensures forall x :: x in NewestFirst(s.nextQuestionId, 10 * ratio) ==>
      x in Keys(AfterQuestions(s, ratio, d, now).questions, QuestionId)
  {
    var users := AddUsers(s, ratio);
    AddUsersConsistent(s, ratio);
    var tagged := AddTags(users, d.tagNames);
    AddTagsConsistent(users, d.tagNames);
    var posted := AddQuestions(tagged, NewestFirst(s.nextUserId, ratio), d.questions, now);
    AddQuestionsConsistent(tagged, NewestFirst(s.nextUserId, ratio), d.questions, now);
    var ids := NewestFirst(s.nextQuestionId, 10 * ratio);
    var allTags := AllTags(posted.tags, ratio);
    NewestFirstIds(s.nextQuestionId, 10 * ratio);
    FreshKeysPresent(posted.questions, |s.questions|, s.nextQuestionId, QuestionId);
    TagLinksFrom(ids, allTags, d.tagging);
    KeysPrefix(allTags, posted.tags, TagId);
    AddLinksConsistent(posted, TagLinks(ids, allTags, d.tagging));
  }

  /** The answers and votes keep the database consistent when the questions exist; answer ids count up from the sequence. */
  lemma AfterAnswersConsistent(s: Store, authors: seq<nat>, questionIds: seq<nat>, d: Draws, now: int)
    requires Consistent(s) && Shaped(d, |authors|) && |questionIds| == 10 * |authors|
    requires forall q :: q in questionIds ==> q in Keys(s.questions, QuestionId)
    ensures Consistent(AfterAnswers(s, authors, questionIds, d, now))
    ensures AppendedFrom(s.answers, AfterAnswers(s, authors, questionIds, d, now).answers, s.nextAnswerId, AnswerId)
  {
    var answered := AddAnswers(s, authors, questionIds, d.answers, now);
    AddAnswersConsistent(s, authors, questionIds, d.answers, now);
    var questionVotes := VoteBatch(authors, questionIds, d.questionVotes);
    AddQuestionVotesConsistent(answered, questionVotes);
    var answerIds := NewestFirst(s.nextAnswerId, |d.answers|);
    NewestFirstIds(s.nextAnswerId, |d.answers|);
    FreshKeysPresent(answered.answers, |s.answers|, s.nextAnswerId, AnswerId);
    AddAnswerVotesConsistent(AddQuestionVotes(answered, questionVotes), VoteBatch(authors, answerIds, d.answerVotes));
  }

  /** A successful run keeps every constraint and foreign key of the database. */
  lemma AfterFillConsistent(s: Store, ratio: nat, d: Draws, now: int)
    requires Consistent(s) && Shaped(d, ratio)
    requires forall n :: n in d.tagNames ==> |n| <= TagNameMaxLength
    requires TitlesFit(d.questions)
    ensures Consistent(AfterFill(s, ratio, d, now))
  {
    var questionIds := NewestFirst(s.nextQuestionId, 10 * ratio);
    var posted := AfterQuestions(s, ratio, d, now);
    AfterQuestionsConsistent(s, ratio, d, now);
    var filled := AfterAnswers(posted, NewestFirst(s.nextUserId, ratio), questionIds, d, now);
    AfterAnswersConsistent(posted, NewestFirst(s.nextUserId, ratio), questionIds, d, now);
    RerateQuestionsConsistent(filled, questionIds);
    RerateAnswersConsistent(RerateQuestionsIn(filled, questionIds), NewestFirst(s.nextAnswerId, 100 * ratio));
  }

  /** After the first half of a run every new question has its tags and is written by a new user. */
  lemma AfterQuestionsTagged(s: Store, ratio: nat, d: Draws, now: int)
    requires Consistent(s) && Shaped(d, ratio)
    requires forall n :: n in d.tagNames ==> |n| <= TagNameMaxLength
    ensures var f := AfterQuestions(s, ratio, d, now);
      && AppendedFrom(s.questions, f.questions, s.nextQuestionId, QuestionId)
      && NewQuestionsTagged(s.questions, f.questions, f.questionTags, Min(ratio, |f.tags|))
      && (forall i :: |s.questions| <= i < |f.questions| ==> s.nextUserId <= f.questions[i].author < s.nextUserId + ratio)
  {
    var authors := NewestFirst(s.nextUserId, ratio);
    var tagged := AddTags(AddUsers(s, ratio), d.tagNames);
    TagBatchInsert(s.tags, s.nextTagId, d.tagNames);
    var posted := AddQuestions(tagged, authors, d.questions, now);
    QuestionsAppended(tagged, authors, d.questions, now);
    var allTags := AllTags(posted.tags, ratio);
    UniqueKeysPrefix(allTags, posted.tags, TagId);
    LinksPrecede(s.questionTags, s.questions, s.nextQuestionId);
    var through := TagLinks(NewestFirst(s.nextQuestionId, 10 * ratio), allTags, d.tagging);
    TagsOfNewQuestions(s.questionTags, allTags, NewestFirst(s.nextQuestionId, 10 * ratio), d.tagging, s.nextQuestionId);
    TaggedByIds(s.questions, posted.questions, InsertOrIgnore(s.questionTags, through, LinkKey), |allTags|, s.nextQuestionId);
    NewestFirstIds(s.nextUserId, ratio);
  }

  /** After a run the new questions carry their net votes, have their tags, and are written by the new users. */
  lemma AfterFillQuestions(s: Store, ratio: nat, d: Draws, now: int)
    requires Consistent(s) && Shaped(d, ratio)
    requires forall n :: n in d.tagNames ==> |n| <= TagNameMaxLength
    requires TitlesFit(d.questions)
    ensures var f := AfterFill(s, ratio, d, now);
      && QuestionsSettled(s.questions, f.questions, f.questionLikes, 10 * ratio)
      && NewQuestionsTagged(s.questions, f.questions, f.questionTags, Min(ratio, |f.tags|))
      && (forall i :: |s.questions| <= i < |f.questions| ==> s.nextUserId <= f.questions[i].author < s.nextUserId + ratio)
  {
    var ids := NewestFirst(s.nextQuestionId, 10 * ratio);
    var linked := AfterQuestions(s, ratio, d, now);
    AfterQuestionsTagged(s, ratio, d, now);
    AfterQuestionsConsistent(s, ratio, d, now);
    var filled := AfterAnswers(linked, NewestFirst(s.nextUserId, ratio), ids, d, now);
    AfterAnswersConsistent(linked, NewestFirst(s.nextUserId, ratio), ids, d, now);
    RerateNewQuestions(s.questions, filled.questions, ids, filled.questionLikes, s.nextQuestionId, filled.questionTags,
                       Min(ratio, |filled.tags|));
    RerateQuestionsSpec(filled.questions, ids, filled.questionLikes);
  }

  /** After a run the new answers carry their net votes and are written by the new users on the new questions. */
  lemma AfterFillAnswers(s: Store, ratio: nat, d: Draws, now: int)
    requires Consistent(s) && Shaped(d, ratio)
    requires forall n :: n in d.tagNames ==> |n| <= TagNameMaxLength
    requires TitlesFit(d.questions)
    ensures var f := AfterFill(s, ratio, d, now);
      && AnswersSettled(s.answers, f.answers, f.answerLikes, 100 * ratio)
      && (forall i :: |s.answers| <= i < |f.answers| ==>
            && s.nextUserId <= f.answers[i].author < s.nextUserId + ratio
            && s.nextQuestionId <= f.answers[i].question < s.nextQuestionId + 10 * ratio)
  {
    var authors := NewestFirst(s.nextUserId, ratio);
    var ids := NewestFirst(s.nextQuestionId, 10 * ratio);
    var posted := AfterQuestions(s, ratio, d, now);
    AfterQuestionsConsistent(s, ratio, d, now);
    var filled := AfterAnswers(posted, authors, ids, d, now);
    AfterAnswersConsistent(posted, authors, ids, d, now);
    var answerIds := NewestFirst(s.nextAnswerId, 100 * ratio);
    RerateNewAnswers(s.answers, filled.answers, answerIds, filled.answerLikes, s.nextAnswerId);
    NewestFirstIds(s.nextUserId, ratio);
    NewestFirstIds(s.nextQuestionId, 10 * ratio);
    RerateAnswersSpec(filled.answers, answerIds, filled.answerLikes);
  }

  /** A run adds `ratio` users and the drawn tag names, and removes or changes no link or vote. */
  lemma AfterFillKeeps(s: Store, ratio: nat, d: Draws, now: int)
    requires Shaped(d, ratio)
    ensures var f := AfterFill(s, ratio, d, now);
      && |f.users| == |s.users| + ratio
      && Keys(f.tags, TagName) == Keys(s.tags, TagName) + (set n | n in d.tagNames)
      && s.questionTags <= f.questionTags
      && s.questionLikes <= f.questionLikes
      && s.answerLikes <= f.answerLikes
  {
    TagNamesInserted(s.tags, s.nextTagId, d.tagNames);
  }

  /** Everything a successful run promises, from a consistent database. */
  lemma AfterFillOutcome(s: Store, ratio: nat, d: Draws, now: int)
    requires Consistent(s) && Shaped(d, ratio)
    requires forall n :: n in d.tagNames ==> |n| <= TagNameMaxLength
    requires TitlesFit(d.questions)
    ensures FillOutcome(s, AfterFill(s, ratio, d, now), ratio, d)
  {
    AfterFillQuestions(s, ratio, d, now);
    AfterFillAnswers(s, ratio, d, now);
    AfterFillKeeps(s, ratio, d, now);
  }

  /**
   * What a rolled-back run leaves behind: every table as it was, while the
   * user and tag id sequences keep the values that the inserts before the
   * refused one took, since sequences are not transactional.
   */
  function RolledBack(s: Store, usersTaken: nat, tagsTaken: nat): (r: Store)
    ensures r.users == s.users && r.tags == s.tags && r.questions == s.questions
    ensures r.questionTags == s.questionTags && r.answers == s.answers
    ensures r.questionLikes == s.questionLikes && r.answerLikes == s.answerLikes
    ensures r.nextUserId == s.nextUserId + usersTaken && r.nextTagId == s.nextTagId + tagsTaken
    ensures r.nextQuestionId == s.nextQuestionId && r.nextAnswerId == s.nextAnswerId
  {
    s.(nextUserId := s.nextUserId + usersTaken, nextTagId := s.nextTagId + tagsTaken)
  }

  /** A rollback keeps the database consistent: ids taken but not used only leave gaps. */
  lemma RolledBackConsistent(s: Store, usersTaken: nat, tagsTaken: nat)
    requires Consistent(s)
    ensures Consistent(RolledBack(s, usersTaken, tagsTaken))
  {
    var r := RolledBack(s, usersTaken, tagsTaken);
    assert forall u :: u in r.users ==> u < r.nextUserId;
    assert forall t :: t in r.tags ==> t.id < r.nextTagId;
  }

  /**
   * The database the command writes to: one sequence per table in primary
   * key order, and the next value of each id sequence.
   */
  class Database {
    var users: seq<nat>
    var tags: seq<Tag>
    var questions: seq<Question>
    var questionTags: seq<QuestionTag>
    var answers: seq<Answer>
    var questionLikes: seq<Like>
    var answerLikes: seq<Like>
    var nextUserId: nat
    var nextTagId: nat
    var nextQuestionId: nat
    var nextAnswerId: nat

    /** The tables as a value. */
    function Contents(): Store
      reads this
    {
      Store(users, tags, questions, questionTags, answers, questionLikes, answerLikes,
            nextUserId, nextTagId, nextQuestionId, nextAnswerId)
    }

    ghost predicate Valid()
      reads this
    {
      Consistent(Contents())
    }

    /** An empty database; every id sequence starts at 1. */
    constructor ()
      ensures Contents() == EmptyStore
      ensures Valid()
    {
      users, tags, questions, questionTags := [], [], [], [];
      answers, questionLikes, answerLikes := [], [], [];
      nextUserId, nextTagId, nextQuestionId, nextAnswerId := 1, 1, 1, 1;
    }

    /** `User.objects.bulk_create(users)`, then the `n` newest ids, newest first. */
    method CreateUsers(n: nat) returns (newest: seq<nat>)
      requires Valid()
      modifies this`users, this`nextUserId
      ensures Valid()
      ensures Contents() == AddUsers(old(Contents()), n)
      ensures newest == NewestFirst(old(nextUserId), n)
    {
      users := users + FreshIds(nextUserId, n);
      newest := NewestFirst(nextUserId, n);
      nextUserId := nextUserId + n;
      AddUsersConsistent(old(Contents()), n);
    }

    /** The tag loop and its `bulk_create(..., ignore_conflicts=True)`. */
    method InsertTags(names: seq<string>)
      requires Valid()
      requires forall n :: n in names ==> |n| <= TagNameMaxLength
      modifies this`tags, this`nextTagId
      ensures Valid()
      ensures Contents() == AddTags(old(Contents()), names)
    {
      tags := InsertOrIgnore(tags, TagBatch(nextTagId, names), TagName);
      nextTagId := nextTagId + |names|;
      AddTagsConsistent(old(Contents()), names);
    }

    /** The question loop and its `bulk_create`, then the new ids, newest first. */
    method CreateQuestions(authors: seq<nat>, draws: seq<QuestionDraw>, now: int) returns (newest: seq<nat>)
      requires Valid()
      requires draws != [] ==> authors != []
      requires TitlesFit(draws)
      modifies this`questions, this`nextQuestionId
      ensures Valid()
      ensures Contents() == AddQuestions(old(Contents()), authors, draws, now)
      ensures newest == NewestFirst(old(nextQuestionId), |draws|)
      ensures forall x :: x in newest ==> x in Keys(questions, QuestionId)
    {
      var batch := BuildQuestions(nextQuestionId, authors, draws, now);
      questions := questions + batch;
      newest := NewestFirst(nextQuestionId, |draws|);
      nextQuestionId := nextQuestionId + |draws|;
      AddQuestionsConsistent(old(Contents()), authors, draws, now);
      NewestFirstIds(old(nextQuestionId), |draws|);
      FreshKeysPresent(questions, |old(questions)|, old(nextQuestionId), QuestionId);
    }

    /** `all_tags`, the loop over `new_questions` and the `QuestionTag` insert. */
    method TagQuestions(ratio: nat, questionIds: seq<nat>, draws: seq<TagDraw>)
      requires Valid()
      requires |draws| == |questionIds|
      requires forall q :: q in questionIds ==> q in Keys(questions, QuestionId)
      modifies this`questionTags
      ensures Valid()
      ensures Contents() == AddLinks(old(Contents()), TagLinks(questionIds, AllTags(tags, ratio), draws))
    {
      var allTags := AllTags(tags, ratio);
      var through := BuildTagLinks(questionIds, allTags, draws);
      questionTags := InsertOrIgnore(questionTags, through, LinkKey);
      TagLinksFrom(questionIds, allTags, draws);
      KeysPrefix(allTags, tags, TagId);
      AddLinksConsistent(old(Contents()), through);
    }

    /** The answer loop and its `bulk_create`, then the new ids, newest first. */
    method CreateAnswers(authors: seq<nat>, questionIds: seq<nat>, draws: seq<AnswerDraw>, now: int)
      returns (newest: seq<nat>)
      requires Valid()
      requires draws != [] ==> authors != [] && questionIds != []
      requires forall q :: q in questionIds ==> q in Keys(questions, QuestionId)
      modifies this`answers, this`nextAnswerId
      ensures Valid()
      ensures Contents() == AddAnswers(old(Contents()), authors, questionIds, draws, now)
      ensures newest == NewestFirst(old(nextAnswerId), |draws|)
      ensures forall x :: x in newest ==> x in Keys(answers, AnswerId)
    {
      var batch := BuildAnswers(nextAnswerId, authors, questionIds, draws, now);
      answers := answers + batch;
      newest := NewestFirst(nextAnswerId, |draws|);
      nextAnswerId := nextAnswerId + |draws|;
      AddAnswersConsistent(old(Contents()), authors, questionIds, draws, now);
      NewestFirstIds(old(nextAnswerId), |draws|);
      FreshKeysPresent(answers, |old(answers)|, old(nextAnswerId), AnswerId);
    }

    /** The question vote loop and its `bulk_create(..., ignore_conflicts=True)`. */
    method VoteOnQuestions(voters: seq<nat>, questionIds: seq<nat>, draws: seq<VoteDraw>)
      requires Valid()
      requires draws != [] ==> voters != [] && questionIds != []
      requires forall q :: q in questionIds ==> q in Keys(questions, QuestionId)
      modifies this`questionLikes
      ensures Valid()
      ensures Contents() == AddQuestionVotes(old(Contents()), VoteBatch(voters, questionIds, draws))
    {
      var votes := BuildVotes(voters, questionIds, draws);
      questionLikes := InsertOrIgnore(questionLikes, votes, LikeKey);
      AddQuestionVotesConsistent(old(Contents()), votes);
    }

    /** The answer vote loop and its `bulk_create(..., ignore_conflicts=True)`. */
    method VoteOnAnswers(voters: seq<nat>, answerIds: seq<nat>, draws: seq<VoteDraw>)
      requires Valid()
      requires draws != [] ==> voters != [] && answerIds != []
      requires forall a :: a in answerIds ==> a in Keys(answers, AnswerId)
      modifies this`answerLikes
      ensures Valid()
      ensures Contents() == AddAnswerVotes(old(Contents()), VoteBatch(voters, answerIds, draws))
    {
      var votes := BuildVotes(voters, answerIds, draws);
      answerLikes := InsertOrIgnore(answerLikes, votes, LikeKey);
      AddAnswerVotesConsistent(old(Contents()), votes);
    }

    /** The rating update over the new questions. */
    method RecomputeQuestionRatings(ids: seq<nat>)
      requires Valid()
      modifies this`questions
      ensures Valid()
      ensures Contents() == RerateQuestionsIn(old(Contents()), ids)
    {
      questions := RerateQuestions(questions, ids, questionLikes);
      RerateQuestionsConsistent(old(Contents()), ids);
    }

    /** The rating update over the new answers. */
    method RecomputeAnswerRatings(ids: seq<nat>)
      requires Valid()
      modifies this`answers
      ensures Valid()
      ensures Contents() == RerateAnswersIn(old(Contents()), ids)
    {
      answers := RerateAnswers(answers, ids, answerLikes);
      RerateAnswersConsistent(old(Contents()), ids);
    }

    /** Users, tags, questions and the question-tag links: `handle` up to the `QuestionTag` insert. */
    method PostQuestions(ratio: nat, d: Draws, now: int) returns (authors: seq<nat>, questionIds: seq<nat>)
      requires Valid() && Shaped(d, ratio)
      requires forall n :: n in d.tagNames ==> |n| <= TagNameMaxLength
      requires TitlesFit(d.questions)
      modifies this`users, this`nextUserId, this`tags, this`nextTagId
      modifies this`questions, this`nextQuestionId, this`questionTags
      ensures Valid()
      ensures Contents() == AfterQuestions(old(Contents()), ratio, d, now)
      ensures authors == NewestFirst(old(nextUserId), ratio)
      ensures questionIds == NewestFirst(old(nextQuestionId), 10 * ratio)
      ensures forall q :: q in questionIds ==> q in Keys(questions, QuestionId)
    {
      authors := CreateUsers(ratio);
      InsertTags(d.tagNames);
      questionIds := CreateQuestions(authors, d.questions, now);
      TagQuestions(ratio, questionIds, d.tagging);
    }

    /** Answers and both kinds of votes: `handle` between the `QuestionTag` insert and the rating updates. */
    method PostAnswersAndVotes(authors: seq<nat>, questionIds: seq<nat>, d: Draws, now: int) returns (answerIds: seq<nat>)
      requires Valid() && Shaped(d, |authors|) && |questionIds| == 10 * |authors|
      requires forall q :: q in questionIds ==> q in Keys(questions, QuestionId)
      modifies this`answers, this`nextAnswerId, this`questionLikes, this`answerLikes
      ensures Valid()
      ensures Contents() == AfterAnswers(old(Contents()), authors, questionIds, d, now)
      ensures answerIds == NewestFirst(old(nextAnswerId), |d.answers|)
    {
      answerIds := CreateAnswers(authors, questionIds, d.answers, now);
      VoteOnQuestions(authors, questionIds, d.questionVotes);
      VoteOnAnswers(authors, answerIds, d.answerVotes);
    }

    /**
     * The end of a failed `transaction.atomic` block: the rows are gone, the
     * sequence values the earlier inserts took are not.
     */
    method RollBack(usersTaken: nat, tagsTaken: nat)
      requires Valid()
      modifies this`nextUserId, this`nextTagId
      ensures Valid()
      ensures Contents() == RolledBack(old(Contents()), usersTaken, tagsTaken)
    {
      nextUserId := nextUserId + usersTaken;
      nextTagId := nextTagId + tagsTaken;
      RolledBackConsistent(old(Contents()), usersTaken, tagsTaken);
    }

    /**
     * `handle(ratio=...)` inside `transaction.atomic`: on failure no row is
     * kept, and only the id sequences that the inserts before the refused
     * one used move on; on success the database is the one `AfterFill` describes,
     * still consistent, with everything `FillOutcome` promises. Success
     * presumes that every new user id also names a profile, since the
     * author columns refer to `Profile`; that foreign key is not modelled.
     */
    method Handle(ratio: int, d: Draws, now: int) returns (outcome: Outcome)
      requires Valid()
      requires ratio >= 0 ==> Shaped(d, ratio)
      modifies this
      ensures Valid()
      ensures outcome == NegativeRatio <==> ratio < 0
      ensures outcome == TagNameTooLong <==> 0 <= ratio && !TagNamesFit(d.tagNames)
      ensures outcome == TitleTooLong <==> 0 <= ratio && TagNamesFit(d.tagNames) && !TitlesFit(d.questions)
      ensures outcome == NegativeRatio ==> unchanged(this)
      ensures outcome == TagNameTooLong ==> Contents() == RolledBack(old(Contents()), ratio, 0)
      ensures outcome == TitleTooLong ==> Contents() == RolledBack(old(Contents()), ratio, |d.tagNames|)
      ensures outcome == Filled ==> ratio >= 0 && Contents() == AfterFill(old(Contents()), ratio, d, now)
      ensures outcome == Filled ==> ratio >= 0 && FillOutcome(old(Contents()), Contents(), ratio, d)
    {
      if ratio < 0 {
        return NegativeRatio;
      }
      if !TagNamesFit(d.tagNames) {
        // the users were inserted before the refused tag insert
        RollBack(ratio, 0);
        return TagNameTooLong;
      }
      if !TitlesFit(d.questions) {
        // the users and tags were inserted before the refused question insert
        RollBack(ratio, |d.tagNames|);
        return TitleTooLong;
      }
      var authors, questionIds := PostQuestions(ratio, d, now);
      var answerIds := PostAnswersAndVotes(authors, questionIds, d, now);
      RecomputeQuestionRatings(questionIds);
      RecomputeAnswerRatings(answerIds);
      AfterFillOutcome(old(Contents()), ratio, d, now);
      outcome := Filled;
    }
  }

  /** Updating the new questions' ratings settles them, keeps the old ones, and keeps every id and so every question's tags. */
  lemma RerateNewQuestions(before: seq<Question>, mid: seq<Question>, ids: seq<nat>, likes: seq<Like>, start: nat,
                           links: seq<QuestionTag>, available: nat)
    requires forall l :: l in likes ==> IsLikeValue(l.value)
    requires AppendedFrom(before, mid, start, QuestionId) && |mid| == |before| + |ids|
    requires ids == NewestFirst(start, |ids|)
    requires NewQuestionsTagged(before, mid, links, available)
    ensures QuestionsSettled(before, RerateQuestions(mid, ids, likes), likes, |ids|)
    ensures NewQuestionsTagged(before, RerateQuestions(mid, ids, likes), links, available)
  {
    RerateQuestionsSpec(mid, ids, likes);
    NewestFirstIds(start, |ids|);
    var r := RerateQuestions(mid, ids, likes);
    forall i | 0 <= i < |before| ensures r[i] == before[i] {
      assert mid[i] == before[i];
    }
    forall i | |before| <= i < |r| ensures r[i].rating == NetVotes(likes, r[i].id) {
      assert mid[i].id in ids;
    }
  }

  /** The same for answers; their question never changes. */
  lemma RerateNewAnswers(before: seq<Answer>, mid: seq<Answer>, ids: seq<nat>, likes: seq<Like>, start: nat)
    requires forall l :: l in likes ==> IsLikeValue(l.value)
    requires AppendedFrom(before, mid, start, AnswerId) && |mid| == |before| + |ids|
    requires ids == NewestFirst(start, |ids|)
    ensures AnswersSettled(before, RerateAnswers(mid, ids, likes), likes, |ids|)
    ensures forall i :: 0 <= i < |mid| ==> RerateAnswers(mid, ids, likes)[i].question == mid[i].question
  {
    RerateAnswersSpec(mid, ids, likes);
    NewestFirstIds(start, |ids|);
    var r := RerateAnswers(mid, ids, likes);
    forall i | 0 <= i < |before| ensures r[i] == before[i] {
      assert mid[i] == before[i];
    }
    forall i | |before| <= i < |r| ensures r[i].rating == NetVotes(likes, r[i].id) {
      assert mid[i].id in ids;
    }
  }

  /** Rows appended with consecutive ids from `start` make those ids present. */
  lemma FreshKeysPresent<R>(rows: seq<R>, from: nat, start: nat, key: R -> nat)
    requires from <= |rows|
    requires forall i :: from <= i < |rows| ==> key(rows[i]) == start + (i - from)
    ensures forall x :: start <= x < start + (|rows| - from) ==> x in Keys(rows, key)
  {
    forall x | start <= x < start + (|rows| - from) ensures x in Keys(rows, key) {
      assert key(rows[from + (x - start)]) == x;
    }
  }

  /** Links whose questions all exist only name questions below the next question id. */
  lemma LinksPrecede(links: seq<QuestionTag>, questions: seq<Question>, next: nat)
    requires forall q :: q in questions ==> q.id < next
    requires forall l :: l in links ==> l.question in Keys(questions, QuestionId)
    ensures forall l :: l in links ==> l.question < next
  {
    forall l | l in links ensures l.question < next {
      var j :| 0 <= j < |questions| && questions[j].id == l.question;
      assert questions[j] in questions;
    }
  }

  /** Inserting the drawn tag names leaves exactly the old names and the drawn ones in the table. */
  lemma TagNamesInserted(tags: seq<Tag>, start: nat, names: seq<string>)
    ensures Keys(InsertOrIgnore(tags, TagBatch(start, names), TagName), TagName)
      == Keys(tags, TagName) + (set n | n in names)
  {
    var batch := TagBatch(start, names);
    forall n | n in names ensures n in Keys(batch, TagName) {
      var i :| 0 <= i < |names| && names[i] == n;
      assert TagName(batch[i]) == n;
    }
    InsertOrIgnoreKeys(tags, batch, TagName);
  }

  /** A link table that knows only questions below `start` links no tag to a newer question. */
  lemma NoLinksYet(links: seq<QuestionTag>, start: nat, q: nat)
    requires forall l :: l in links ==> l.question < start
    requires start <= q
    ensures LinkedTags(links, q) == {}
  {
    forall l | l in Keys(links, LinkKey) ensures l.question != q {
      var j :| 0 <= j < |links| && LinkKey(links[j]) == l;
      assert links[j] in links;
    }
  }

  /** In `through_objects`, each new question id has between 1 and min(4, |all_tags|) distinct tags. */
  lemma NewQuestionTagCount(allTags: seq<Tag>, questionIds: seq<nat>, draws: seq<TagDraw>, start: nat, q: nat)
    requires |draws| == |questionIds| && start <= q < start + |questionIds|
    requires UniqueKeys(allTags, TagId)
    requires questionIds == NewestFirst(start, |questionIds|)
    ensures TagCountInRange(LinkedTags(TagLinks(questionIds, allTags, draws), q), |allTags|)
  {
    var k := |questionIds| - 1 - (q - start);
    assert questionIds[k] == q;
    NewestFirstIds(start, |questionIds|);
    TagLinksCount(questionIds, allTags, draws, k);
  }

  /** One new question's tags after `through_objects` is inserted into a link table that knows only older questions. */
  lemma TagsOfNewQuestion(links: seq<QuestionTag>, allTags: seq<Tag>, questionIds: seq<nat>, draws: seq<TagDraw>,
                          start: nat, q: nat)
    requires |draws| == |questionIds| && start <= q < start + |questionIds|
    requires UniqueKeys(allTags, TagId)
    requires questionIds == NewestFirst(start, |questionIds|)
    requires forall l :: l in links ==> l.question < start
    ensures TagCountInRange(LinkedTags(InsertOrIgnore(links, TagLinks(questionIds, allTags, draws), LinkKey), q), |allTags|)
  {
    var through := TagLinks(questionIds, allTags, draws);
    NoLinksYet(links, start, q);
    NewQuestionTagCount(allTags, questionIds, draws, start, q);
    LinkedTagsInsert(links, through, q);
    assert LinkedTags(links, q) + LinkedTags(through, q) == LinkedTags(through, q);
  }

  /** Every new question id's tags after `through_objects` is inserted. */
  lemma TagsOfNewQuestions(links: seq<QuestionTag>, allTags: seq<Tag>, questionIds: seq<nat>, draws: seq<TagDraw>, start: nat)
    requires |draws| == |questionIds|
    requires UniqueKeys(allTags, TagId)
    requires questionIds == NewestFirst(start, |questionIds|)
    requires forall l :: l in links ==> l.question < start
    ensures forall q :: start <= q < start + |questionIds| ==>
      TagCountInRange(LinkedTags(InsertOrIgnore(links, TagLinks(questionIds, allTags, draws), LinkKey), q), |allTags|)
  {
    forall q | start <= q < start + |questionIds|
      ensures TagCountInRange(LinkedTags(InsertOrIgnore(links, TagLinks(questionIds, allTags, draws), LinkKey), q), |allTags|)
    {
      TagsOfNewQuestion(links, allTags, questionIds, draws, start, q);
    }
  }

  /** A tag count that holds for every fresh id holds for every appended row. */
  lemma TaggedByIds(before: seq<Question>, after: seq<Question>, links: seq<QuestionTag>, available: nat, start: nat)
    requires AppendedFrom(before, after, start, QuestionId)
    requires forall q :: start <= q < start + (|after| - |before|) ==> TagCountInRange(LinkedTags(links, q), available)
    ensures NewQuestionsTagged(before, after, links, available)
  {
    forall i | |before| <= i < |after| ensures TagCountInRange(LinkedTags(links, after[i].id), available) {
      assert QuestionId(after[i]) == start + (i - |before|);
    }
  }
}
