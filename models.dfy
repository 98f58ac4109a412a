/**
 * The forum's tables (questions/models.py): the entities, the constraints
 * their field declarations impose, and the manager queries `new`, `hot`,
 * `popular` and `best`.
 */
module Models {
  import opened Common
  import opened Ordering
  import Tables

  /** `Tag.name` is a `CharField(max_length=50, unique=True)`. */
  const TagNameMaxLength: nat := 50

  /** `Question.title` is a `CharField(max_length=255)`. */
  const TitleMaxLength: nat := 255

  /** `popular()` keeps the first 10 tags, `best()` the first 5 profiles. */
  const PopularTagCount: nat := 10
  const BestProfileCount: nat := 5

  datatype Profile = Profile(id: nat, user: nat)

  datatype Tag = Tag(id: nat, name: string)

  datatype Question = Question(id: nat, author: nat, title: string, text: string, createdAt: int, rating: int)

  datatype Answer = Answer(id: nat, author: nat, question: nat, text: string, createdAt: int, isCorrect: bool, rating: int)

  /**
   * A row of QuestionLike (`item` is the question id) or of AnswerLike
   * (`item` is the answer id); both tables have the same shape.
   */
  datatype Like = Like(user: nat, item: nat, value: int)

  /** A row of the many-to-many table behind `Question.tags`. */
  datatype QuestionTag = QuestionTag(question: nat, tag: nat)

  function TagId(t: Tag): nat { t.id }
  function TagName(t: Tag): string { t.name }
  function QuestionId(q: Question): nat { q.id }
  function AnswerId(a: Answer): nat { a.id }
  function QuestionRating(q: Question): int { q.rating }
  function QuestionCreatedAt(q: Question): int { q.createdAt }

  /** The `unique_together = ('user', 'question')` / `('user', 'answer')` key. */
  function LikeKey(l: Like): (nat, nat) { (l.user, l.item) }

  /** A link row is its own key: a question is linked to a tag at most once. */
  function LinkKey(l: QuestionTag): QuestionTag { l }

  /** `value` has choices 1 (Like) and -1 (Dislike). */
  predicate IsLikeValue(v: int)
  {
    v == 1 || v == -1
  }

  /** A like table as its declaration constrains it. */
  predicate ValidLikes(likes: seq<Like>)
  {
    && (forall l :: l in likes ==> IsLikeValue(l.value))
    && Tables.UniqueKeys(likes, LikeKey)
  }

  /** A tag table as its declaration constrains it. */
  predicate ValidTags(tags: seq<Tag>)
  {
    && (forall t :: t in tags ==> |t.name| <= TagNameMaxLength)
    && Tables.UniqueKeys(tags, TagName)
  }

  /** A question as `Question(...)` builds it: `rating` takes its default. */
  function NewQuestion(id: nat, author: nat, title: string, text: string, createdAt: int): (q: Question)
    ensures q.rating == 0
    ensures q.id == id && q.author == author && q.createdAt == createdAt
    ensures q.title == title && q.text == text
  {
    Question(id, author, title, text, createdAt, 0)
  }

  /** An answer as `Answer(...)` builds it: `is_correct` and `rating` take their defaults. */
  function NewAnswer(id: nat, author: nat, question: nat, text: string, createdAt: int): (a: Answer)
    ensures a.rating == 0 && !a.isCorrect
    ensures a.id == id && a.author == author && a.question == question
  {
    Answer(id, author, question, text, createdAt, false, 0)
  }

  /** `QuestionManager.new()`: every question, newest first. */
  function New(questions: seq<Question>): (r: seq<Question>)
    ensures multiset(r) == multiset(questions)
    ensures forall i, j :: 0 <= i < j < |r| ==> r[i].createdAt >= r[j].createdAt
  {
    var sorted := SortDesc(questions, QuestionCreatedAt);
    assert SortedDesc(sorted, QuestionCreatedAt);
    sorted
  }

  /** `QuestionManager.hot()`: every question, highest rating first. */
  function Hot(questions: seq<Question>): (r: seq<Question>)
    ensures multiset(r) == multiset(questions)
    ensures forall i, j :: 0 <= i < j < |r| ==> r[i].rating >= r[j].rating
  {
    var sorted := SortDesc(questions, QuestionRating);
    assert SortedDesc(sorted, QuestionRating);
    sorted
  }

  /** `Count('question')` for one tag: the link rows that point at it. */
  function NumQuestions(links: seq<QuestionTag>, tag: nat): (n: nat)
    ensures n <= |links|
    ensures n == 0 <==> forall l :: l in links ==> l.tag != tag
  {
    if links == [] then 0
    else
      assert forall l :: l in links <==> l == links[0] || l in links[1..];
      (if links[0].tag == tag then 1 else 0) + NumQuestions(links[1..], tag)
  }

  /** `Count('answer')` for one profile: the answers it authored. */
  function NumAnswers(answers: seq<Answer>, profile: nat): (n: nat)
    ensures n <= |answers|
    ensures n == 0 <==> forall a :: a in answers ==> a.author != profile
  {
    if answers == [] then 0
    else
      assert forall a :: a in answers <==> a == answers[0] || a in answers[1..];
      (if answers[0].author == profile then 1 else 0) + NumAnswers(answers[1..], profile)
  }

  /** The positions, offset by `lo`, of the link rows that point at `tag`. */
  ghost function TagLinkPositions(links: seq<QuestionTag>, tag: nat, lo: nat): set<nat>
  {
    set k | 0 <= k < |links| && links[k].tag == tag :: lo + k
  }

  /** Dropping the first row shifts the remaining positions by one. */
  lemma TagLinkPositionsTail(links: seq<QuestionTag>, tag: nat, lo: nat)
    requires links != []
    ensures lo !in TagLinkPositions(links[1..], tag, lo + 1)
    ensures TagLinkPositions(links, tag, lo)
         == TagLinkPositions(links[1..], tag, lo + 1) + (if links[0].tag == tag then {lo} else {})
  {
    var tail := links[1..];
    var all := TagLinkPositions(links, tag, lo);
    var rest := TagLinkPositions(tail, tag, lo + 1);
    forall x | x in rest
      ensures x in all && x != lo
    {
      var k :| 0 <= k < |tail| && tail[k].tag == tag && x == lo + 1 + k;
      assert links[k + 1] == tail[k];
    }
    forall x | x in all && x != lo
      ensures x in rest
    {
      var k :| 0 <= k < |links| && links[k].tag == tag && x == lo + k;
      assert tail[k - 1] == links[k];
    }
    assert lo in all <==> links[0].tag == tag;
  }

  lemma {:induction false} NumQuestionsFrom(links: seq<QuestionTag>, tag: nat, lo: nat)
    ensures NumQuestions(links, tag) == |TagLinkPositions(links, tag, lo)|
    decreases |links|
  {
    if links == [] {
      assert TagLinkPositions(links, tag, lo) == {};
    } else {
      NumQuestionsFrom(links[1..], tag, lo + 1);
      TagLinkPositionsTail(links, tag, lo);
    }
  }

  /** `Count('question')` is the number of link rows that point at the tag. */
  lemma NumQuestionsExact(links: seq<QuestionTag>, tag: nat)
    ensures NumQuestions(links, tag) == |set i | 0 <= i < |links| && links[i].tag == tag|
  {
    NumQuestionsFrom(links, tag, 0);
    assert TagLinkPositions(links, tag, 0) == set i | 0 <= i < |links| && links[i].tag == tag;
  }

  /** The positions, offset by `lo`, of the answers that `profile` wrote. */
  ghost function AuthoredPositions(answers: seq<Answer>, profile: nat, lo: nat): set<nat>
  {
    set k | 0 <= k < |answers| && answers[k].author == profile :: lo + k
  }

  /** Dropping the first row shifts the remaining positions by one. */
  lemma AuthoredPositionsTail(answers: seq<Answer>, profile: nat, lo: nat)
    requires answers != []
    ensures lo !in AuthoredPositions(answers[1..], profile, lo + 1)
    ensures AuthoredPositions(answers, profile, lo)
         == AuthoredPositions(answers[1..], profile, lo + 1) + (if answers[0].author == profile then {lo} else {})
  {
    var tail := answers[1..];
    var all := AuthoredPositions(answers, profile, lo);
    var rest := AuthoredPositions(tail, profile, lo + 1);
    forall x | x in rest
      ensures x in all && x != lo
    {
      var k :| 0 <= k < |tail| && tail[k].author == profile && x == lo + 1 + k;
      assert answers[k + 1] == tail[k];
    }
    forall x | x in all && x != lo
      ensures x in rest
    {
      var k :| 0 <= k < |answers| && answers[k].author == profile && x == lo + k;
      assert tail[k - 1] == answers[k];
    }
    assert lo in all <==> answers[0].author == profile;
  }

  lemma {:induction false} NumAnswersFrom(answers: seq<Answer>, profile: nat, lo: nat)
    ensures NumAnswers(answers, profile) == |AuthoredPositions(answers, profile, lo)|
    decreases |answers|
  {
    if answers == [] {
      assert AuthoredPositions(answers, profile, lo) == {};
    } else {
      NumAnswersFrom(answers[1..], profile, lo + 1);
      AuthoredPositionsTail(answers, profile, lo);
    }
  }

  /** `Count('answer')` is the number of answers the profile wrote. */
  lemma NumAnswersExact(answers: seq<Answer>, profile: nat)
    ensures NumAnswers(answers, profile) == |set i | 0 <= i < |answers| && answers[i].author == profile|
  {
    NumAnswersFrom(answers, profile, 0);
    assert AuthoredPositions(answers, profile, 0) == set i | 0 <= i < |answers| && answers[i].author == profile;
  }

  /** The annotation `num_questions=Count('question')` as a sort key. */
  function Popularity(links: seq<QuestionTag>): Tag -> int
  {
    (t: Tag) => NumQuestions(links, t.id)
  }

  /** The annotation `num_answers=Count('answer')` as a sort key. */
  function Activity(answers: seq<Answer>): Profile -> int
  {
    (p: Profile) => NumAnswers(answers, p.id)
  }

  /**
   * `TagManager.popular()`: at most 10 tags, the ones used by the most
   * questions, in non-increasing order of use.
   */
  function Popular(tags: seq<Tag>, links: seq<QuestionTag>): (r: seq<Tag>)
    ensures |r| == Min(PopularTagCount, |tags|)
    ensures multiset(r) <= multiset(tags)
    ensures SortedDesc(r, Popularity(links))
    ensures TopSelection(tags, r, Popularity(links))
  {
    TopN(tags, Popularity(links), PopularTagCount);
    Take(SortDesc(tags, Popularity(links)), PopularTagCount)
  }

  /**
   * `ProfileManager.best()`: at most 5 profiles, the ones with the most
   * answers, in non-increasing order of answers.
   */
  function Best(profiles: seq<Profile>, answers: seq<Answer>): (r: seq<Profile>)
    ensures |r| == Min(BestProfileCount, |profiles|)
    ensures multiset(r) <= multiset(profiles)
    ensures SortedDesc(r, Activity(answers))
    ensures TopSelection(profiles, r, Activity(answers))
  {
    TopN(profiles, Activity(answers), BestProfileCount);
    Take(SortDesc(profiles, Activity(answers)), BestProfileCount)
  }
}
