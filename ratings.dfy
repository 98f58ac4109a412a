/**
 * The cached `rating` of questions and answers (fill_db.py, "Updating
 * question ratings" and "Updating answer ratings"): for every selected row,
 * `Coalesce(Subquery(Sum('value')), 0)` over the like rows that point at it.
 */
module Ratings {
  import opened Common
  import opened Models

  /** The `value` column of the like rows that point at `item`, in table order. */
  function VoteValues(likes: seq<Like>, item: nat): seq<int>
  {
    if likes == [] then []
    else (if likes[0].item == item then [likes[0].value] else []) + VoteValues(likes[1..], item)
  }

  /** Arithmetic sum of a list of values. */
  function Total(values: seq<int>): int
  {
    if values == [] then 0 else values[0] + Total(values[1..])
  }

  /** SQL `SUM`: NULL over no rows. */
  function SqlSum(values: seq<int>): Option<int>
  {
    if values == [] then None else Some(Total(values))
  }

  /** SQL `COALESCE(v, default)`. */
  function Coalesce(v: Option<int>, default: int): int
  {
    match v
    case Some(x) => x
    case None => default
  }

  /** The rating the update writes for one item. */
  function AggregateRating(likes: seq<Like>, item: nat): (r: int)
    ensures r == Total(VoteValues(likes, item))
    ensures VoteValues(likes, item) == [] ==> r == 0
  {
    Coalesce(SqlSum(VoteValues(likes, item)), 0)
  }

  /** How many of `values` equal `v`. */
  function Occurrences(values: seq<int>, v: int): nat
  {
    if values == [] then 0 else (if values[0] == v then 1 else 0) + Occurrences(values[1..], v)
  }

  /** Likes minus dislikes: the rating judged vote by vote. */
  function NetVotes(likes: seq<Like>, item: nat): int
  {
    Occurrences(VoteValues(likes, item), 1) - Occurrences(VoteValues(likes, item), -1)
  }

  /** Every vote value is one of the declared choices, 1 or -1. */
  lemma {:induction false} VoteValuesAreChoices(likes: seq<Like>, item: nat)
    requires forall l :: l in likes ==> IsLikeValue(l.value)
    ensures forall v :: v in VoteValues(likes, item) ==> IsLikeValue(v)
  {
    if likes != [] {
      assert likes[0] in likes;
      assert forall l :: l in likes[1..] ==> l in likes;
      VoteValuesAreChoices(likes[1..], item);
    }
  }

  /** A sum of ±1 values is the count of +1 minus the count of -1, and lies within ±(number of values). */
  lemma {:induction false} TotalOfChoices(values: seq<int>)
    requires forall v :: v in values ==> IsLikeValue(v)
    ensures Total(values) == Occurrences(values, 1) - Occurrences(values, -1)
    ensures -|values| <= Total(values) <= |values|
  {
    if values != [] {
      assert values[0] in values;
      assert forall v :: v in values[1..] ==> v in values;
      TotalOfChoices(values[1..]);
    }
  }

  /**
   * The recomputed rating is likes minus dislikes; with no votes it is 0,
   * and it never exceeds the number of votes in absolute value.
   */
  lemma AggregateRatingIsNetVotes(likes: seq<Like>, item: nat)
    requires forall l :: l in likes ==> IsLikeValue(l.value)
    ensures AggregateRating(likes, item) == NetVotes(likes, item)
    ensures VoteValues(likes, item) == [] ==> AggregateRating(likes, item) == 0
    ensures -|VoteValues(likes, item)| <= AggregateRating(likes, item) <= |VoteValues(likes, item)|
  {
    VoteValuesAreChoices(likes, item);
    TotalOfChoices(VoteValues(likes, item));
  }

  /** Votes +1, -1, +1 on one question give it rating 1; a question without votes gets 0. */
  lemma AggregateRatingExample()
    ensures AggregateRating([Like(1, 7, 1), Like(2, 7, -1), Like(3, 7, 1)], 7) == 1
    ensures AggregateRating([Like(1, 7, 1)], 8) == 0
  {
    var likes := [Like(1, 7, 1), Like(2, 7, -1), Like(3, 7, 1)];
    assert VoteValues(likes[2..], 7) == [1];
    assert VoteValues(likes[1..], 7) == [-1, 1];
    assert VoteValues(likes, 7) == [1, -1, 1];
  }

  /** `Question.objects.filter(id__in=ids).update(rating=...)` */
  function RerateQuestions(questions: seq<Question>, ids: seq<nat>, likes: seq<Like>): (r: seq<Question>)
    ensures |r| == |questions|
    ensures forall i :: 0 <= i < |r| ==> r[i].id == questions[i].id
  {
    seq(|questions|, i requires 0 <= i < |questions| =>
      if questions[i].id in ids then questions[i].(rating := AggregateRating(likes, questions[i].id))
      else questions[i])
  }

  /** `Answer.objects.filter(id__in=ids).update(rating=...)` */
  function RerateAnswers(answers: seq<Answer>, ids: seq<nat>, likes: seq<Like>): (r: seq<Answer>)
    ensures |r| == |answers|
    ensures forall i :: 0 <= i < |r| ==> r[i].id == answers[i].id && r[i].question == answers[i].question
  {
    seq(|answers|, i requires 0 <= i < |answers| =>
      if answers[i].id in ids then answers[i].(rating := AggregateRating(likes, answers[i].id))
      else answers[i])
  }

  /**
   * After the update every selected question's rating is its likes minus
   * its dislikes (0 with no votes, within ±(its vote count)); every other
   * question is untouched; no field but `rating` changes.
   */
  lemma RerateQuestionsSpec(questions: seq<Question>, ids: seq<nat>, likes: seq<Like>)
    requires forall l :: l in likes ==> IsLikeValue(l.value)
    ensures var r := RerateQuestions(questions, ids, likes);
      && |r| == |questions|
      && (forall i :: 0 <= i < |r| ==> r[i] == questions[i].(rating := r[i].rating))
      && (forall i :: 0 <= i < |r| && questions[i].id !in ids ==> r[i] == questions[i])
      && (forall i :: 0 <= i < |r| && questions[i].id in ids ==>
            && r[i].rating == NetVotes(likes, r[i].id)
            && -|VoteValues(likes, r[i].id)| <= r[i].rating <= |VoteValues(likes, r[i].id)|)
  {
    forall item: nat {
      AggregateRatingIsNetVotes(likes, item);
    }
  }

  /** The same for answers. */
  lemma RerateAnswersSpec(answers: seq<Answer>, ids: seq<nat>, likes: seq<Like>)
    requires forall l :: l in likes ==> IsLikeValue(l.value)
    ensures var r := RerateAnswers(answers, ids, likes);
      && |r| == |answers|
      && (forall i :: 0 <= i < |r| ==> r[i] == answers[i].(rating := r[i].rating))
      && (forall i :: 0 <= i < |r| && answers[i].id !in ids ==> r[i] == answers[i])
      && (forall i :: 0 <= i < |r| && answers[i].id in ids ==>
            && r[i].rating == NetVotes(likes, r[i].id)
            && -|VoteValues(likes, r[i].id)| <= r[i].rating <= |VoteValues(likes, r[i].id)|)
  {
    forall item: nat {
      AggregateRatingIsNetVotes(likes, item);
    }
  }
}
