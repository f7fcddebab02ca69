/** The vote an automated participant casts (`ai_vote`). The two random
    draws are parameters: `below` is the outcome of `random.random() < p`
    (p is 0.5 for an Explorer and 0.7 for the Whisperer), and `pick` is the
    index `random.choice` draws from the group it is given. */
module AiAgent {
  import opened Common
  import opened Game

  /** `random.choice(xs) + 1`; `random.choice` raises on an empty list. */
  function Choice(xs: seq<nat>, pick: nat): (r: Option<int>)
    requires xs == [] || pick < |xs|
    ensures r.None? <==> xs == []
    ensures r.Some? ==> r.value - 1 in xs
  {
    if xs == [] then None else Some(xs[pick] + 1)
  }

  /** Whether the policy draws from the false echoes: an Explorer when the
      draw is not below 0.5, the Whisperer when it is below 0.7. */
  predicate PicksLie(role: Role, below: bool)
  {
    (role == Explorer && !below) || (role == Whisperer && below)
  }

  /** The draw `pick` is an index into the group the policy chooses from,
      whenever that group is not empty. */
  predicate ChoiceInRange(echoes: seq<Echo>, role: Role, below: bool, pick: nat)
  {
    var group := Indices(echoes, !PicksLie(role, below));
    group == [] || pick < |group|
  }

  /** `ai_vote(echoes, role)`; None is the IndexError `random.choice`
      raises when the chosen group is empty. */
  function AiVote(echoes: seq<Echo>, role: Role, below: bool, pick: nat): (r: Option<int>)
    requires ChoiceInRange(echoes, role, below, pick)
    ensures r.Some? ==> 1 <= r.value <= |echoes|
    ensures r.Some? ==> (echoes[r.value - 1].isTrue <==> !PicksLie(role, below))
    ensures r.None? <==> forall i :: 0 <= i < |echoes| ==> echoes[i].isTrue == PicksLie(role, below)
  {
    var trueIndices := Indices(echoes, true);
    var falseIndices := Indices(echoes, false);
    if role == Explorer then
      if below then Choice(trueIndices, pick) else Choice(falseIndices, pick)
    else
      if below then Choice(falseIndices, pick) else Choice(trueIndices, pick)
  }

  /** On an accepted triple the policy always produces a vote in 1..3, and
      that vote names the lie exactly when `PicksLie` holds. */
  lemma AiVoteOnTriple(echoes: seq<Echo>, role: Role, below: bool, pick: nat)
    requires IsTriple(echoes) && ChoiceInRange(echoes, role, below, pick)
    ensures AiVote(echoes, role, below, pick).Some?
    ensures 1 <= AiVote(echoes, role, below, pick).value <= 3
    ensures !echoes[AiVote(echoes, role, below, pick).value - 1].isTrue <==> PicksLie(role, below)
  {
    TripleShape(echoes);
    var f := Indices(echoes, false)[0];
    var t := Indices(echoes, true)[0];
    assert !echoes[f].isTrue && echoes[t].isTrue;
  }
}
