/**
 * The rows of the Questions, Options, Voters and Votes tables, whose model
 * files are not part of this model. Each operation app.js calls on them is
 * given the one meaning its use implies, and nothing more:
 *
 * - `Votes.haveAlreadyVoted(electionId, voterId)` (app.js:773, 805) holds when
 *   the ledger has a vote with that election and that voter.
 * - `Votes.createVote(e, q, o, v)` (app.js:821) appends one vote holding
 *   exactly the four values it is handed.
 * - `update*` on a fetched row sets that one column; `remove(id, parentId)`
 *   (app.js:514, 618, 691) deletes the row with that id under that parent.
 */
module Ledger {
  import opened Wrappers
  import opened Text

  datatype Question = Question(title: string, description: string, electionId: nat)

  /** A row of the Options table (an answer to one question). */
  datatype Choice = Choice(title: string, questionId: nat)

  /** A voter is registered under one election; `password` holds the hash stored for its password. */
  datatype VoterRecord = VoterRecord(voterId: string, password: string, electionId: nat)

  /**
   * A vote holds the texts `createVote` was handed. The election and the voter
   * come from the request body and may be absent from it.
   */
  datatype Vote = Vote(electionId: Option<string>, questionId: string, optionId: string, voterId: Option<string>)

  /** The vote was recorded for election `electionId` by voter `voterId` (ids compared by their text). */
  predicate CastBy(v: Vote, electionId: nat, voterId: nat) {
    v.electionId == Some(DecimalText(electionId)) && v.voterId == Some(DecimalText(voterId))
  }

  /** The assumed meaning of `Votes.haveAlreadyVoted`: election-wide, not per question. */
  predicate HaveAlreadyVoted(votes: seq<Vote>, electionId: nat, voterId: nat) {
    exists i :: 0 <= i < |votes| && CastBy(votes[i], electionId, voterId)
  }

  /** The ledger only grows, so once a voter has voted they stay voted. */
  lemma VotedStaysVoted(votes: seq<Vote>, more: seq<Vote>, electionId: nat, voterId: nat)
    requires HaveAlreadyVoted(votes, electionId, voterId)
    ensures HaveAlreadyVoted(votes + more, electionId, voterId)
  {
    var i :| 0 <= i < |votes| && CastBy(votes[i], electionId, voterId);
    assert (votes + more)[i] == votes[i];
  }

  /** Appending votes none of which is this voter's in this election leaves the answer as it was. */
  lemma {:induction false} OthersVotesChangeNothing(votes: seq<Vote>, more: seq<Vote>, electionId: nat, voterId: nat)
    requires forall k :: 0 <= k < |more| ==> !CastBy(more[k], electionId, voterId)
    ensures HaveAlreadyVoted(votes + more, electionId, voterId) == HaveAlreadyVoted(votes, electionId, voterId)
  {
    if HaveAlreadyVoted(votes + more, electionId, voterId) {
      var i :| 0 <= i < |votes + more| && CastBy((votes + more)[i], electionId, voterId);
      assert (votes + more)[i] == votes[i];
    }
    if HaveAlreadyVoted(votes, electionId, voterId) {
      VotedStaysVoted(votes, more, electionId, voterId);
    }
  }

  /** Two votes fill the same slot: same election, same question, same voter. */
  predicate SameSlot(v: Vote, w: Vote) {
    v.electionId == w.electionId && v.questionId == w.questionId && v.voterId == w.voterId
  }

  /** At most one vote per (election, question, voter). */
  predicate OneVotePerSlot(votes: seq<Vote>) {
    forall i, j :: 0 <= i < j < |votes| ==> !SameSlot(votes[i], votes[j])
  }

  /** `remove(id, parentId)`: the row goes only when it sits under that parent. */
  function RemoveChild<T>(rows: map<nat, T>, id: nat, parentOf: T -> nat, parent: nat): (r: map<nat, T>)
    ensures forall k :: k in r <==> k in rows && !(k == id && parentOf(rows[k]) == parent)
    ensures forall k :: k in r ==> r[k] == rows[k]
  {
    if id in rows && parentOf(rows[id]) == parent then rows - {id} else rows
  }

  /** The rows that sit under `parent`, with their values: what a listing of that parent shows. */
  function ChildrenOf<T>(rows: map<nat, T>, parentOf: T -> nat, parent: nat): (r: map<nat, T>)
    ensures forall k :: k in r <==> k in rows && parentOf(rows[k]) == parent
    ensures forall k :: k in r ==> r[k] == rows[k]
  {
    map k | k in rows && parentOf(rows[k]) == parent :: rows[k]
  }

  /** A remove naming a row of another parent, or no row at all, leaves the table as it was. */
  lemma RemoveUnderWrongParentKeepsAll<T>(rows: map<nat, T>, id: nat, parentOf: T -> nat, parent: nat)
    requires id in rows ==> parentOf(rows[id]) != parent
    ensures RemoveChild(rows, id, parentOf, parent) == rows
  {
  }

  /** A remove deletes the named row from its parent's children and from nowhere else. */
  lemma RemoveChildScopedToParent<T>(rows: map<nat, T>, id: nat, parentOf: T -> nat, parent: nat, other: nat)
    ensures other != parent ==> ChildrenOf(RemoveChild(rows, id, parentOf, parent), parentOf, other) == ChildrenOf(rows, parentOf, other)
    ensures ChildrenOf(RemoveChild(rows, id, parentOf, parent), parentOf, parent) == ChildrenOf(rows, parentOf, parent) - {id}
  {
  }

  function QuestionElection(q: Question): nat { q.electionId }

  function ChoiceQuestion(c: Choice): nat { c.questionId }

  function VoterElection(v: VoterRecord): nat { v.electionId }
}
