/**
 * What the cast handler (app.js:815-828) derives from a request body: one vote
 * per key containing "question-", in key order, attributed to the body's own
 * `electionId` and `voterId` fields.
 */
module Ballot {
  import opened Wrappers
  import opened Text
  import opened BallotKeys
  import opened Ledger

  /** One key of the parsed request body with its value. */
  datatype Field = Field(key: string, value: string)

  /**
   * The parsed body is a JavaScript object, so no key appears twice: the
   * urlencoded parser gathers the values of a repeated key under one key.
   */
  predicate DistinctKeys(body: seq<Field>) {
    forall i, j :: 0 <= i < j < |body| ==> body[i].key != body[j].key
  }

  /** `request.body[name]`: the value under that key, or undefined. */
  function Lookup(body: seq<Field>, name: string): (r: Option<string>)
    ensures r.None? <==> forall i :: 0 <= i < |body| ==> body[i].key != name
    ensures r.Some? ==> exists i :: 0 <= i < |body| && body[i].key == name && body[i].value == r.value
  {
    if body == [] then None
    else if body[0].key == name then Some(body[0].value)
    else
      var r := Lookup(body[1..], name);
      assert forall i :: 1 <= i < |body| ==> body[i] == body[1..][i - 1];
      r
  }

  /** On an object body, `request.body[key]` is the value of the one field with that key. */
  lemma LookupOfDistinctKeys(body: seq<Field>, i: nat)
    requires DistinctKeys(body) && i < |body|
    ensures Lookup(body, body[i].key) == Some(body[i].value)
  {
  }

  /** The vote `createVote` records for one question field. */
  function VoteFor(f: Field, electionId: Option<string>, voterId: Option<string>): Vote {
    Vote(electionId, QuestionIdText(f.key), f.value, voterId)
  }

  /** What the cast loop has appended after visiting `fields`, in order. */
  function Collected(fields: seq<Field>, electionId: Option<string>, voterId: Option<string>): seq<Vote> {
    if fields == [] then []
    else
      Collected(fields[..|fields| - 1], electionId, voterId)
      + (if IsQuestionKey(Last(fields).key) then [VoteFor(Last(fields), electionId, voterId)] else [])
  }

  /** The votes a cast records for a body: attributed to the body's `electionId` and `voterId`. */
  function BallotVotes(body: seq<Field>): seq<Vote> {
    Collected(body, Lookup(body, "electionId"), Lookup(body, "voterId"))
  }

  /** The question fields of a body, in order: an independent account of what gets a vote. */
  function QuestionFields(fields: seq<Field>): seq<Field> {
    if fields == [] then []
    else (if IsQuestionKey(fields[0].key) then [fields[0]] else []) + QuestionFields(fields[1..])
  }

  lemma {:induction false} QuestionFieldsSnoc(fields: seq<Field>, f: Field)
    ensures QuestionFields(fields + [f]) == QuestionFields(fields) + (if IsQuestionKey(f.key) then [f] else [])
  {
    if fields != [] {
      assert (fields + [f])[1..] == fields[1..] + [f];
      QuestionFieldsSnoc(fields[1..], f);
    } else {
      assert [f][1..] == [];
    }
  }

  /**
   * Exactly one vote per question field and none for any other key: the cast
   * records the question fields, in order, each as its own vote.
   */
  lemma {:induction false} CollectedMatchesQuestionFields(fields: seq<Field>, electionId: Option<string>, voterId: Option<string>)
    ensures |Collected(fields, electionId, voterId)| == |QuestionFields(fields)|
    ensures forall k :: 0 <= k < |QuestionFields(fields)| ==>
              Collected(fields, electionId, voterId)[k] == VoteFor(QuestionFields(fields)[k], electionId, voterId)
  {
    if fields != [] {
      var init, f := fields[..|fields| - 1], Last(fields);
      assert fields == init + [f];
      CollectedMatchesQuestionFields(init, electionId, voterId);
      QuestionFieldsSnoc(init, f);
    }
  }

  /** Every recorded vote comes from a question field of the body. */
  lemma {:induction false} CollectedSound(fields: seq<Field>, electionId: Option<string>, voterId: Option<string>)
    ensures forall k :: 0 <= k < |Collected(fields, electionId, voterId)| ==>
              exists i :: 0 <= i < |fields| && IsQuestionKey(fields[i].key)
                          && Collected(fields, electionId, voterId)[k] == VoteFor(fields[i], electionId, voterId)
  {
    if fields != [] {
      var init, f := fields[..|fields| - 1], Last(fields);
      CollectedSound(init, electionId, voterId);
      var c := Collected(fields, electionId, voterId);
      var c0 := Collected(init, electionId, voterId);
      assert c == c0 + (if IsQuestionKey(f.key) then [VoteFor(f, electionId, voterId)] else []);
      forall k | 0 <= k < |c|
        ensures exists i :: 0 <= i < |fields| && IsQuestionKey(fields[i].key) && c[k] == VoteFor(fields[i], electionId, voterId)
      {
        if k < |c0| {
          assert c[k] == c0[k];
          var i :| 0 <= i < |init| && IsQuestionKey(init[i].key) && c0[k] == VoteFor(init[i], electionId, voterId);
          assert fields[i] == init[i];
        } else {
          assert IsQuestionKey(f.key) && c[k] == VoteFor(f, electionId, voterId);
          assert fields[|fields| - 1] == f;
        }
      }
      assert forall k :: 0 <= k < |c| ==>
        exists i :: 0 <= i < |fields| && IsQuestionKey(fields[i].key) && c[k] == VoteFor(fields[i], electionId, voterId);
    } else {
      assert |Collected(fields, electionId, voterId)| == 0;
    }
  }

  /** Every question field of the body gets its vote. */
  lemma {:induction false} CollectedComplete(fields: seq<Field>, electionId: Option<string>, voterId: Option<string>, i: nat)
    requires i < |fields| && IsQuestionKey(fields[i].key)
    ensures VoteFor(fields[i], electionId, voterId) in Collected(fields, electionId, voterId)
  {
    var init := fields[..|fields| - 1];
    if i < |fields| - 1 {
      assert init[i] == fields[i];
      CollectedComplete(init, electionId, voterId, i);
    }
  }

  /** The votes carry the body's `electionId` and `voterId`, never the route's or the session's. */
  lemma CollectedAttribution(fields: seq<Field>, electionId: Option<string>, voterId: Option<string>)
    ensures forall k :: 0 <= k < |Collected(fields, electionId, voterId)| ==>
              Collected(fields, electionId, voterId)[k].electionId == electionId
              && Collected(fields, electionId, voterId)[k].voterId == voterId
  {
    CollectedSound(fields, electionId, voterId);
  }

  /** The body names the election and voter of the route and the session, as the vote form does. */
  predicate Honest(body: seq<Field>, electionId: nat, voterId: nat) {
    Lookup(body, "electionId") == Some(DecimalText(electionId))
    && Lookup(body, "voterId") == Some(DecimalText(voterId))
  }

  /** An honest ballot with at least one question marks the voter as having voted. */
  lemma HonestBallotMarksVoter(votes: seq<Vote>, body: seq<Field>, electionId: nat, voterId: nat, i: nat)
    requires Honest(body, electionId, voterId)
    requires i < |body| && IsQuestionKey(body[i].key)
    ensures HaveAlreadyVoted(votes + BallotVotes(body), electionId, voterId)
  {
    var e, v := Lookup(body, "electionId"), Lookup(body, "voterId");
    CollectedComplete(body, e, v, i);
    var c := Collected(body, e, v);
    var k :| 0 <= k < |c| && c[k] == VoteFor(body[i], e, v);
    assert (votes + c)[|votes| + k] == c[k];
  }

  /**
   * A body without a voterId, or with one that no integer column would read as
   * the session voter's id, leaves that voter unmarked, so the same session can
   * cast again and again.
   */
  lemma ForgedVoterIdLeavesVoterUnmarked(votes: seq<Vote>, body: seq<Field>, electionId: nat, voterId: nat)
    requires Lookup(body, "voterId").Some? ==> !CoercesTo(Lookup(body, "voterId").value, voterId)
    ensures HaveAlreadyVoted(votes + BallotVotes(body), electionId, voterId) == HaveAlreadyVoted(votes, electionId, voterId)
  {
    DecimalRoundTrip(voterId);
    CollectedAttribution(body, Lookup(body, "electionId"), Lookup(body, "voterId"));
    OthersVotesChangeNothing(votes, BallotVotes(body), electionId, voterId);
  }

  /** No two question keys of the body name the same question. */
  predicate DistinctQuestions(fields: seq<Field>) {
    forall i, j :: 0 <= i < j < |fields| && IsQuestionKey(fields[i].key) && IsQuestionKey(fields[j].key)
                   ==> QuestionIdText(fields[i].key) != QuestionIdText(fields[j].key)
  }

  lemma AppendKeepsOneVotePerSlot(votes: seq<Vote>, x: Vote)
    requires OneVotePerSlot(votes)
    requires forall k :: 0 <= k < |votes| ==> !SameSlot(votes[k], x)
    ensures OneVotePerSlot(votes + [x])
  {
    var all := votes + [x];
    forall i, j | 0 <= i < j < |all| ensures !SameSlot(all[i], all[j]) {
      if j < |votes| {
        assert all[i] == votes[i] && all[j] == votes[j];
      } else {
        assert all[i] == votes[i] && all[j] == x;
      }
    }
  }

  /**
   * A first cast by a voter, with ids as the session has them and every
   * question named once, keeps at most one vote per (election, question, voter).
   */
  lemma {:induction false} FirstCastKeepsOneVotePerSlot(votes: seq<Vote>, fields: seq<Field>, electionId: nat, voterId: nat)
    requires OneVotePerSlot(votes)
    requires !HaveAlreadyVoted(votes, electionId, voterId)
    requires DistinctQuestions(fields)
    ensures OneVotePerSlot(votes + Collected(fields, Some(DecimalText(electionId)), Some(DecimalText(voterId))))
  {
    var e, v := Some(DecimalText(electionId)), Some(DecimalText(voterId));
    if fields == [] {
      assert votes + [] == votes;
    } else {
      var init, f := fields[..|fields| - 1], Last(fields);
      assert DistinctQuestions(init) by {
        forall i, j | 0 <= i < j < |init| ensures init[i] == fields[i] && init[j] == fields[j] { }
      }
      FirstCastKeepsOneVotePerSlot(votes, init, electionId, voterId);
      var before := votes + Collected(init, e, v);
      if IsQuestionKey(f.key) {
        var x := VoteFor(f, e, v);
        CollectedSound(init, e, v);
        forall k | 0 <= k < |before| ensures !SameSlot(before[k], x) {
          if k < |votes| {
            assert before[k] == votes[k];
            assert !CastBy(votes[k], electionId, voterId);
          } else {
            var c := Collected(init, e, v);
            assert before[k] == c[k - |votes|];
            var i :| 0 <= i < |init| && IsQuestionKey(init[i].key) && c[k - |votes|] == VoteFor(init[i], e, v);
            assert init[i] == fields[i] && f == fields[|fields| - 1];
          }
        }
        AppendKeepsOneVotePerSlot(before, x);
        assert votes + Collected(fields, e, v) == before + [x];
      } else {
        assert votes + Collected(fields, e, v) == before;
      }
    }
  }

  lemma CollectedSnoc(init: seq<Field>, f: Field, electionId: Option<string>, voterId: Option<string>)
    ensures Collected(init + [f], electionId, voterId)
            == Collected(init, electionId, voterId) + (if IsQuestionKey(f.key) then [VoteFor(f, electionId, voterId)] else [])
  {
    assert (init + [f])[..|init|] == init;
  }

  /** One more turn of the cast loop: the field at `i` adds at most its own vote. */
  lemma CollectedStep(fields: seq<Field>, i: nat, electionId: Option<string>, voterId: Option<string>)
    requires i < |fields|
    ensures Collected(fields[..i + 1], electionId, voterId)
            == Collected(fields[..i], electionId, voterId)
               + (if IsQuestionKey(fields[i].key) then [VoteFor(fields[i], electionId, voterId)] else [])
  {
    assert fields[..i] + [fields[i]] == fields[..i + 1];
    CollectedSnoc(fields[..i], fields[i], electionId, voterId);
  }

  /** A body that starts with the two id fields is honest. */
  lemma IdFieldsFirstMakeHonest(electionId: nat, voterId: nat, rest: seq<Field>)
    ensures Honest([Field("electionId", DecimalText(electionId)), Field("voterId", DecimalText(voterId))] + rest,
                   electionId, voterId)
  {
    var body := [Field("electionId", DecimalText(electionId)), Field("voterId", DecimalText(voterId))] + rest;
    assert body[0].key == "electionId";
    assert body[1..][0].key == "voterId";
  }

  /** Two id fields followed by two question fields record exactly the two question votes. */
  lemma CollectedOfTwoQuestions(f0: Field, f1: Field, f2: Field, f3: Field, e: Option<string>, v: Option<string>)
    requires !IsQuestionKey(f0.key) && !IsQuestionKey(f1.key) && IsQuestionKey(f2.key) && IsQuestionKey(f3.key)
    ensures Collected([f0, f1, f2, f3], e, v) == [VoteFor(f2, e, v), VoteFor(f3, e, v)]
  {
    var s1 := [] + [f0];
    var s2 := s1 + [f1];
    var s3 := s2 + [f2];
    CollectedSnoc([], f0, e, v);
    CollectedSnoc(s1, f1, e, v);
    CollectedSnoc(s2, f2, e, v);
    CollectedSnoc(s3, f3, e, v);
    assert s3 + [f3] == [f0, f1, f2, f3];
  }

  /** Two keys naming question 3 in one honest body record two votes in the same slot. */
  lemma TwoKeysOneQuestionBreaksUniqueness(electionId: nat, voterId: nat)
    ensures var body := [Field("electionId", DecimalText(electionId)), Field("voterId", DecimalText(voterId)),
                         Field(QuestionKey(3), "1"), Field("x-" + QuestionKey(3), "2")];
            Honest(body, electionId, voterId) && !OneVotePerSlot(BallotVotes(body))
  {
    var f0, f1 := Field("electionId", DecimalText(electionId)), Field("voterId", DecimalText(voterId));
    var f2, f3 := Field(QuestionKey(3), "1"), Field("x-" + QuestionKey(3), "2");
    IdFieldsFirstMakeHonest(electionId, voterId, [f2, f3]);
    assert [f0, f1] + [f2, f3] == [f0, f1, f2, f3];
    BodyIdKeysAreNoQuestions();
    DistinctKeysSameQuestion(3);
    var e, v := Some(DecimalText(electionId)), Some(DecimalText(voterId));
    CollectedOfTwoQuestions(f0, f1, f2, f3, e, v);
    var votes := [VoteFor(f2, e, v), VoteFor(f3, e, v)];
    assert SameSlot(votes[0], votes[1]);
  }
}
