/**
 * How the cast handler reads a ballot field name (app.js:816-823): a body key
 * names a question when it contains "question-", and the question's id is the
 * text after its last "-".
 */
module BallotKeys {
  import opened Text

  const QuestionMarker: string := "question-"

  /** `key.indexOf("question-") !== -1` */
  predicate IsQuestionKey(key: string) {
    IndexOf(key, QuestionMarker) != -1
  }

  /** `key.split("-").at(-1)` */
  function QuestionIdText(key: string): string {
    Last(Split(key, '-'))
  }

  /** The field name under which a ballot form submits its answer to question `q`. */
  function QuestionKey(q: nat): string {
    QuestionMarker + DecimalText(q)
  }

  lemma DecimalTextHasNoDash(n: nat)
    ensures '-' !in DecimalText(n)
  {
  }

  /** The id read back from a key has no "-" in it. */
  lemma QuestionIdHasNoDash(key: string)
    ensures '-' !in QuestionIdText(key)
  {
    SplitPiecesAvoidSeparator(key, '-');
  }

  /**
   * Whatever precedes it, a key ending in the form's field name for question `q`
   * is a question key and names question `q`.
   */
  lemma {:induction false} QuestionKeyParses(prefix: string, q: nat)
    ensures IsQuestionKey(prefix + QuestionKey(q))
    ensures QuestionIdText(prefix + QuestionKey(q)) == DecimalText(q)
    ensures DecimalValue(QuestionIdText(prefix + QuestionKey(q))) == q
  {
    var key := prefix + QuestionKey(q);
    assert key[|prefix|..|prefix| + |QuestionMarker|] == QuestionMarker;
    assert OccursAt(key, QuestionMarker, |prefix|);
    IndexOfFound(key, QuestionMarker);
    DecimalTextHasNoDash(q);
    assert key == (prefix + "question") + ['-'] + DecimalText(q);
    LastPieceAfterSeparator(prefix + "question", '-', DecimalText(q));
    DecimalRoundTrip(q);
  }

  /** The form's own field naming round-trips: "question-<q>" is read back as question `q`. */
  lemma QuestionKeyRoundTrip(q: nat)
    ensures IsQuestionKey(QuestionKey(q))
    ensures QuestionIdText(QuestionKey(q)) == DecimalText(q)
  {
    QuestionKeyParses([], q);
    assert [] + QuestionKey(q) == QuestionKey(q);
  }

  /** Two distinct body keys can name the same question: the id is only the last segment. */
  lemma DistinctKeysSameQuestion(q: nat)
    ensures QuestionKey(q) != "x-" + QuestionKey(q)
    ensures IsQuestionKey(QuestionKey(q)) && IsQuestionKey("x-" + QuestionKey(q))
    ensures QuestionIdText(QuestionKey(q)) == QuestionIdText("x-" + QuestionKey(q)) == DecimalText(q)
  {
    assert |"x-" + QuestionKey(q)| == |QuestionKey(q)| + 2;
    QuestionKeyRoundTrip(q);
    QuestionKeyParses("x-", q);
  }

  /** A key without any "-" never names a question (so `electionId` and `voterId` do not). */
  lemma DashlessKeyIsNoQuestion(key: string)
    requires '-' !in key
    ensures !IsQuestionKey(key)
  {
    forall j | 0 <= j <= |key| ensures !OccursAt(key, QuestionMarker, j) {
      if j + |QuestionMarker| <= |key| {
        assert key[j..j + |QuestionMarker|][8] == key[j + 8];
      }
    }
  }

  lemma BodyIdKeysAreNoQuestions()
    ensures !IsQuestionKey("electionId") && !IsQuestionKey("voterId")
  {
    DashlessKeyIsNoQuestion("electionId");
    DashlessKeyIsNoQuestion("voterId");
  }
}
