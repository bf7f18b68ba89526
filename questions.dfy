/**
 * The question bank row (the JapaneseSentence table) and the question record that
 * start_new_round builds from it and stores in the room.
 */
module Questions {
  import opened Wrappers

  /** One row of the JapaneseSentence table: a prompt, four options and the stored answer. */
  datatype Sentence = Sentence(
    sentence: string,
    option1: string,
    option2: string,
    option3: string,
    option4: string,
    correctAnswer: string)

  /** The `question_data` record: the prompt, the options as a list, and the answer. */
  datatype Question = Question(sentence: string, options: seq<string>, correctAnswer: string)

  /**
   * The question record built from a drawn row; options keep the order option1..option4.
   * Reading the record back gives the row, so building it loses nothing.
   */
  function QuestionOf(s: Sentence): (q: Question)
    ensures SentenceOf(q) == Some(s)
  {
    Question(s.sentence, [s.option1, s.option2, s.option3, s.option4], s.correctAnswer)
  }

  /** Reads a question record back as a row; only four-option records have one. */
  function SentenceOf(q: Question): (r: Option<Sentence>)
    ensures r.Some? <==> |q.options| == 4
  {
    if |q.options| == 4 then
      Some(Sentence(q.sentence, q.options[0], q.options[1], q.options[2], q.options[3], q.correctAnswer))
    else
      None
  }

  /** Every four-option question record is the record of exactly one row. */
  lemma QuestionRoundTrip(q: Question)
    requires |q.options| == 4
    ensures SentenceOf(q).Some? && QuestionOf(SentenceOf(q).value) == q
  {
  }
}
