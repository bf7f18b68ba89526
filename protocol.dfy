/**
 * What travels over the room's broadcast group and over each player's socket:
 * the inbound client messages, the group events published with group_send,
 * and the JSON object each event handler sends to its own client.
 */
module Protocol {
  import opened Wrappers
  import opened Questions

  /** A player is identified by its connection's channel name. */
  type PlayerId = string

  type Scores = map<PlayerId, int>

  /**
   * A decoded inbound message. `Other(kind)` stands for a message whose `type` is
   * neither "buzzer_press" nor "answer_selected"; it has no effect.
   */
  datatype Inbound = BuzzerPress | AnswerSelected(answer: string) | Other(kind: string)

  /** The events a consumer publishes to its room's group. */
  datatype Event =
    | PlayerUpdate(playerCount: nat)
    | RoundStarting(scores: Scores)
    | CountdownTick(count: int)
    | NewQuestion(question: Question, scores: Scores)
    | BuzzerActivated(playerId: PlayerId, roomQuestion: Option<Question>)
    | RoundResult(isCorrect: bool, correctAnswer: string, scores: Scores, answeredBy: PlayerId)
    | NextRoundTick(count: int)

  /** One group_send: the group it went to and the event. */
  datatype Broadcast = Broadcast(group: string, event: Event)

  /** The `type` string of an event, which also names the handler it is dispatched to. */
  function TypeName(e: Event): string {
    match e
    case PlayerUpdate(_) => "player_update"
    case RoundStarting(_) => "round_starting"
    case CountdownTick(_) => "countdown_tick"
    case NewQuestion(_, _) => "new_question"
    case BuzzerActivated(_, _) => "buzzer_activated"
    case RoundResult(_, _, _, _) => "round_result"
    case NextRoundTick(_) => "next_round_tick"
  }

  /** The kinds whose handler adds the recipient's own id. */
  predicate CarriesMyId(e: Event) {
    e.RoundStarting? || e.NewQuestion? || e.BuzzerActivated? || e.RoundResult?
  }

  // ---------------------------------------------------------------------------
  // JSON values (before json.dumps turns them into text)
  // ---------------------------------------------------------------------------

  datatype Json =
    | JNull
    | JBool(b: bool)
    | JInt(i: int)
    | JString(s: string)
    | JArray(items: seq<Json>)
    | JObject(fields: map<string, Json>)

  /** A message sent to one client: a JSON object. */
  type Message = map<string, Json>

  function ScoresJson(scores: Scores): (j: Json)
    ensures j.JObject? && j.fields.Keys == scores.Keys
  {
    JObject(map k | k in scores :: JInt(scores[k]))
  }

  function QuestionJson(q: Question): (j: Json)
    ensures j.JObject? && j.fields.Keys == {"sentence", "options", "correct_answer"}
  {
    JObject(map[
      "sentence" := JString(q.sentence),
      "options" := JArray(seq(|q.options|, i requires 0 <= i < |q.options| => JString(q.options[i]))),
      "correct_answer" := JString(q.correctAnswer)])
  }

  /** Python's None becomes JSON null. */
  function OptionalQuestionJson(q: Option<Question>): Json {
    match q
    case None => JNull
    case Some(question) => QuestionJson(question)
  }

  // ---------------------------------------------------------------------------
  // The event handlers: each turns one event kind into the message for `me`
  // ---------------------------------------------------------------------------

  function PlayerUpdateMessage(e: Event, me: PlayerId): (m: Message)
    requires e.PlayerUpdate?
    ensures m.Keys == {"type", "player_count"}
  {
    map["type" := JString("player_update"), "player_count" := JInt(e.playerCount)]
  }

  function RoundStartingMessage(e: Event, me: PlayerId): (m: Message)
    requires e.RoundStarting?
    ensures m.Keys == {"type", "scores", "my_id"} && m["my_id"] == JString(me)
  {
    map["type" := JString("round_starting"), "scores" := ScoresJson(e.scores), "my_id" := JString(me)]
  }

  function CountdownTickMessage(e: Event, me: PlayerId): (m: Message)
    requires e.CountdownTick?
    ensures m.Keys == {"type", "count"}
  {
    map["type" := JString("countdown_tick"), "count" := JInt(e.count)]
  }

  function NewQuestionMessage(e: Event, me: PlayerId): (m: Message)
    requires e.NewQuestion?
    ensures m.Keys == {"type", "question", "scores", "my_id"} && m["my_id"] == JString(me)
  {
    map[
      "type" := JString("new_question"),
      "question" := QuestionJson(e.question),
      "scores" := ScoresJson(e.scores),
      "my_id" := JString(me)]
  }

  function BuzzerActivatedMessage(e: Event, me: PlayerId): (m: Message)
    requires e.BuzzerActivated?
    ensures m.Keys == {"type", "player_id", "my_id", "question"} && m["my_id"] == JString(me)
  {
    map[
      "type" := JString("buzzer_activated"),
      "player_id" := JString(e.playerId),
      "my_id" := JString(me),
      "question" := OptionalQuestionJson(e.roomQuestion)]
  }

  function RoundResultMessage(e: Event, me: PlayerId): (m: Message)
    requires e.RoundResult?
    ensures m.Keys == {"type", "is_correct", "correct_answer", "scores", "answered_by", "my_id"}
    ensures m["my_id"] == JString(me)
  {
    map[
      "type" := JString("round_result"),
      "is_correct" := JBool(e.isCorrect),
      "correct_answer" := JString(e.correctAnswer),
      "scores" := ScoresJson(e.scores),
      "answered_by" := JString(e.answeredBy),
      "my_id" := JString(me)]
  }

  function NextRoundTickMessage(e: Event, me: PlayerId): (m: Message)
    requires e.NextRoundTick?
    ensures m.Keys == {"type", "count"}
  {
    map["type" := JString("next_round_tick"), "count" := JInt(e.count)]
  }

  /** Dispatch by event type to the handler of the same name. */
  function Deliver(e: Event, me: PlayerId): (m: Message)
    ensures "type" in m && m["type"] == JString(TypeName(e))
  {
    match e
    case PlayerUpdate(_) => PlayerUpdateMessage(e, me)
    case RoundStarting(_) => RoundStartingMessage(e, me)
    case CountdownTick(_) => CountdownTickMessage(e, me)
    case NewQuestion(_, _) => NewQuestionMessage(e, me)
    case BuzzerActivated(_, _) => BuzzerActivatedMessage(e, me)
    case RoundResult(_, _, _, _) => RoundResultMessage(e, me)
    case NextRoundTick(_) => NextRoundTickMessage(e, me)
  }

  // ---------------------------------------------------------------------------
  // Reading a message back, as a client would
  // ---------------------------------------------------------------------------

  /** What a client learns from one message: the event and the id it was told is its own. */
  datatype Received = Received(event: Event, myId: Option<PlayerId>)

  function StringField(m: Message, key: string): Option<string> {
    if key in m && m[key].JString? then Some(m[key].s) else None
  }

  function IntField(m: Message, key: string): Option<int> {
    if key in m && m[key].JInt? then Some(m[key].i) else None
  }

  function ScoresOf(j: Json): Option<Scores> {
    if j.JObject? && forall k :: k in j.fields ==> j.fields[k].JInt? then
      Some(map k | k in j.fields :: j.fields[k].i)
    else
      None
  }

  function StringsOf(items: seq<Json>): Option<seq<string>> {
    if forall i :: 0 <= i < |items| ==> items[i].JString? then
      Some(seq(|items|, i requires 0 <= i < |items| => items[i].s))
    else
      None
  }

  function QuestionFrom(j: Json): Option<Question> {
    if j.JObject? && "sentence" in j.fields && "options" in j.fields && "correct_answer" in j.fields
       && j.fields["sentence"].JString? && j.fields["options"].JArray?
       && j.fields["correct_answer"].JString?
    then
      var options :- StringsOf(j.fields["options"].items);
      Some(Question(j.fields["sentence"].s, options, j.fields["correct_answer"].s))
    else
      None
  }

  function OptionalQuestionFrom(j: Json): Option<Option<Question>> {
    if j.JNull? then Some(None)
    else
      var q :- QuestionFrom(j);
      Some(Some(q))
  }

  function Field(m: Message, key: string): Option<Json> {
    if key in m then Some(m[key]) else None
  }

  /** The event a message stands for, read from its `type` and its payload fields. */
  function EventFrom(m: Message): Option<Event> {
    var t :- StringField(m, "type");
    if t == "player_update" then
      var n :- IntField(m, "player_count");
      if n >= 0 then Some(PlayerUpdate(n)) else None
    else if t == "round_starting" then
      var sj :- Field(m, "scores");
      var s :- ScoresOf(sj);
      Some(RoundStarting(s))
    else if t == "countdown_tick" then
      var n :- IntField(m, "count");
      Some(CountdownTick(n))
    else if t == "new_question" then
      var qj :- Field(m, "question");
      var q :- QuestionFrom(qj);
      var sj :- Field(m, "scores");
      var s :- ScoresOf(sj);
      Some(NewQuestion(q, s))
    else if t == "buzzer_activated" then
      var p :- StringField(m, "player_id");
      var qj :- Field(m, "question");
      var q :- OptionalQuestionFrom(qj);
      Some(BuzzerActivated(p, q))
    else if t == "round_result" then
      var cj :- Field(m, "is_correct");
      var c :- if cj.JBool? then Some(cj.b) else None;
      var a :- StringField(m, "correct_answer");
      var sj :- Field(m, "scores");
      var s :- ScoresOf(sj);
      var who :- StringField(m, "answered_by");
      Some(RoundResult(c, a, s, who))
    else if t == "next_round_tick" then
      var n :- IntField(m, "count");
      Some(NextRoundTick(n))
    else
      None
  }

  function Read(m: Message): Option<Received> {
    var e :- EventFrom(m);
    Some(Received(e, StringField(m, "my_id")))
  }

  // ---------------------------------------------------------------------------
  // Properties of the handlers
  // ---------------------------------------------------------------------------

  lemma {:induction false} ScoresRoundTrip(scores: Scores)
    ensures ScoresOf(ScoresJson(scores)) == Some(scores)
  {
    var j := ScoresJson(scores);
    assert forall k :: k in j.fields ==> j.fields[k].JInt?;
    var back := map k | k in j.fields :: j.fields[k].i;
    assert back.Keys == scores.Keys;
    assert forall k :: k in back ==> back[k] == scores[k];
    assert back == scores;
    assert ScoresOf(j) == Some(back);
  }

  lemma {:induction false} QuestionJsonRoundTrip(q: Question)
    ensures QuestionFrom(QuestionJson(q)) == Some(q)
  {
    var items := QuestionJson(q).fields["options"].items;
    assert |items| == |q.options|;
    assert forall i :: 0 <= i < |items| ==> items[i] == JString(q.options[i]);
    var back := seq(|items|, i requires 0 <= i < |items| => items[i].s);
    assert back == q.options;
    assert StringsOf(items) == Some(q.options);
  }

  /**
   * Every outbound message can be read back as exactly the event it was made from,
   * and it names the recipient as `my_id` exactly for round_starting, new_question,
   * buzzer_activated and round_result; the other kinds carry no `my_id` at all.
   */
  lemma {:induction false} DeliverRoundTrip(e: Event, me: PlayerId)
    ensures Read(Deliver(e, me)) == Some(Received(e, if CarriesMyId(e) then Some(me) else None))
    ensures "my_id" in Deliver(e, me) <==> CarriesMyId(e)
  {
    var m := Deliver(e, me);
    match e
    case PlayerUpdate(_) =>
    case RoundStarting(s) =>
      ScoresRoundTrip(s);
    case CountdownTick(_) =>
    case NewQuestion(q, s) =>
      QuestionJsonRoundTrip(q);
      ScoresRoundTrip(s);
    case BuzzerActivated(_, q) =>
      if q.Some? {
        QuestionJsonRoundTrip(q.value);
      }
    case RoundResult(_, _, s, _) =>
      ScoresRoundTrip(s);
    case NextRoundTick(_) =>
  }

  /** Two events delivered to the same recipient give the same message only if they are equal. */
  lemma DeliverInjective(e1: Event, e2: Event, me: PlayerId)
    requires Deliver(e1, me) == Deliver(e2, me)
    ensures e1 == e2
  {
    DeliverRoundTrip(e1, me);
    DeliverRoundTrip(e2, me);
  }
}
