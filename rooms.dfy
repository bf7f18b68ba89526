/**
 * One room's record in the consumer's `game_state` table and the effect of each
 * consumer operation on the table, as functions of the old table. The class in
 * consumer.dfy performs these steps in place; the lemmas here state what the
 * steps promise.
 */
module Rooms {
  import opened Wrappers
  import opened Questions
  import opened Protocol

  /** A room record: join-ordered players, the buzzer holder, the current question, the scores. */
  datatype Room = Room(
    players: seq<PlayerId>,
    buzzerPressedBy: Option<PlayerId>,
    question: Option<Question>,
    playerScores: Scores)

  /** The table of rooms, keyed by group name. */
  type Registry = map<string, Room>

  /** The new state of one room and the events published to its group, in order. */
  datatype RoomStep = RoomStep(room: Room, events: seq<Event>)

  /** The new table and the events published to the acting consumer's group, in order. */
  datatype Step = Step(rooms: Registry, events: seq<Event>)

  /** The record installed for a group name the table does not hold yet. */
  const NEW_ROOM := Room([], None, None, map[])

  /** Both countdowns run `for i in range(3, 0, -1)`. */
  const TICKS: nat := 3

  /** The group a room code's players subscribe to. */
  function GroupName(roomCode: string): (g: string)
    ensures |g| == 5 + |roomCode| && g[..5] == "game_" && g[5..] == roomCode
  {
    "game_" + roomCode
  }

  /** Different room codes never share a table entry or a broadcast group. */
  lemma GroupNameInjective(a: string, b: string)
    requires a != b
    ensures GroupName(a) != GroupName(b)
  {
  }

  // ---------------------------------------------------------------------------
  // Invariants of the table
  // ---------------------------------------------------------------------------

  ghost predicate NoDuplicates(s: seq<PlayerId>) {
    forall i, j :: 0 <= i < j < |s| ==> s[i] != s[j]
  }

  ghost function Members(s: seq<PlayerId>): set<PlayerId> {
    set p | p in s
  }

  /** Players are listed once each, and exactly the listed players have a score. */
  ghost predicate Consistent(r: Room) {
    NoDuplicates(r.players) && r.playerScores.Keys == Members(r.players)
  }

  /** Every room in the table is consistent and has at least one player. */
  ghost predicate RegistryValid(rooms: Registry) {
    forall g :: g in rooms ==> Consistent(rooms[g]) && rooms[g].players != []
  }

  // ---------------------------------------------------------------------------
  // list.remove and its index
  // ---------------------------------------------------------------------------

  /** The position of the first occurrence of `p`. */
  function IndexOf(s: seq<PlayerId>, p: PlayerId): (i: nat)
    requires p in s
    ensures i < |s| && s[i] == p && p !in s[..i]
  {
    if s[0] == p then 0 else 1 + IndexOf(s[1..], p)
  }

  /** `list.remove(p)`: the list without the first occurrence of `p`, others in order. */
  function RemoveFirst(s: seq<PlayerId>, p: PlayerId): (r: seq<PlayerId>)
    ensures p !in s ==> r == s
    ensures p in s ==> |r| == |s| - 1
  {
    if s == [] then []
    else if s[0] == p then s[1..]
    else [s[0]] + RemoveFirst(s[1..], p)
  }

  /** Removal splices out exactly the first occurrence, keeping everything else in order. */
  lemma {:induction false} RemoveFirstSplices(s: seq<PlayerId>, p: PlayerId)
    requires p in s
    ensures RemoveFirst(s, p) == s[..IndexOf(s, p)] + s[IndexOf(s, p) + 1..]
  {
    if s[0] != p {
      RemoveFirstSplices(s[1..], p);
      var i := IndexOf(s[1..], p);
      assert IndexOf(s, p) == i + 1;
      assert s[..i + 1] == [s[0]] + s[1..][..i];
      assert s[i + 2..] == s[1..][i + 1..];
    }
  }

  /** Position k of the shortened list holds the element that followed the gap, if k is past it. */
  lemma RemoveFirstAt(s: seq<PlayerId>, p: PlayerId, k: int)
    requires p in s && 0 <= k < |s| - 1
    ensures RemoveFirst(s, p)[k] == s[if k < IndexOf(s, p) then k else k + 1]
  {
    RemoveFirstSplices(s, p);
  }

  /** On a list without duplicates, removal keeps it duplicate-free. */
  lemma RemoveFirstNoDuplicates(s: seq<PlayerId>, p: PlayerId)
    requires NoDuplicates(s)
    ensures NoDuplicates(RemoveFirst(s, p))
  {
    var r := RemoveFirst(s, p);
    if p in s {
      forall a, b | 0 <= a < b < |r|
        ensures r[a] != r[b]
      {
        RemoveFirstAt(s, p, a);
        RemoveFirstAt(s, p, b);
      }
    }
  }

  /** On a list without duplicates, removal drops exactly `p` from the members. */
  lemma {:induction false} RemoveFirstUnique(s: seq<PlayerId>, p: PlayerId)
    requires NoDuplicates(s)
    ensures NoDuplicates(RemoveFirst(s, p))
    ensures Members(RemoveFirst(s, p)) == Members(s) - {p}
  {
    RemoveFirstNoDuplicates(s, p);
    var r := RemoveFirst(s, p);
    if p in s {
      var i := IndexOf(s, p);
      forall q | q in r
        ensures q in s && q != p
      {
        var k :| 0 <= k < |r| && r[k] == q;
        RemoveFirstAt(s, p, k);
      }
      forall q | q in s && q != p
        ensures q in r
      {
        var k :| 0 <= k < |s| && s[k] == q;
        RemoveFirstAt(s, p, if k < i then k else k - 1);
      }
    }
  }

  // ---------------------------------------------------------------------------
  // The steps
  // ---------------------------------------------------------------------------

  /** The room a group name denotes; connect installs NEW_ROOM for an absent one. */
  function RoomFor(rooms: Registry, g: string): Room
  {
    if g in rooms then rooms[g] else NEW_ROOM
  }

  /** connect's join: a player not yet listed is appended with score 0. */
  function AddPlayer(r: Room, p: PlayerId): (r': Room)
    ensures p in r'.players
    ensures r.players <= r'.players && |r'.players| <= |r.players| + 1
    ensures p in r.players ==> r' == r
    ensures p !in r.players ==> p in r'.playerScores && r'.playerScores[p] == 0
    ensures forall q :: q in r.playerScores && q != p ==> q in r'.playerScores && r'.playerScores[q] == r.playerScores[q]
    ensures r'.buzzerPressedBy == r.buzzerPressedBy && r'.question == r.question
  {
    if p in r.players then r
    else r.(players := r.players + [p], playerScores := r.playerScores[p := 0])
  }

  /** The ticks of a countdown from `n`: n, n-1, ..., 1. */
  function CountdownTicks(n: nat): seq<Event> {
    seq(n, k requires 0 <= k < n => CountdownTick(n - k))
  }

  function NextRoundTicks(n: nat): seq<Event> {
    seq(n, k requires 0 <= k < n => NextRoundTick(n - k))
  }

  /** start_new_round, given the row the database returned (None when the table is empty). */
  function StartRound(r: Room, draw: Option<Sentence>): (step: RoomStep)
    ensures step.room.players == r.players && step.room.playerScores == r.playerScores
    ensures draw.None? <==> step.events == []
    ensures draw.Some? ==> step.room.buzzerPressedBy.None? && step.room.question == Some(QuestionOf(draw.value))
  {
    match draw
    case None => RoomStep(r, [])
    case Some(s) =>
      var q := QuestionOf(s);
      var next := r.(buzzerPressedBy := None, question := Some(q));
      RoomStep(next, [RoundStarting(next.playerScores)] + CountdownTicks(TICKS) + [NewQuestion(q, next.playerScores)])
  }

  /** connect: join the room (creating it if absent), announce the count, start a round at two. */
  function ConnectStep(rooms: Registry, roomCode: string, p: PlayerId, draw: Option<Sentence>): (step: Step)
    ensures var g := GroupName(roomCode);
            && step.rooms.Keys == rooms.Keys + {g}
            && p in step.rooms[g].players
            && step.events != [] && step.events[0] == PlayerUpdate(|step.rooms[g].players|)
            && forall h :: h in rooms && h != g ==> step.rooms[h] == rooms[h]
  {
    var g := GroupName(roomCode);
    var joined := AddPlayer(RoomFor(rooms, g), p);
    var count := |joined.players|;
    var start := if count == 2 then StartRound(joined, draw) else RoomStep(joined, []);
    Step(rooms[g := start.room], [PlayerUpdate(count)] + start.events)
  }

  /** disconnect: drop the player and their score; delete the room once nobody is left. */
  function DisconnectStep(rooms: Registry, roomCode: string, p: PlayerId): (after: Registry)
    ensures var g := GroupName(roomCode);
            && after.Keys <= rooms.Keys
            && (forall h :: h in rooms && h != g ==> h in after && after[h] == rooms[h])
            && (g in after ==> p !in after[g].playerScores || p !in rooms[g].players)
            && (g in after ==> after[g].players != [])
  {
    var g := GroupName(roomCode);
    if g !in rooms then rooms
    else
      var left := RemovePlayer(rooms[g], p);
      if left.players == [] then rooms - {g} else rooms[g := left]
  }

  /** disconnect's removal: a listed player leaves the list and the score table. */
  function RemovePlayer(r: Room, p: PlayerId): (r': Room)
    ensures p in r.players ==> p !in r'.playerScores && |r'.players| == |r.players| - 1
    ensures p !in r.players ==> r' == r
    ensures forall q :: q in r'.playerScores ==> q in r.playerScores && r'.playerScores[q] == r.playerScores[q]
    ensures r'.buzzerPressedBy == r.buzzerPressedBy && r'.question == r.question
  {
    if p in r.players then
      r.(players := RemoveFirst(r.players, p), playerScores := r.playerScores - {p})
    else r
  }

  /** Python truthiness of the holder: None and the empty string both leave the buzzer open. */
  predicate BuzzerTaken(holder: Option<PlayerId>)
  {
    holder.Some? && holder.value != ""
  }

  /** buzzer_press: only a press while the buzzer is open records the presser and is announced. */
  function Press(r: Room, p: PlayerId): (step: RoomStep)
    ensures step.room.players == r.players && step.room.playerScores == r.playerScores
    ensures step.room.question == r.question
    ensures step.events != [] <==> !BuzzerTaken(r.buzzerPressedBy)
    ensures step.events != [] ==> step.room.buzzerPressedBy == Some(p) && step.events == [BuzzerActivated(p, r.question)]
    ensures step.events == [] ==> step.room == r
  {
    if !BuzzerTaken(r.buzzerPressedBy) then
      RoomStep(r.(buzzerPressedBy := Some(p)), [BuzzerActivated(p, r.question)])
    else
      RoomStep(r, [])
  }

  /** answer_selected: +1 for the stored correct answer, -1 for anything else. */
  function Answer(r: Room, p: PlayerId, answer: string): (step: RoomStep)
    requires r.question.Some? && p in r.playerScores
    ensures step.room.playerScores.Keys == r.playerScores.Keys
    ensures step.room.playerScores[p] == r.playerScores[p] + 1 || step.room.playerScores[p] == r.playerScores[p] - 1
    ensures step.room.playerScores[p] > r.playerScores[p] <==> answer == r.question.value.correctAnswer
    ensures |step.events| == 1 && step.events[0].RoundResult? && step.events[0].answeredBy == p
  {
    var correct := r.question.value.correctAnswer;
    var isCorrect := answer == correct;
    var scores := r.playerScores[p := if isCorrect then r.playerScores[p] + 1 else r.playerScores[p] - 1];
    RoomStep(r.(playerScores := scores), [RoundResult(isCorrect, correct, scores, p)])
  }

  /**
   * What receive needs in order not to raise: the room must still exist, and an
   * answer needs a current question and a score entry for its sender.
   */
  ghost predicate CanReceive(rooms: Registry, roomCode: string, p: PlayerId, msg: Inbound) {
    var g := GroupName(roomCode);
    g in rooms && (msg.AnswerSelected? ==> rooms[g].question.Some? && p in rooms[g].playerScores)
  }

  function ReceiveStep(rooms: Registry, roomCode: string, p: PlayerId, msg: Inbound): (step: Step)
    requires CanReceive(rooms, roomCode, p, msg)
    ensures var g := GroupName(roomCode);
            && step.rooms.Keys == rooms.Keys
            && step.rooms[g].players == rooms[g].players
            && step.rooms[g].playerScores.Keys == rooms[g].playerScores.Keys
            && |step.events| <= 1
            && (msg.AnswerSelected? ==> |step.events| == 1)
            && forall h :: h in rooms && h != g ==> step.rooms[h] == rooms[h]
  {
    var g := GroupName(roomCode);
    var room := rooms[g];
    var result :=
      match msg
      case BuzzerPress => Press(room, p)
      case AnswerSelected(answer) => Answer(room, p, answer)
      case Other(_) => RoomStep(room, []);
    Step(rooms[g := result.room], result.events)
  }

  /**
   * countdown_and_new_round: three next_round_tick events, then start_new_round,
   * which raises (and changes nothing) when the room has been deleted meanwhile.
   */
  function CountdownStep(rooms: Registry, roomCode: string, draw: Option<Sentence>): (step: Step)
    ensures step.rooms.Keys == rooms.Keys
    ensures |step.events| == TICKS + (if GroupName(roomCode) in rooms && draw.Some? then 5 else 0)
    ensures forall h :: h in rooms ==> step.rooms[h].players == rooms[h].players
  {
    var g := GroupName(roomCode);
    if g in rooms then
      var start := StartRound(rooms[g], draw);
      Step(rooms[g := start.room], NextRoundTicks(TICKS) + start.events)
    else
      Step(rooms, NextRoundTicks(TICKS))
  }

  /** Successive buzzer presses against one room, as the event loop applies them. */
  function PressAll(r: Room, presses: seq<PlayerId>): (step: RoomStep)
    ensures step.room.players == r.players && step.room.playerScores == r.playerScores
    ensures step.room.question == r.question
    ensures |step.events| <= |presses|
    ensures forall i :: 0 <= i < |step.events| ==> step.events[i].BuzzerActivated?
    decreases |presses|
  {
    if presses == [] then RoomStep(r, [])
    else
      var first := Press(r, presses[0]);
      var rest := PressAll(first.room, presses[1..]);
      RoomStep(rest.room, first.events + rest.events)
  }
}
