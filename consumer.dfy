/**
 * GameConsumer's shared state and its handlers, performed step by step on the
 * table the way the consumer does: `gameState` is the class-level `game_state`
 * dictionary, and `published` records every group_send in order.
 */
module Consumer {
  import opened Wrappers
  import opened Questions
  import opened Protocol
  import opened Rooms
  import opened RoomProperties

  /** The broadcasts that publishing `events` to group `g` appends, in order. */
  function Sent(g: string, events: seq<Event>): seq<Broadcast> {
    seq(|events|, i requires 0 <= i < |events| => Broadcast(g, events[i]))
  }

  class GameConsumer {
    /** The process-wide table of rooms, keyed by group name. */
    var gameState: Registry
    /** Every event published with group_send so far, with its group. */
    var published: seq<Broadcast>

    ghost predicate Valid()
      reads this
    {
      RegistryValid(gameState)
    }

    constructor ()
      ensures Valid() && gameState == map[] && published == []
    {
      gameState := map[];
      published := [];
    }

    /** group_send: append one event for group `g`. */
    method GroupSend(g: string, e: Event)
      modifies this
      ensures gameState == old(gameState)
      ensures published == old(published) + [Broadcast(g, e)]
    {
      published := published + [Broadcast(g, e)];
    }

    /**
     * connect for the connection `channelName` on `roomCode`; `draw` is the row the
     * database returns if this connect starts a round.
     */
    method Connect(roomCode: string, channelName: PlayerId, draw: Option<Sentence>)
      requires Valid()
      modifies this
      ensures Valid()
      ensures var step := ConnectStep(old(gameState), roomCode, channelName, draw);
              gameState == step.rooms && published == old(published) + Sent(GroupName(roomCode), step.events)
    {
      var g := GroupName(roomCode);
      ghost var step := ConnectStep(gameState, roomCode, channelName, draw);
      JoinPreservesValid(gameState, g, channelName);
      var room := JoinRoom(g, channelName);
      GroupSend(g, PlayerUpdate(|room.players|));
      assert published == old(published) + Sent(g, [PlayerUpdate(|room.players|)]);
      if |room.players| == 2 {
        StartNewRound(roomCode, draw);
        assert step.events == [PlayerUpdate(2)] + StartRound(room, draw).events;
      } else {
        assert step.events == [PlayerUpdate(|room.players|)];
      }
    }

    /** connect's table update: create the room if absent, then list the player with score 0. */
    method JoinRoom(g: string, playerId: PlayerId) returns (room: Room)
      modifies this
      ensures room == AddPlayer(RoomFor(old(gameState), g), playerId)
      ensures gameState == old(gameState)[g := room] && published == old(published)
    {
      if g !in gameState {
        gameState := gameState[g := NEW_ROOM];
      }
      room := gameState[g];
      if playerId !in room.players {
        room := room.(players := room.players + [playerId]);
        room := room.(playerScores := room.playerScores[playerId := 0]);
        gameState := gameState[g := room];
      }
    }

    /** disconnect: remove the player and their score; delete the room once empty. */
    method Disconnect(roomCode: string, playerId: PlayerId)
      requires Valid()
      modifies this
      ensures Valid()
      ensures gameState == DisconnectStep(old(gameState), roomCode, playerId)
      ensures published == old(published)
    {
      DisconnectRemoves(gameState, roomCode, playerId);
      var g := GroupName(roomCode);
      if g in gameState {
        var room := gameState[g];
        if playerId in room.players {
          room := room.(players := RemoveFirst(room.players, playerId));
          room := room.(playerScores := room.playerScores - {playerId});
          gameState := gameState[g := room];
        }
        if room.players == [] {
          gameState := gameState - {g};
        }
      }
    }

    /**
     * receive of one decoded message from `sender`. Returns whether it spawned the
     * post-round countdown task (which the caller runs later as CountdownAndNewRound).
     */
    method Receive(roomCode: string, sender: PlayerId, msg: Inbound) returns (spawnsCountdown: bool)
      requires Valid() && CanReceive(gameState, roomCode, sender, msg)
      modifies this
      ensures Valid()
      ensures var step := ReceiveStep(old(gameState), roomCode, sender, msg);
              gameState == step.rooms && published == old(published) + Sent(GroupName(roomCode), step.events)
      ensures spawnsCountdown <==> msg.AnswerSelected?
    {
      ReceivePreservesValid(gameState, roomCode, sender, msg);
      var g := GroupName(roomCode);
      var room := gameState[g];
      spawnsCountdown := false;
      match msg
      case BuzzerPress =>
        if !BuzzerTaken(room.buzzerPressedBy) {
          room := room.(buzzerPressedBy := Some(sender));
          gameState := gameState[g := room];
          GroupSend(g, BuzzerActivated(sender, room.question));
        }
      case AnswerSelected(answer) =>
        var question := room.question.value;
        var isCorrect := answer == question.correctAnswer;
        if isCorrect {
          room := room.(playerScores := room.playerScores[sender := room.playerScores[sender] + 1]);
        } else {
          room := room.(playerScores := room.playerScores[sender := room.playerScores[sender] - 1]);
        }
        gameState := gameState[g := room];
        GroupSend(g, RoundResult(isCorrect, question.correctAnswer, room.playerScores, sender));
        spawnsCountdown := true;
      case Other(_) =>
    }

    /**
     * countdown_and_new_round: three next_round_tick events, then start_new_round.
     * `crashed` is true when the room no longer exists, so that start_new_round's
     * lookup raises and the coroutine ends without touching the table.
     */
    method CountdownAndNewRound(roomCode: string, draw: Option<Sentence>) returns (crashed: bool)
      requires Valid()
      modifies this
      ensures Valid()
      ensures crashed <==> GroupName(roomCode) !in old(gameState)
      ensures var step := CountdownStep(old(gameState), roomCode, draw);
              gameState == step.rooms && published == old(published) + Sent(GroupName(roomCode), step.events)
    {
      var g := GroupName(roomCode);
      var i := TICKS;
      while i > 0
        invariant 0 <= i <= TICKS
        invariant gameState == old(gameState)
        invariant published == old(published) + Sent(g, NextRoundTicks(TICKS)[..TICKS - i])
      {
        GroupSend(g, NextRoundTick(i));
        i := i - 1;
      }
      assert NextRoundTicks(TICKS)[..TICKS] == NextRoundTicks(TICKS);
      if g !in gameState {
        crashed := true;
        return;
      }
      crashed := false;
      StartNewRound(roomCode, draw);
    }

    /** start_new_round: install the drawn question and run announce, countdown, question. */
    method StartNewRound(roomCode: string, draw: Option<Sentence>)
      requires Valid() && GroupName(roomCode) in gameState
      modifies this
      ensures Valid()
      ensures var g := GroupName(roomCode);
              var step := StartRound(old(gameState)[g], draw);
              gameState == old(gameState)[g := step.room] && published == old(published) + Sent(g, step.events)
    {
      var g := GroupName(roomCode);
      var room := gameState[g];
      StartRoundKeepsPlayers(room, draw);
      if draw.None? {
        return;
      }
      var sentence := draw.value;
      room := room.(buzzerPressedBy := None);
      var questionData := Question(
        sentence.sentence,
        [sentence.option1, sentence.option2, sentence.option3, sentence.option4],
        sentence.correctAnswer);
      room := room.(question := Some(questionData));
      gameState := gameState[g := room];
      GroupSend(g, RoundStarting(room.playerScores));
      var i := TICKS;
      while i > 0
        invariant 0 <= i <= TICKS
        invariant gameState == old(gameState)[g := room]
        invariant published == old(published) + Sent(g, [RoundStarting(room.playerScores)] + CountdownTicks(TICKS)[..TICKS - i])
      {
        GroupSend(g, CountdownTick(i));
        i := i - 1;
      }
      assert CountdownTicks(TICKS)[..TICKS] == CountdownTicks(TICKS);
      GroupSend(g, NewQuestion(questionData, room.playerScores));
    }
  }
}
