/** What the room steps promise: table invariants, join/leave, buzzer arbitration, scoring, rounds. */
module RoomProperties {
  import opened Wrappers
  import opened Questions
  import opened Protocol
  import opened Rooms

  // ---------------------------------------------------------------------------
  // connect
  // ---------------------------------------------------------------------------

  /** Joining keeps a room consistent and lists the player. */
  lemma AddPlayerConsistent(r: Room, p: PlayerId)
    requires Consistent(r)
    ensures Consistent(AddPlayer(r, p))
    ensures Members(AddPlayer(r, p).players) == Members(r.players) + {p}
  {
  }

  /** Joining keeps the whole table consistent and non-empty. */
  lemma JoinPreservesValid(rooms: Registry, g: string, p: PlayerId)
    requires RegistryValid(rooms)
    ensures RegistryValid(rooms[g := AddPlayer(RoomFor(rooms, g), p)])
  {
    AddPlayerConsistent(RoomFor(rooms, g), p);
  }

  /** A round changes only the buzzer and the question. */
  lemma StartRoundKeepsPlayers(r: Room, draw: Option<Sentence>)
    ensures StartRound(r, draw).room.players == r.players
    ensures StartRound(r, draw).room.playerScores == r.playerScores
  {
  }

  /**
   * connect creates a fresh room only for an absent key, and otherwise keeps the
   * existing room's players (as a prefix, in join order) and their scores.
   * No other room is touched.
   */
  lemma ConnectCreatesRoomOnlyWhenAbsent(rooms: Registry, roomCode: string, p: PlayerId, draw: Option<Sentence>)
    ensures var g := GroupName(roomCode);
            var after := ConnectStep(rooms, roomCode, p, draw).rooms;
            && after.Keys == rooms.Keys + {g}
            && (forall h :: h in rooms && h != g ==> after[h] == rooms[h])
            && (g !in rooms ==> after[g] == Room([p], None, None, map[p := 0]))
            && (g in rooms ==>
                  && rooms[g].players <= after[g].players
                  && (p in rooms[g].players ==> after[g].playerScores == rooms[g].playerScores)
                  && forall q :: q in rooms[g].playerScores && q != p ==>
                       q in after[g].playerScores && after[g].playerScores[q] == rooms[g].playerScores[q])
  {
  }

  /** connect keeps every room consistent and non-empty, and lists the player with a score. */
  lemma ConnectPreservesValid(rooms: Registry, roomCode: string, p: PlayerId, draw: Option<Sentence>)
    requires RegistryValid(rooms)
    ensures var g := GroupName(roomCode);
            var after := ConnectStep(rooms, roomCode, p, draw).rooms;
            && RegistryValid(after)
            && p in after[g].players && p in after[g].playerScores
            && (p !in RoomFor(rooms, g).players ==> after[g].playerScores[p] == 0)
  {
  }

  /**
   * connect announces the new number of players first, and starts a round (five more
   * events, buzzer cleared, drawn question installed) exactly when that number is 2
   * and a sentence was drawn.
   */
  lemma ConnectAnnounces(rooms: Registry, roomCode: string, p: PlayerId, draw: Option<Sentence>)
    ensures var g := GroupName(roomCode);
            var before := RoomFor(rooms, g);
            var step := ConnectStep(rooms, roomCode, p, draw);
            var n := |step.rooms[g].players|;
            && n == |before.players| + (if p in before.players then 0 else 1)
            && step.events[0] == PlayerUpdate(n)
            && (n == 2 && draw.Some? <==> |step.events| > 1)
            && (n == 2 && draw.Some? ==>
                  |step.events| == 6
                  && step.rooms[g].buzzerPressedBy == None
                  && step.rooms[g].question == Some(QuestionOf(draw.value)))
            && (n == 2 ==> step.events[1..] == StartRound(AddPlayer(before, p), draw).events)
            && (!(n == 2 && draw.Some?) ==>
                  step.rooms[g].buzzerPressedBy == before.buzzerPressedBy
                  && step.rooms[g].question == before.question)
  {
  }

  /**
   * Connecting an already listed player changes neither the players nor the scores;
   * unless the room holds exactly two players (then a new round starts), it changes
   * nothing at all and only re-announces the count.
   */
  lemma ConnectTwice(rooms: Registry, roomCode: string, p: PlayerId, draw1: Option<Sentence>, draw2: Option<Sentence>)
    ensures var g := GroupName(roomCode);
            var first := ConnectStep(rooms, roomCode, p, draw1);
            var second := ConnectStep(first.rooms, roomCode, p, draw2);
            var n := |first.rooms[g].players|;
            && second.rooms.Keys == first.rooms.Keys
            && (forall h :: h in first.rooms && h != g ==> second.rooms[h] == first.rooms[h])
            && second.rooms[g].players == first.rooms[g].players
            && second.rooms[g].playerScores == first.rooms[g].playerScores
            && (n != 2 ==> second == Step(first.rooms, [PlayerUpdate(n)]))
  {
  }

  // ---------------------------------------------------------------------------
  // disconnect
  // ---------------------------------------------------------------------------

  /**
   * disconnect removes the player and their score and nothing else; the room is
   * deleted exactly when it held only that player; an absent room or player is a no-op.
   */
  lemma {:induction false} DisconnectRemoves(rooms: Registry, roomCode: string, p: PlayerId)
    requires RegistryValid(rooms)
    ensures var g := GroupName(roomCode);
            var after := DisconnectStep(rooms, roomCode, p);
            && RegistryValid(after)
            && (forall h :: h != g ==> (h in after <==> h in rooms) && (h in after ==> after[h] == rooms[h]))
            && (g in rooms && p !in rooms[g].players ==> after == rooms)
            && (g in rooms ==> (g !in after <==> rooms[g].players == [p]))
            && (g !in rooms ==> after == rooms)
            && (g in after ==>
                  && p !in after[g].players && p !in after[g].playerScores
                  && after[g].players == RemoveFirst(rooms[g].players, p)
                  && Members(after[g].players) == Members(rooms[g].players) - {p}
                  && (forall q :: q in after[g].playerScores ==> after[g].playerScores[q] == rooms[g].playerScores[q])
                  && after[g].buzzerPressedBy == rooms[g].buzzerPressedBy
                  && after[g].question == rooms[g].question)
  {
    var g := GroupName(roomCode);
    if g in rooms {
      var room := rooms[g];
      assert Consistent(room) && room.players != [];
      RemoveFirstUnique(room.players, p);
      if p in room.players {
        var rest := RemoveFirst(room.players, p);
        assert rest == [] <==> room.players == [p] by {
          if rest == [] {
            assert room.players == [room.players[0]];
          }
        }
      } else {
        assert room.players != [p];
      }
    }
  }

  /** Disconnecting twice is the same as disconnecting once. */
  lemma {:induction false} DisconnectIdempotent(rooms: Registry, roomCode: string, p: PlayerId)
    requires RegistryValid(rooms)
    ensures var once := DisconnectStep(rooms, roomCode, p);
            DisconnectStep(once, roomCode, p) == once
  {
    DisconnectRemoves(rooms, roomCode, p);
  }

  /** Removing a player appended last gives back the list it was appended to. */
  lemma {:induction false} RemoveAppended(s: seq<PlayerId>, p: PlayerId)
    requires p !in s
    ensures RemoveFirst(s + [p], p) == s
  {
    if s != [] {
      RemoveAppended(s[1..], p);
      assert (s + [p])[1..] == s[1..] + [p];
    }
  }

  /** Leaving undoes joining, for a player who was not listed. */
  lemma {:induction false} RemovePlayerUndoesAdd(r: Room, p: PlayerId)
    requires Consistent(r) && p !in r.players
    ensures RemovePlayer(AddPlayer(r, p), p) == r
  {
    RemoveAppended(r.players, p);
    assert p !in r.playerScores;
    assert r.playerScores[p := 0] - {p} == r.playerScores;
  }

  /**
   * A player who was not in the room and connects, then disconnects, leaves every
   * room with the players and scores it had; when that connect started no round
   * (the room did not then reach two players, or no row was drawn), the table is
   * exactly as before.
   */
  lemma {:induction false} ConnectThenDisconnect(rooms: Registry, roomCode: string, p: PlayerId, draw: Option<Sentence>)
    requires RegistryValid(rooms)
    requires GroupName(roomCode) !in rooms || p !in rooms[GroupName(roomCode)].players
    ensures var g := GroupName(roomCode);
            var after := DisconnectStep(ConnectStep(rooms, roomCode, p, draw).rooms, roomCode, p);
            && after.Keys == rooms.Keys
            && (forall h :: h in rooms ==>
                  after[h].players == rooms[h].players && after[h].playerScores == rooms[h].playerScores)
            && (|RoomFor(rooms, g).players| != 1 || draw.None? ==> after == rooms)
  {
    var g := GroupName(roomCode);
    var before := RoomFor(rooms, g);
    assert Consistent(before) by {
      if g in rooms { assert Consistent(rooms[g]); }
    }
    var joined := AddPlayer(before, p);
    RemovePlayerUndoesAdd(before, p);
    var connected := ConnectStep(rooms, roomCode, p, draw).rooms;
    var after := DisconnectStep(connected, roomCode, p);
    if g !in rooms {
      assert connected == rooms[g := joined];
      assert RemovePlayer(joined, p).players == [];
      assert after == connected - {g};
      assert after == rooms;
    } else if |before.players| != 1 {
      assert connected == rooms[g := joined];
      assert after == connected[g := before];
      assert after == rooms;
    } else if draw.None? {
      assert connected == rooms[g := joined];
      assert after == connected[g := before];
      assert after == rooms;
    } else {
      var started := StartRound(joined, draw).room;
      assert connected == rooms[g := started];
      assert RemovePlayer(started, p) == RemovePlayer(joined, p).(buzzerPressedBy := started.buzzerPressedBy, question := started.question);
      assert after == rooms[g := RemovePlayer(started, p)];
    }
  }

  // ---------------------------------------------------------------------------
  // buzzer_press
  // ---------------------------------------------------------------------------

  /** While the buzzer is held, any number of presses change nothing and publish nothing. */
  lemma {:induction false} PressesWhileTakenIgnored(r: Room, presses: seq<PlayerId>)
    requires BuzzerTaken(r.buzzerPressedBy)
    ensures PressAll(r, presses) == RoomStep(r, [])
    decreases |presses|
  {
    if presses != [] {
      PressesWhileTakenIgnored(r, presses[1..]);
    }
  }

  /**
   * First press wins: from an open buzzer, after any sequence of presses the holder is
   * the first presser, exactly one buzzer_activated (with that player and the current
   * question) was published, and nothing else in the room changed.
   */
  lemma {:induction false} FirstPressWins(r: Room, presses: seq<PlayerId>)
    requires !BuzzerTaken(r.buzzerPressedBy)
    requires presses != [] && presses[0] != ""
    ensures PressAll(r, presses)
            == RoomStep(r.(buzzerPressedBy := Some(presses[0])), [BuzzerActivated(presses[0], r.question)])
  {
    var first := Press(r, presses[0]);
    PressesWhileTakenIgnored(first.room, presses[1..]);
  }

  // ---------------------------------------------------------------------------
  // answer_selected
  // ---------------------------------------------------------------------------

  /**
   * An answer moves the sender's score by +1 when it equals the stored correct answer
   * and by -1 otherwise; every other score, the players, the buzzer holder and the
   * question stay; one round_result with the verdict and the new scores is published.
   */
  lemma AnswerScores(r: Room, p: PlayerId, answer: string)
    requires r.question.Some? && p in r.playerScores
    ensures var step := Answer(r, p, answer);
            var correct := answer == r.question.value.correctAnswer;
            && step.room.playerScores.Keys == r.playerScores.Keys
            && step.room.playerScores[p] == r.playerScores[p] + (if correct then 1 else -1)
            && (forall q :: q in r.playerScores && q != p ==> step.room.playerScores[q] == r.playerScores[q])
            && step.room.players == r.players
            && step.room.buzzerPressedBy == r.buzzerPressedBy
            && step.room.question == r.question
            && step.events == [RoundResult(correct, r.question.value.correctAnswer, step.room.playerScores, p)]
  {
  }

  /** Scoring does not consult the buzzer: whoever holds it, the answer has the same effect. */
  lemma AnswerIgnoresBuzzer(r: Room, p: PlayerId, answer: string, holder: Option<PlayerId>)
    requires r.question.Some? && p in r.playerScores
    ensures var free := Answer(r, p, answer);
            Answer(r.(buzzerPressedBy := holder), p, answer)
            == RoomStep(free.room.(buzzerPressedBy := holder), free.events)
  {
  }

  // ---------------------------------------------------------------------------
  // receive
  // ---------------------------------------------------------------------------

  /** receive keeps every room consistent and non-empty; other rooms are untouched. */
  lemma ReceivePreservesValid(rooms: Registry, roomCode: string, p: PlayerId, msg: Inbound)
    requires RegistryValid(rooms) && CanReceive(rooms, roomCode, p, msg)
    ensures var after := ReceiveStep(rooms, roomCode, p, msg).rooms;
            && RegistryValid(after)
            && after.Keys == rooms.Keys
            && forall h :: h in rooms && h != GroupName(roomCode) ==> after[h] == rooms[h]
  {
  }

  /** Messages of any other type leave the table and the group untouched. */
  lemma OtherMessageIgnored(rooms: Registry, roomCode: string, p: PlayerId, kind: string)
    requires GroupName(roomCode) in rooms
    requires kind != "buzzer_press" && kind != "answer_selected"
    ensures ReceiveStep(rooms, roomCode, p, Other(kind)) == Step(rooms, [])
  {
  }

  // ---------------------------------------------------------------------------
  // start_new_round and countdown_and_new_round
  // ---------------------------------------------------------------------------

  /**
   * Without a sentence a round changes nothing and publishes nothing. With one, it
   * reopens the buzzer, installs the question (options in order option1..option4)
   * and publishes round_starting, countdown_tick 3, 2, 1 and new_question, in that order.
   */
  lemma StartRoundEffect(r: Room, draw: Option<Sentence>)
    ensures draw.None? ==> StartRound(r, draw) == RoomStep(r, [])
    ensures draw.Some? ==>
              var step := StartRound(r, draw);
              var q := QuestionOf(draw.value);
              && step.room == Room(r.players, None, Some(q), r.playerScores)
              && q.options == [draw.value.option1, draw.value.option2, draw.value.option3, draw.value.option4]
              && |step.events| == 5
              && step.events[0] == RoundStarting(r.playerScores)
              && step.events[1] == CountdownTick(3)
              && step.events[2] == CountdownTick(2)
              && step.events[3] == CountdownTick(1)
              && step.events[4] == NewQuestion(q, r.playerScores)
  {
  }

  /** After a round starts, the next press is accepted and announced with the new question. */
  lemma StartRoundReopensBuzzer(r: Room, s: Sentence, p: PlayerId)
    ensures var next := StartRound(r, Some(s)).room;
            Press(next, p) == RoomStep(next.(buzzerPressedBy := Some(p)), [BuzzerActivated(p, Some(QuestionOf(s)))])
  {
  }

  /**
   * The post-round countdown publishes next_round_tick 3, 2, 1 and then the round's
   * own events; if the room is gone the table is unchanged and only the ticks went out.
   */
  lemma CountdownEffect(rooms: Registry, roomCode: string, draw: Option<Sentence>)
    ensures var g := GroupName(roomCode);
            var step := CountdownStep(rooms, roomCode, draw);
            && |step.events| >= 3
            && step.events[..3] == [NextRoundTick(3), NextRoundTick(2), NextRoundTick(1)]
            && (g !in rooms ==> step == Step(rooms, step.events[..3]))
            && (g in rooms ==>
                  step.events[3..] == StartRound(rooms[g], draw).events
                  && step.rooms == rooms[g := StartRound(rooms[g], draw).room])
  {
  }

  /** The post-round countdown keeps every room consistent and non-empty. */
  lemma CountdownPreservesValid(rooms: Registry, roomCode: string, draw: Option<Sentence>)
    requires RegistryValid(rooms)
    ensures RegistryValid(CountdownStep(rooms, roomCode, draw).rooms)
  {
  }

  // ---------------------------------------------------------------------------
  // A whole exchange
  // ---------------------------------------------------------------------------

  /**
   * Two players join an empty table, the first buzzes, the second buzzes too late,
   * and the first answers correctly: scores are 1 and 0 and exactly one
   * buzzer_activated went out for the round.
   */
  lemma TwoPlayerRound(roomCode: string, a: PlayerId, b: PlayerId, s: Sentence)
    requires a != b && a != ""
    ensures var g := GroupName(roomCode);
            var t1 := ConnectStep(map[], roomCode, a, Some(s));
            var t2 := ConnectStep(t1.rooms, roomCode, b, Some(s));
            var t3 := ReceiveStep(t2.rooms, roomCode, a, BuzzerPress);
            var t4 := ReceiveStep(t3.rooms, roomCode, b, BuzzerPress);
            var t5 := ReceiveStep(t4.rooms, roomCode, a, AnswerSelected(s.correctAnswer));
            && t1.events == [PlayerUpdate(1)]
            && t2.events[0] == PlayerUpdate(2) && |t2.events| == 6
            && t3.events == [BuzzerActivated(a, Some(QuestionOf(s)))]
            && t4.events == []
            && t5.rooms[g].playerScores == map[a := 1, b := 0]
            && t5.events == [RoundResult(true, s.correctAnswer, map[a := 1, b := 0], a)]
  {
  }
}
