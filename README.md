# KanaClash buzzer game: the room table of the WebSocket game consumer

This project models, in Dafny, the core of KanaClash's two-player Japanese quiz: the
`GameConsumer` WebSocket consumer in `game/consumers.py` and the process-wide
`game_state` dictionary it keeps. That dictionary maps a room's group name
(`game_<room code>`) to a room record with four fields:
- the players, in join order
- the player holding the buzzer, if any
- the current question, if any
- the score of each player

The consumer changes this table when a connection opens, when it closes and when a
client message arrives. It tells the room what happened by publishing events to the
room's group. Each connection's event handlers turn those events into the JSON
messages sent to its own client.

Files:
- `wrappers.dfy`: `Option`, for Python's `None`-or-value fields and for partial decoders.
- `questions.dfy`: the question-bank row (`JapaneseSentence`) and the question record built from it.
- `protocol.dfy`: inbound messages, published events, and JSON values. It holds the seven outbound handlers and a decoder that reads a message back, used to prove what each handler sends.
- `rooms.dfy`: the room record and each operation's effect on the table as a function of the old table.
- `room_properties.dfy`: the lemmas about those operations.
- `consumer.dfy`: class `GameConsumer`. Its field `gameState` is the table and `published` logs every `group_send`. Its methods do the work step by step, like the source. This includes the two `for i in range(3, 0, -1)` tick loops, written as `while` loops. `Connect`, `Disconnect`, `Receive`, `CountdownAndNewRound` and `StartNewRound` are each proved equal to the step function of the same operation, and each keeps the table invariant.

The table invariant (`Rooms.RegistryValid`) says three things about every stored room:
- no player is listed twice;
- the players with a score are exactly the listed players;
- the room has at least one player.

Those five methods preserve it, and the constructor establishes it.

What the code does not do:
- There is no 10-round cap and no game-over event or winner.
- No record is kept of questions already used.
- A room can hold any number of players. A round starts in two cases:
  - a connect finds the room at exactly 2 players, whether the player joins or was already listed;
  - after every answer, once `countdown_and_new_round` has run.
- Any player may answer, whether or not they hold the buzzer. Each answer starts a new post-round countdown.
- A deleted room does not cancel a pending countdown. The ticks still go out and `start_new_round` then fails on the missing key (`crashed` in `CountdownAndNewRound`).
- Only `round_starting`, `new_question`, `buzzer_activated` and `round_result` carry `my_id`.
- When one player leaves mid-round, the round is not abandoned.

`if not room['buzzer_pressed_by']` is Python truthiness. Both `None` and an empty string leave the buzzer open, and `Rooms.BuzzerTaken` models exactly that. Channel names are never empty, so in practice the first press wins. `FirstPressWins` requires the first presser's id to be non-empty.

## Model

| member | source | states |
|---|---|---|
| `Questions.QuestionOf` | game/consumers.py:134-143 | building question_data loses nothing of the drawn row: reading the record back with `SentenceOf` gives the row again, options in the order option1..option4 |
| `Questions.SentenceOf` | game/models.py:18-27 | a question record reads back as a row exactly when it has four options |
| `Questions.QuestionRoundTrip` | game/consumers.py:134-143 | every four-option question record is the record of exactly one row |
| `Protocol.ScoresJson` | game/consumers.py:184 | the scores object has exactly the players of the score table as keys |
| `Protocol.QuestionJson` | game/consumers.py:197 | the question object has exactly the keys sentence, options, correct_answer |
| `Protocol.PlayerUpdateMessage` | game/consumers.py:175-179 | the player_update message has only type and player_count, no my_id |
| `Protocol.RoundStartingMessage` | game/consumers.py:181-186 | the round_starting message has type, scores and my_id, with my_id the recipient |
| `Protocol.CountdownTickMessage` | game/consumers.py:188-192 | the countdown_tick message has only type and count, no my_id |
| `Protocol.NewQuestionMessage` | game/consumers.py:194-200 | the new_question message has type, question, scores and my_id, with my_id the recipient |
| `Protocol.BuzzerActivatedMessage` | game/consumers.py:202-208 | the buzzer_activated message has type, player_id, my_id and question, with my_id the recipient |
| `Protocol.RoundResultMessage` | game/consumers.py:210-218 | the round_result message has type, is_correct, correct_answer, scores, answered_by and my_id, with my_id the recipient |
| `Protocol.NextRoundTickMessage` | game/consumers.py:220-224 | the next_round_tick message has only type and count, no my_id |
| `Protocol.Deliver` | game/consumers.py:175-224 | each event is handled by the handler of its own type, and the message's type field names that type |
| `Protocol.ScoresRoundTrip` | game/consumers.py:184 | a client reading the scores object gets back exactly the score table |
| `Protocol.QuestionJsonRoundTrip` | game/consumers.py:197 | a client reading the question object gets back exactly the question record |
| `Protocol.DeliverRoundTrip` | game/consumers.py:175-224 | every outbound message reads back as exactly its event; my_id is present, and equal to the recipient, exactly for round_starting, new_question, buzzer_activated and round_result |
| `Protocol.DeliverInjective` | game/consumers.py:175-224 | distinct events never produce the same message for a recipient |
| `Rooms.GroupName` | game/consumers.py:13 | the group name is `game_` followed by the room code |
| `Rooms.GroupNameInjective` | game/consumers.py:13 | different room codes get different table entries and groups |
| `Rooms.RemoveFirst` | game/consumers.py:51 | list.remove drops exactly one element of a list that holds the player. Python raises ValueError for an absent player; the function returns the list unchanged instead, which is harmless because disconnect calls it only after its membership check (game/consumers.py:50) |
| `Rooms.RemoveFirstSplices` | game/consumers.py:51 | list.remove cuts out exactly the first occurrence and keeps the rest in order |
| `Rooms.RemoveFirstAt` | game/consumers.py:51 | after list.remove, each position holds the element at that position of the old list, or the one after it once past the removed player |
| `Rooms.RemoveFirstNoDuplicates` | game/consumers.py:51 | list.remove keeps a duplicate-free list duplicate-free |
| `Rooms.RemoveFirstUnique` | game/consumers.py:51 | on a list without duplicates, removal keeps it duplicate-free and removes exactly that player |
| `Rooms.AddPlayer` | game/consumers.py:29-31 | the joiner is listed afterwards; the old list is a prefix that grows by at most one; a listed player changes nothing; a new player gets score 0; other scores, the holder and the question stay |
| `Rooms.StartRound` | game/consumers.py:124-171 | players and scores stay; nothing is published exactly when no row was drawn; with a row, the buzzer is cleared and the row's question installed |
| `Rooms.ConnectStep` | game/consumers.py:11-45 | the table gains the room's key and nothing else; the joiner is listed; the first event is player_update with the room's new player count; other rooms are untouched |
| `Rooms.DisconnectStep` | game/consumers.py:47-56 | no room is added; other rooms are untouched; a listed player loses their score; a room left in the table still has players |
| `Rooms.RemovePlayer` | game/consumers.py:50-52 | a listed player loses their score and the list shrinks by one; an unlisted player changes nothing; remaining scores, the holder and the question stay |
| `Rooms.Press` | game/consumers.py:65-76 | a press is announced exactly when the buzzer is open (line 67 tests Python truthiness, so a holder of None or "" leaves it open), and then the presser becomes the holder and one buzzer_activated with the current question goes out; otherwise the room is unchanged; players, scores and question always stay |
| `Rooms.Answer` | game/consumers.py:78-99 | the sender's score moves by exactly one, and upward exactly when the answer equals the stored correct answer; the scored players stay; one round_result naming the sender goes out |
| `Rooms.ReceiveStep` | game/consumers.py:60-99 | the set of rooms, the room's players and its scored players stay; at most one event is published, and exactly one for an answer; other rooms are untouched |
| `Rooms.CountdownStep` | game/consumers.py:103-118 | the set of rooms and every room's players stay; three ticks go out, plus five round events when the room exists and a row was drawn |
| `Rooms.PressAll` | game/consumers.py:65-76 | over any sequence of presses, players, scores and question stay, and only buzzer_activated events go out, at most one per press |
| `RoomProperties.JoinPreservesValid` | game/consumers.py:20-31 | the room-creation and join part of connect keeps the table invariant |
| `RoomProperties.AddPlayerConsistent` | game/consumers.py:29-31 | joining keeps players duplicate-free and the scored players equal to the listed ones, adding exactly the joiner |
| `RoomProperties.StartRoundKeepsPlayers` | game/consumers.py:124-144 | starting a round changes neither the players nor the scores |
| `RoomProperties.ConnectCreatesRoomOnlyWhenAbsent` | game/consumers.py:20-31 | an absent key gets a fresh room (lines 20-26), so connect creates the record ([p], no holder, no question, {p: 0}) only for an absent key; an existing room keeps its players as a prefix and its other scores; a listed player's score is kept; other rooms are untouched |
| `RoomProperties.ConnectPreservesValid` | game/consumers.py:28-45 | after connect every room is duplicate-free, scored exactly by its players and non-empty; the joiner is listed, and a new joiner has score 0 |
| `RoomProperties.ConnectAnnounces` | game/consumers.py:33-45 | connect first publishes player_update with the new player count (old count, plus one for a new player); a round starts, with a reopened buzzer and the drawn question, exactly when the count is 2 and a row was drawn; at a count of 2 the events after player_update are exactly those start_new_round publishes for the joined room |
| `RoomProperties.ConnectTwice` | game/consumers.py:28-45 | a repeated connect keeps the players and scores; unless the room has exactly two players, it changes nothing and only re-announces the count |
| `RoomProperties.DisconnectRemoves` | game/consumers.py:47-56 | disconnect removes the player and their score, keeps the other players in order with their scores, the holder and the question; it deletes the room exactly when it held only that player; it is a no-op for an absent room or player; other rooms are untouched |
| `RoomProperties.DisconnectIdempotent` | game/consumers.py:47-56 | disconnecting twice equals disconnecting once |
| `RoomProperties.RemoveAppended` | game/consumers.py:51 | removing the player appended last gives back the earlier list |
| `RoomProperties.RemovePlayerUndoesAdd` | game/consumers.py:29-52 | leaving undoes joining for a player who was not listed |
| `RoomProperties.ConnectThenDisconnect` | game/consumers.py:11-56 | connect then disconnect of a new player restores every room's players and scores, and the whole table when no round was started: the room did not reach two players, or no row was drawn |
| `RoomProperties.PressesWhileTakenIgnored` | game/consumers.py:65-67 | while the buzzer is held, any number of presses change nothing and publish nothing |
| `RoomProperties.FirstPressWins` | game/consumers.py:65-76 | from an open buzzer, any sequence of presses leaves the first presser as holder and publishes exactly one buzzer_activated, with that player and the current question |
| `RoomProperties.AnswerScores` | game/consumers.py:78-99 | an answer moves the sender's score by +1 when it equals the stored correct answer and by -1 otherwise; other scores, players, holder and question stay; one round_result with the verdict, correct answer, new scores and sender is published |
| `RoomProperties.AnswerIgnoresBuzzer` | game/consumers.py:78-87 | an answer has the same effect whoever holds the buzzer |
| `RoomProperties.ReceivePreservesValid` | game/consumers.py:60-99 | receive keeps the table invariant, the set of rooms and every other room |
| `RoomProperties.OtherMessageIgnored` | game/consumers.py:60-78 | a message whose type is neither buzzer_press nor answer_selected changes nothing and publishes nothing |
| `RoomProperties.StartRoundEffect` | game/consumers.py:124-171 | with no row, nothing changes and nothing is published; with a row, the buzzer reopens, the question is installed, and round_starting, countdown_tick 3, 2, 1 and new_question are published in that order |
| `RoomProperties.StartRoundReopensBuzzer` | game/consumers.py:131-132 | after a round starts, the next press is accepted and carries the new question |
| `RoomProperties.CountdownEffect` | game/consumers.py:103-118 | the post-round countdown publishes next_round_tick 3, 2, 1 and then the round's events; with the room gone, only the ticks go out and the table is unchanged |
| `RoomProperties.CountdownPreservesValid` | game/consumers.py:103-118 | the post-round countdown keeps the table invariant |
| `RoomProperties.TwoPlayerRound` | game/consumers.py:11-99 | two players join an empty table; the first buzzes, the second's later press is ignored, and a correct answer from the first gives scores {first: 1, second: 0} and one round_result |
| `Consumer.GameConsumer.constructor` | game/consumers.py:9 | the table starts empty and nothing has been published |
| `Consumer.GameConsumer.GroupSend` | game/consumers.py:34-40 | group_send appends exactly one broadcast for the group and leaves the table alone |
| `Consumer.GameConsumer.JoinRoom` | game/consumers.py:20-31 | in place: the room is created if absent and the player is appended with score 0 unless listed, giving AddPlayer's room; nothing is published |
| `Consumer.GameConsumer.Connect` | game/consumers.py:11-45 | in-place connect: the new table and the published events are those of ConnectStep; the invariant is kept |
| `Consumer.GameConsumer.Disconnect` | game/consumers.py:47-58 | in-place disconnect: the new table is that of DisconnectStep, nothing is published, the invariant is kept |
| `Consumer.GameConsumer.Receive` | game/consumers.py:60-101 | in-place receive: the new table and events are those of ReceiveStep; a countdown task is spawned exactly for an answer |
| `Consumer.GameConsumer.CountdownAndNewRound` | game/consumers.py:103-118 | the tick loop publishes next_round_tick 3, 2, 1; the coroutine fails exactly when the room is gone; otherwise it runs start_new_round |
| `Consumer.GameConsumer.StartNewRound` | game/consumers.py:124-171 | in place: the room becomes StartRound's room, and the announce, countdown loop and question events are published in order |

## Left out

- Timing: `asyncio.sleep` is not modelled. Each handler runs as one atomic step, so interleavings during a handler's sleeps are not covered. For example, scores can change between `round_starting` and `new_question`, and a room can be deleted during a countdown.
- `asyncio.create_task` is represented by `Receive`'s `spawnsCountdown` result. The caller runs `CountdownAndNewRound` later.
- Transport: `group_add`, `group_discard`, `accept` and `send` are not modelled. `group_send` appends to the `published` log. The handlers are functions from an event to the JSON value that is sent.
- JSON text: `json.loads` and `json.dumps` are not modelled. Inbound messages arrive already decoded as `Inbound`. A missing `type` or `answer` key, and answers that are not strings, are not covered.
- The database draw: `get_random_sentence` (a random ORM query) is a parameter, `draw: Option<Sentence>`.
- Crash paths are preconditions of `Receive`, not behaviour. These are: a message for a deleted room, an answer while no question is set, and an answer from a sender with no score entry.
- Room records are stored as values and written back into the table, not aliased dicts. No behaviour is lost: nothing else holds a reference, and channel layers copy or serialise each published message.
- Column lengths of `JapaneseSentence` (max_length 255/100) are not modelled.
- Not modelled: the other files. These are the HTTP views and routing, the ASGI set-up, and the unrelated speech-feedback script `6_Passed.py` (audio, speech-to-text, a language model, floating point).
