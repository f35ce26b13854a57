# Usernode dapp starter, modelled in Dafny

This project models the logic of the Usernode dapp starter: the browser
bridge that dapps load to send and find transactions, the local development
server with its mock node, and the example dapps built on it. Each example
replays the transactions the node lists to rebuild its state, so most of the
model is deterministic replay and validation over lists of transactions.

- **Falling sands** (`SandFrames`, `SandEngine`, `SandDraw`, `Wire`): each tick
  the server diffs the cell buffer against the previous frame, builds at most
  one keyframe and at most one delta message, and serves every ready client
  once. The frame diff and the delta writer are loops over arrays. The
  clients are objects with their `open`, `ready`, `needsKeyframe` and
  `pongPending` flags. The standalone `examples/falling-sands/server.js`
  runs the same tick (lines 333-475), session handlers (lines 255-303) and
  drawing cursor (`processDrawings`, lines 116-139) as
  `examples/falling-sands/engine.js`, so one model covers both. The rows
  below cite the engine's copy.
- **Tetris** (`Tetris`): the board rules of `TetrisGame`. This covers
  collision, moves, rotation (undone on collision), locking, line clearing and
  scoring, the drop loops, and the top-10 high-score table.
- **Snake client** (`SnakeApp`): one tick of the classic and ranked game, the
  ranked and battle countdowns, and the display helpers.
- **Transaction-replay ledgers**:
  - the CIS survey builder and vote tally (`CisText`, `CisSurveys`,
    `CisResults`);
  - last-one-wins' round and pot machine (`LastOneWins`);
  - the snake and snake-arena leaderboards (`SnakeCommon`, `Snake`,
    `SnakeArena`);
  - the tetris-arena board replayed in its game logic and kept live by its
    server (`TetrisArenaLogic`, `TetrisArenaServer`).
- **Attested scores**: Merge Master and Snake Arena share a canonical
  serialiser (`Attestation`) and a mock ledger (`MockStore`). Each validates
  score claims, signs them, verifies the attested memos that come back, and
  builds the leaderboard from them (`MergeMaster`, `SnakeArenaServer`).
- **Bridges**: the shared `usernode-bridge.js` (`UsernodeBridge`) and Merge
  Master's variant (`MergeBridge`). They cover how a sent transaction is
  recognised in later listings, the polling wait, the native call table and
  the cached mock probe.
- **Development server** (`DevServer`): the path-containment check, content
  types, and the mock send and list endpoints.

Generic pieces used by several modules:
- `Ranking`: the stable descending sort of every leaderboard.
- `Boards`: best-per-address boards.
- `OrderedMaps`: a JavaScript `Map` with its key order.
- `JsValues`: the JSON values, truthiness, `String`, `trim`, `parseInt`, `Number` and the coercing `>`.

Time, randomness, HMAC, `JSON.stringify` string quoting, `Date.parse`, the
path functions of Node, the WASM universe and zlib are parameters of the
model.

## Model

| member | source | states |
|---|---|---|
| Wire.U32BE | examples/falling-sands/engine.js:223 | four bytes, the first the most significant and the last the least significant byte of `v` |
| Wire.U32RoundTrip | examples/falling-sands/engine.js:223-226 | reading back the four bytes written for `v` gives `v` |
| Wire.WriteU32BE | examples/falling-sands/engine.js:226 | writing at `pos` changes exactly the four bytes there, to the big-endian bytes of `v`; every other byte is unchanged |
| SandFrames.ChangedOffsets | examples/falling-sands/engine.js:186-194 | the offsets of the cells whose first three bytes differ from the previous frame: each such cell once, ascending, and no other |
| SandFrames.ChangedBelowExact | examples/falling-sands/engine.js:189-193 | the change list holds exactly the changed cells, in strictly ascending order |
| SandFrames.NoChangesAgainstItself | examples/falling-sands/engine.js:189-193 | a frame compared with itself has no changed cell |
| SandFrames.Diff | examples/falling-sands/engine.js:187-194 | the comparison loop over every fourth byte returns exactly `ChangedOffsets` of the two frames |
| SandFrames.EncodeKeyframe | examples/falling-sands/engine.js:209-216 | a keyframe is the type byte 0x01 followed by the whole frame, `1 + FRAME_SIZE` bytes |
| SandFrames.EncodeDelta | examples/falling-sands/engine.js:219-230 | a delta is `5 + 8n` bytes long and starts with the type byte 0x02 (its content is stated by `DeltaRoundTrip`) |
| SandFrames.BuildKeyframe | examples/falling-sands/engine.js:209-216 | the allocated buffer, after the type byte and the frame copy, holds `EncodeKeyframe(frame)` |
| SandFrames.BuildDelta | examples/falling-sands/engine.js:219-230 | the allocated `5 + 8n` byte buffer, after the header and one record per offset in order, holds `EncodeDelta` |
| SandFrames.Decode | examples/falling-sands/engine.js:24-25 | a viewer reads a keyframe or a delta by its type byte, and nothing from any other message |
| SandFrames.KeyframeRoundTrip | examples/falling-sands/engine.js:209-216 | a keyframe decodes to the frame it carries |
| SandFrames.DeltaRoundTrip | examples/falling-sands/engine.js:218-231 | a delta decodes to exactly the entries it was built from, in order |
| SandFrames.DeltaReconstructs | examples/falling-sands/engine.js:186-231 | a viewer holding the previous frame that applies the delta of the changed cells ends up with the current frame on every byte the server compares |
| SandFrames.Decide | examples/falling-sands/engine.js:204-235 | skip exactly when a previous frame exists, nothing changed and nobody waits; a delta only for a non-empty change list whose message is shorter than a frame, and always then; a keyframe whenever someone waits, and otherwise only in place of a delta; with no previous frame and nobody waiting nothing is encoded |
| SandFrames.EncodeTick | examples/falling-sands/engine.js:186-235 | the comparison, the early return and the delta construction together agree with `Decide` |
| SandFrames.IdenticalFrameSkipped | examples/falling-sands/engine.js:204 | an unchanged frame with nobody waiting for a keyframe is not re-sent |
| SandFrames.LargeChangeFallsBackToKeyframe | examples/falling-sands/engine.js:219-234 | when more than half the cells changed no delta is built and the whole frame is sent |
| SandEngine.Client.constructor | examples/falling-sands/engine.js:133 | a new socket is open, not ready, not waiting for a keyframe, and has no pong pending |
| SandEngine.Snapshot | examples/falling-sands/engine.js:237-243 | the open ready sockets in iteration order, each with whether it waited for a keyframe; distinct sockets give recipients on distinct sockets |
| SandEngine.SnapshotComplete | examples/falling-sands/engine.js:238-242 | every open ready socket is in the snapshot |
| SandEngine.SnapshotWaiters | examples/falling-sands/engine.js:196-201 | a recipient in the snapshot that waits for a keyframe implies that the keyframe was requested |
| SandEngine.Choose | examples/falling-sands/engine.js:258-261 | a delivery, if any, goes to this recipient and only while its socket is open (which message it carries is stated by `DeliveriesSound`) |
| SandEngine.DeliveriesSound | examples/falling-sands/engine.js:257-262 | every delivery goes to an open recipient, a waiting recipient gets the compressed keyframe whenever one exists, and each message is the one its kind names |
| SandEngine.DeliveriesComplete | examples/falling-sands/engine.js:257-262 | every recipient still open gets a message whenever any message was compressed, and no second one when the recipients are distinct sockets |
| SandEngine.Deliveries | examples/falling-sands/engine.js:257-262 | at most one delivery per recipient, each to a recipient of the snapshot, and no socket receives two messages when the recipients are distinct sockets |
| SandEngine.Deliver | examples/falling-sands/engine.js:257-262 | the send loop yields `Deliveries` of the recipients: one `Choose` per recipient, in order |
| SandEngine.FanOutResult | examples/falling-sands/engine.js:247-262 | a broadcast to distinct sockets sends each socket at most one message |
| SandEngine.SandStreamer.Attach | examples/falling-sands/engine.js:112-113 | the server exists afterwards; only that flag changes |
| SandEngine.SandStreamer.Connect | examples/falling-sands/engine.js:124-133 | a new open socket with no pong pending joins the clients |
| SandEngine.SandStreamer.Disconnect | examples/falling-sands/engine.js:156-160 | the closed socket leaves the clients |
| SandEngine.SandStreamer.OnPong | examples/falling-sands/engine.js:134 | the socket's pong flag is cleared |
| SandEngine.SandStreamer.OnMessage | examples/falling-sands/engine.js:136-154 | `ping` is answered with `pong`; a ready command on an open socket sends the grid size and marks it ready and waiting for a keyframe; a reset resets the universe; anything else is ignored |
| SandEngine.SandStreamer.KeepAliveSweep | examples/falling-sands/engine.js:115-121 | a socket whose previous ping is unanswered is closed; the others are pinged, in order, and every socket ends with a pong pending; nothing else changes |
| SandEngine.SandStreamer.AnyNeedsKeyframe | examples/falling-sands/engine.js:196-202 | true exactly when some open ready socket waits for a keyframe |
| SandEngine.SandStreamer.TakeSnapshot | examples/falling-sands/engine.js:237-243 | returns `Snapshot` of the clients, whose sockets are distinct, and clears the keyframe flag of every recorded socket, and of no other |
| SandEngine.SandStreamer.Tick | examples/falling-sands/engine.js:176-245 | with no server or no socket the previous frame is forgotten; otherwise the frame is encoded as `Decide` says, becomes the previous frame, and the snapshot is taken |
| SandEngine.SandStreamer.FanOut | examples/falling-sands/engine.js:247-262 | the deliveries are `FanOutResult` of the plan (nothing when a compression fails or nobody is recorded, else `Choose` per recipient), with at most two compressions: one per requested message |
| SandEngine.WaitersGetKeyframe | examples/falling-sands/engine.js:240-261 | keyframe before delta: a recipient that waited for its keyframe and is still open receives the keyframe and never the delta (that it receives one and only one message is `DeliveriesComplete` with `FanOutResult`) |
| SandDraw.StrokesInGrid | examples/falling-sands/engine.js:70-81 | every paint call of a list of strokes lies inside the grid with a brush size from 1 to 20 |
| SandDraw.ShortStrokeSkipped | examples/falling-sands/engine.js:71 | a stroke that is not an array of at least six values paints nothing |
| SandDraw.InsidePointUnmoved | examples/falling-sands/engine.js:76-77 | a point inside the grid is painted exactly where it is |
| SandDraw.PaintStroke | examples/falling-sands/engine.js:72-80 | the inner loop paints exactly the stroke's interpolated points, in order, clamped into the grid |
| SandDraw.PaintStrokes | examples/falling-sands/engine.js:70-81 | the outer loop paints every stroke in order |
| SandDraw.ApplyDrawMemo | examples/falling-sands/engine.js:68-83 | false and no paint for anything but a falling-sands draw memo with a stroke array; otherwise true and every stroke painted |
| SandDraw.FeedExactlyOnce | examples/falling-sands/engine.js:89-99 | a feed that grew is drawn only from where the cursor stopped, so each transaction is drawn once |
| SandDraw.FeedNothingNew | examples/falling-sands/engine.js:89-99 | with no new transaction nothing is drawn |
| SandDraw.DrawFrom | examples/falling-sands/engine.js:89-99 | the loop over the transactions from the cursor on: for each, in order, the paints of its memo, nothing for a falsy memo or one that does not parse |
| SandDraw.DrawFeed.Process | examples/falling-sands/engine.js:89-99 | draws every transaction from the cursor to the end in order and moves the cursor to the end |
| SandFrames.WriteRecord | examples/falling-sands/engine.js:226-227 | the record written at `pos` is the offset as four big-endian bytes followed by the cell's bytes, and the bytes before `pos` are kept |
| SandFrames.RecordsRoundTrip | examples/falling-sands/engine.js:219-230 | the delta records written for a list of changed cells read back as exactly those offsets and cells |
| SandEngine.SandStreamer.constructor | examples/falling-sands/engine.js:104-106 | the streamer starts unattached, with no clients and no previous frame |
| SandDraw.MemoInGrid | examples/falling-sands/engine.js:68-83 | every paint a draw memo produces lies inside the grid |
| SandDraw.DrawFeed.constructor | examples/falling-sands/engine.js:87 | no transaction has been processed yet |
| Tetris.CreateBoard | examples/tetris/script.js:36-38 | a 20 by 10 board whose every cell is empty |
| Tetris.Rotated | examples/tetris/script.js:238-251 | the clockwise turn: column `c` of the shape, read bottom to top, becomes row `c`; the result is rectangular with the side lengths swapped |
| Tetris.RotatedTwice | examples/tetris/script.js:238-251 | two turns give the half-turn: cell `(r, c)` holds the original cell `(rows-1-r, cols-1-c)` |
| Tetris.RotatedFourTimes | examples/tetris/script.js:238-251 | four turns give back the original shape |
| Tetris.RotatedWellShaped | examples/tetris/script.js:238-251 | a turned piece shape is still a non-empty rectangle of at most four by four |
| Tetris.AboveBoardOnlyWalls | examples/tetris/script.js:271-276 | a cell above the board collides exactly when it is left or right of the walls; the board is never read there |
| Tetris.OffsetIsMove | examples/tetris/script.js:262-281 | checking a collision at an offset is the same as checking the piece moved by that offset |
| Tetris.SpawnPiece | examples/tetris/script.js:131-150 | each of the seven pieces, placed at the top and centred by `floor(10/2) - floor(width/2)`, is a valid spawn position |
| Tetris.SpawnInBounds | examples/tetris/script.js:146-148 | a spawned piece lies within the side walls and above the floor |
| Tetris.Landing | examples/tetris/script.js:228-230 | the hard-drop loop moves the piece straight down only: same shape, colour and column, never higher |
| Tetris.LandingRests | examples/tetris/script.js:228-230 | the landed piece would collide one row lower, and a piece that did not collide still does not collide where it lands |
| Tetris.Locked | examples/tetris/script.js:283-294 | the board keeps its shape; every cell the piece covers holds the piece's colour and every other cell is unchanged |
| Tetris.LockedOccupies | examples/tetris/script.js:283-294 | after locking a piece on the board, the same piece collides with the board |
| Tetris.Cleared | examples/tetris/script.js:299-307 | `clearLines` keeps the board height |
| Tetris.ClearedShape | examples/tetris/script.js:299-307 | clearing keeps a 20 by 10 board and leaves no full row |
| Tetris.ClearedIdempotent | examples/tetris/script.js:299-307 | clearing a cleared board changes nothing |
| Tetris.LockedFullRows | examples/tetris/script.js:283-294 | locking one piece on a board without full rows fills at most as many rows as the piece is tall, so at most four; the points table always has an entry |
| Tetris.Points | examples/tetris/script.js:312-313 | 1 to 4 cleared lines always score a positive number of points |
| Tetris.LevelFor | examples/tetris/script.js:317 | the level is at least 1 |
| Tetris.IntervalBounds | examples/tetris/script.js:319-320 | the drop interval starts at 1000 ms, stays between 100 and 1000 ms and never grows as lines are added |
| Tetris.TetrisGame.constructor | examples/tetris/script.js:3-34 | an empty board, score 0, level 1, no lines, stopped, interval 1000 ms, the two chosen pieces as current and next, and the saved leaderboard |
| Tetris.TetrisGame.ResetGame | examples/tetris/script.js:107-129 | the same reset state as a new game: empty board, stats reset, stopped, fresh current and next pieces; the game invariant holds |
| Tetris.TetrisGame.CheckCollision | examples/tetris/script.js:262-281 | the answer is true exactly when some block of the piece, moved by the offset, is past a wall, below the floor, or on an occupied visible cell |
| Tetris.TetrisGame.MoveLeft | examples/tetris/script.js:197-204 | the piece moves one column left unless that collides, in which case it stays; the invariant is kept |
| Tetris.TetrisGame.MoveRight | examples/tetris/script.js:206-213 | the piece moves one column right unless that collides, in which case it stays; the invariant is kept |
| Tetris.TetrisGame.Rotate | examples/tetris/script.js:237-260 | the piece takes the turned shape unless that collides, in which case the original shape is restored |
| Tetris.TetrisGame.LockPiece | examples/tetris/script.js:283-294 | the board becomes the old board with the piece written into it |
| Tetris.TetrisGame.ClearLines | examples/tetris/script.js:296-324 | the number of cleared lines is the number of full rows, the board becomes the cleared board, and the score and line count grow by the table's points times the level and by the lines cleared, or stay when none was cleared |
| Tetris.TetrisGame.SpawnNewPiece | examples/tetris/script.js:152-163 | the next piece becomes current and a new next piece is chosen; a spawn that collides ends the game and stops it, otherwise the flags stay |
| Tetris.TetrisGame.Settle | examples/tetris/script.js:218-222 | lock, clear and spawn in order: the board is the cleared locked board, the next piece comes in, and a collision at spawn ends the game |
| Tetris.TetrisGame.MoveDown | examples/tetris/script.js:215-225 | the piece moves down a row when it can, leaving board and next piece alone; otherwise it settles; the drop counter is reset either way |
| Tetris.TetrisGame.DropToFloor | examples/tetris/script.js:228-230 | the piece ends where it lands, resting on the floor or on blocks |
| Tetris.TetrisGame.HardDrop | examples/tetris/script.js:227-235 | the board becomes the cleared board with the landed piece locked in, and the next piece comes in |
| Tetris.TetrisGame.Start | examples/tetris/script.js:91-98 | a stopped game starts and is no longer over; a running game is left alone |
| Tetris.TetrisGame.TogglePause | examples/tetris/script.js:100-105 | the running flag flips |
| Tetris.TetrisGame.HandleKeyPress | examples/tetris/script.js:66-89 | keys are ignored while the game is stopped or over; otherwise the arrow keys, space and P act and the invariant is kept |
| Tetris.TetrisGame.SubmitScore | examples/tetris/script.js:409-431 | a blank name is refused and changes nothing; otherwise the entry with the trimmed name and the score joins the list, which is sorted by score, best first, and cut to ten |
| CisText.DropSeparators | examples/cis/bot/cis-client.js:27 | what is left of the string after a run of characters outside `[a-z0-9]` is a suffix of it that is empty or starts with a slug character |
| CisText.Collapse | examples/cis/bot/cis-client.js:27 | every character is a slug character or `_`, no two underscores are adjacent, the result is empty only for the empty string, and it starts with `_` exactly when the input starts with a non-slug character |
| CisText.StripLeadingUnderscores | examples/cis/bot/cis-client.js:28 | a suffix of the input that is empty or does not start with `_` |
| CisText.StripTrailingUnderscores | examples/cis/bot/cis-client.js:28 | a prefix of the input that is empty or does not end with `_` |
| CisText.InfixSlugShaped | examples/cis/bot/cis-client.js:29 | cutting a slug-shaped string anywhere leaves it slug-shaped |
| CisText.Slugify | examples/cis/bot/cis-client.js:24-30 | at most 40 characters, only `[a-z0-9_]` with no double underscore, and never starting with `_` |
| CisText.LowerOfSlug | examples/cis/bot/cis-client.js:26 | lower-casing a string made of slug characters and underscores changes nothing |
| CisText.Last6 | examples/cis/bot/cis-client.js:32-35 | the last six characters of the address text, or all of it when shorter |
| CisText.DeriveDefaultUsername | examples/cis/bot/cis-client.js:37-44 | `user_unknown` for an empty address, otherwise `user_` and the last six characters, at most eleven characters in all |
| CisText.DefaultUsernameOfAddress | examples/cis/bot/cis-client.js:37-44 | for an address of six or more characters the name is `user_` and its last six characters |
| CisText.Pick | examples/cis/bot/cis-client.js:46-51 | the result is null exactly when none of the keys holds a value other than null or undefined; otherwise it is the value under one of the keys |
| CisText.NormalizeTx | examples/cis/bot/cis-client.js:74-102 | a transaction is produced exactly when the input is an object; its time is never 0 unless the clock reads 0 |
| CisText.ParseCisTx | examples/cis/bot/cis-client.js:165-173 | accepted exactly when the normalised transaction has a sender and a recipient, the recipient is the app, and the memo parses to a truthy value whose `app` is `cis` or `exocortex` |
| CisText.NormalizeSurveyDurationMs | examples/cis/bot/cis-client.js:117-132 | always one of the seven allowed durations; an allowed integer is kept, a non-finite number or any disallowed value gives seven days |
| CisText.NormalizeOption | examples/cis/bot/cis-client.js:147-153 | an option is kept exactly when it is a truthy object with a non-blank label; a kept option has that label and a non-empty key |
| CisText.TruthyText | examples/cis/bot/cis-client.js:149 | a truthy value never converts to the empty string, so the `\|\|` fallback keeps it |
| CisText.NormalizeOptions | examples/cis/bot/cis-client.js:146-154 | no more options than raw entries, each with a non-empty label and key |
| CisText.UnlabelledOptionDropped | examples/cis/bot/cis-client.js:149-150 | adding an option without a label to the raw list changes nothing |
| CisText.NormalizeSurveyDefinition | examples/cis/bot/cis-client.js:134-159 | a survey is produced exactly when the input is a truthy object with a non-blank title and question and a non-empty id base; it then has a non-empty id, title and question, an allowed duration, and the normalised options |
| CisSurveys.CreationOf | examples/cis/bot/cis-client.js:182-186 | a creation exactly when the transaction parses as CIS, its memo type is `create_survey` and its survey definition normalises; it carries the sender, which is non-empty, and the transaction time |
| CisSurveys.Creations | examples/cis/bot/cis-client.js:180-187 | no more creations than transactions |
| CisSurveys.OldestFirstOrdered | examples/cis/bot/cis-client.js:189 | the oldest-first sort gives a time-ordered permutation of the creations |
| CisSurveys.FilterAfter | examples/cis/bot/cis-client.js:196 | keeps only times after the window start, never more than there were |
| CisSurveys.FilterAfterTwice | examples/cis/bot/cis-client.js:196 | filtering twice is filtering once with the later of the two window starts |
| CisSurveys.Admit | examples/cis/bot/cis-client.js:193-199 | the admitted creations are some of the creations, never more |
| CisSurveys.WindowWithinFilter | examples/cis/bot/cis-client.js:195-196 | a window starting no earlier than the filter start holds no more times than the filter keeps |
| CisSurveys.AdmitWindowLimit | examples/cis/bot/cis-client.js:193-199 | no sender has more than three admitted creations in any 24-hour window `(T - 24h, T]` |
| CisSurveys.AdmitAfterQuiet | examples/cis/bot/cis-client.js:195-198 | a creation more than 24 hours after all of its sender's admitted ones is admitted |
| CisSurveys.QuietSender | examples/cis/bot/cis-client.js:196 | a sender whose admitted times are all before the window start has no recent times |
| CisSurveys.LatestStep | examples/cis/bot/cis-client.js:200-206 | one creation replaces the stored entry for its survey id when there is none or it is not older, and otherwise leaves the map alone |
| CisSurveys.LastWithId | examples/cis/bot/cis-client.js:200-206 | a found creation is one of the sequence's and has the asked id |
| CisSurveys.LatestIsLast | examples/cis/bot/cis-client.js:200-206 | on time-ordered creations the map holds each id once, and the entry for an id is its last creation, so ties go to the later one |
| CisSurveys.AdmitOrdered | examples/cis/bot/cis-client.js:193-199 | admission keeps the time order |
| CisSurveys.View | examples/cis/bot/cis-client.js:212-219 | the listed survey carries its creation time, expires at creation time plus its active duration, and is archived exactly when the clock has reached that expiry |
| CisSurveys.Views | examples/cis/bot/cis-client.js:212-220 | one view per stored survey, in order |
| CisSurveys.SurveyListNewestFirst | examples/cis/bot/cis-client.js:210-211 | the survey list is sorted by creation time, newest first |
| CisSurveys.LatestAdmittedWins | examples/cis/bot/cis-client.js:191-207 | the listed entry for every survey id is its latest admitted creation, and each id appears once |
| CisSurveys.CollectCreations | examples/cis/bot/cis-client.js:180-187 | the first loop collects exactly the creations of the history, in order |
| CisSurveys.AdmitOne | examples/cis/bot/cis-client.js:198-199 | admitting a creation appends its time to its own sender's times and changes no other sender's |
| CisSurveys.AdmitPrefix | examples/cis/bot/cis-client.js:197-198 | admission over one more creation appends it when the limit lets it in and otherwise is unchanged |
| CisSurveys.TrackRecent | examples/cis/bot/cis-client.js:194-197 | the stored per-sender window filters to the same recent times as the sender's full history, so the `>= 3` test decides admission exactly |
| CisSurveys.TrackAdmit | examples/cis/bot/cis-client.js:198-199 | storing the admitted creation's new window keeps the stored windows in step with the history |
| CisSurveys.AdmitEntry | examples/cis/bot/cis-client.js:193-207 | one iteration: the map becomes the latest-per-id map of the history with the creation added when admitted, and the stored windows keep tracking |
| CisSurveys.AdmitAll | examples/cis/bot/cis-client.js:191-207 | the second loop leaves the latest admitted creation per survey id |
| CisSurveys.RebuildSurveys | examples/cis/bot/cis-client.js:179-221 | the result is the survey list of the history: latest admitted creation per id, newest first, with expiry and archive flag |
| CisResults.SignedOf | examples/cis/bot/cis-client.js:237-291 | a signed transaction exactly when it parses as CIS; its sender is non-empty |
| CisResults.SignedTxs | examples/cis/bot/cis-client.js:236-290 | no more signed transactions than raw ones |
| CisResults.BaseOptionsKeyed | examples/cis/bot/cis-client.js:228-232 | the base map holds each key once; a key is in it exactly when it is non-empty and some survey option has it, and its entry carries that key |
| CisResults.CollectBaseOptions | examples/cis/bot/cis-client.js:228-232 | the first loop builds the base option map |
| CisResults.AddedOf | examples/cis/bot/cis-client.js:238-256 | a request only for an `add_option` memo naming this survey, from the transaction's sender at its time, with a non-blank trimmed label and a non-empty key |
| CisResults.OldestWins | examples/cis/bot/cis-client.js:257-265 | one entry per sender; a sender has one exactly when they sent a request, and it is their oldest request, the first among equally old ones |
| CisResults.NewOldest | examples/cis/bot/cis-client.js:258 | a request strictly older than its sender's stored one, or their first, becomes their oldest |
| CisResults.LiftOldest | examples/cis/bot/cis-client.js:258 | a request that does not replace the stored one leaves that sender's oldest request as it was |
| CisResults.CollectRequests | examples/cis/bot/cis-client.js:235-266 | the second loop leaves the oldest request per sender among this survey's requests |
| CisResults.MergeOne | examples/cis/bot/cis-client.js:273-281 | an added option keeps its key when free, else takes `key_last6(from)` when that is free, else `key_last6(from)_last4(ts)`; the map keeps one entry per key, the new entry is stored under its key and every other key is unchanged and kept |
| CisResults.MergeKeepsKeys | examples/cis/bot/cis-client.js:272-282 | merging never loses an option key and keeps one entry per key |
| CisResults.MergeOptions | examples/cis/bot/cis-client.js:269-282 | the merge loop adds the requests, oldest first, as the merge step says |
| CisResults.CastVote | examples/cis/bot/cis-client.js:312-326 | a vote, when cast, is a non-empty key of an existing option |
| CisResults.Updated | examples/cis/bot/cis-client.js:293-333 | a voter's entry after one of their transactions keeps its sender; its vote either stays or becomes the vote this transaction casts, at its time; a vote time never decreases and a cast vote is never older than the stored one |
| CisResults.LatestVoteWins | examples/cis/bot/cis-client.js:287-334 | one entry per sender; a sender has one exactly when they sent a signed transaction; its vote, if any, is one they cast for an existing option, none of their votes is later, and every vote they cast after it in the history is older, so of two votes at the same time the later one wins; a sender who cast such a vote timed at 0 or later has one recorded |
| CisResults.LiftVoter | examples/cis/bot/cis-client.js:293-333 | another sender's transaction leaves an entry and its facts as they were |
| CisResults.VoterStep | examples/cis/bot/cis-client.js:293-333 | the sender's own transaction, applied by the update, keeps the latest-vote facts |
| CisResults.CollectVoters | examples/cis/bot/cis-client.js:287-334 | the tally loop leaves the voter entries of the signed history |
| CisResults.CountOf | examples/cis/bot/cis-client.js:338-341 | a key is counted at most once per voter |
| CisResults.Counts | examples/cis/bot/cis-client.js:336-341 | the counted keys are exactly the option keys and the voted keys |
| CisResults.Tally | examples/cis/bot/cis-client.js:336-341 | the count loops build the counts map |
| CisResults.NoVotesCountZero | examples/cis/bot/cis-client.js:337 | an option nobody voted for counts 0 |
| CisResults.CountsOnlyOptions | examples/cis/bot/cis-client.js:336-341 | when every vote names an option, exactly the options are counted |
| CisResults.UsersVoteForOptions | examples/cis/bot/cis-client.js:326 | every recorded vote names an existing option |
| CisResults.BotLookup | examples/cis/bot/cis-client.js:343-346 | an entry is returned only for a given bot address that has one |
| CisResults.ComputeResults | examples/cis/bot/cis-client.js:227-349 | the method's options, counts, bot entry and bot option are those of the results function |
| CisResults.ResultsCounts | examples/cis/bot/cis-client.js:284-341 | exactly the options are counted, each with the number of senders whose latest vote (the later one on a tie) is for it, and each sender is one entry, so counts at most once |
| LastOneWins.NormalizeTx | examples/last-one-wins/game-logic.js:29-39 | a transaction exactly when the input is an object; its time falls back to the clock, so it is non-zero whenever the clock is |
| LastOneWins.Gate | examples/last-one-wins/game-logic.js:102-103 | a transaction passes exactly when it normalises and has a truthy id, sender and recipient |
| LastOneWins.Classify | examples/last-one-wins/game-logic.js:108-149 | only transactions to or from the app act; a name change and an entry must be sent to the app, a name is non-blank, an entry has a positive amount and records the sender, amount, time and id; a payout must come from the app |
| LastOneWins.InitialInv | examples/last-one-wins/game-logic.js:51-63 | the initial state (round 1, empty pot, no entries) satisfies the game invariant |
| LastOneWins.ApplyKeepsInv | examples/last-one-wins/game-logic.js:113-149 | an action keeps the invariant when any new entry is positive and comes from a fresh id that is already marked seen |
| LastOneWins.ProcessKeepsInv | examples/last-one-wins/game-logic.js:101-150 | processing any transaction keeps the invariant: the pot is the sum of the entries, every entry is positive and its id is seen, ids are distinct, names are keyed once |
| LastOneWins.ProcessAllKeepsInv | examples/last-one-wins/game-logic.js:101-150 | processing any sequence of transactions keeps the invariant |
| LastOneWins.ProcessRepeat | examples/last-one-wins/game-logic.js:104-105 | a transaction is acted on at most once: processing it again changes nothing |
| LastOneWins.ForeignOnlyMarksSeen | examples/last-one-wins/game-logic.js:105-111 | a fresh transaction neither to nor from the app, or without this game's memo, only marks its id seen |
| LastOneWins.NameLatestWins | examples/last-one-wins/game-logic.js:113-122 | a name is stored unless the sender already has a strictly newer one; other senders keep theirs |
| LastOneWins.NameTimeNeverDecreases | examples/last-one-wins/game-logic.js:116-119 | the stored time of a sender's name never goes back |
| LastOneWins.EntryStep | examples/last-one-wins/game-logic.js:124-131 | a positive entry grows the pot by its amount, is appended exactly once, becomes the last sender and entry time, and leaves the round alone |
| LastOneWins.PayoutStep | examples/last-one-wins/game-logic.js:132-149 | a payout is always added to the past rounds; when its round is the current one or later the round advances past it and pot, entries, last sender and entry time are cleared, otherwise they stay; the memo's round is taken when it is a truthy integer, else the current round (see `LastOneWins.MemoRound` under Left out) |
| LastOneWins.RoundNeverDecreases | examples/last-one-wins/game-logic.js:132-149 | over any history the round number never decreases and past rounds are only appended |
| LastOneWins.SeenGrows | examples/last-one-wins/game-logic.js:104-105 | every id that was seen stays seen |
| LastOneWins.TimeRemaining | examples/last-one-wins/game-logic.js:70-73 | no remaining time without an entry time; otherwise it is never negative, is zero exactly when the duration has elapsed, and otherwise adds up with the elapsed time to the duration |
| LastOneWins.NewestFirst | examples/last-one-wins/game-logic.js:93-94 | the last `n` items, or all when fewer, newest first |
| LastOneWins.Game.constructor | examples/last-one-wins/game-logic.js:41-64 | a missing public key or duration takes its default, and the game starts in round 1 with an empty pot, no entries, no names and nothing seen |
| LastOneWins.Game.TimerDuration | examples/last-one-wins/game-logic.js:66-68 | local development uses the two-minute mock timer, otherwise the configured duration |
| LastOneWins.Game.ProcessTransaction | examples/last-one-wins/game-logic.js:101-150 | the fields become the processed state of the old fields; the payout flags are untouched |
| LastOneWins.Game.ApplyAction | examples/last-one-wins/game-logic.js:113-149 | the fields become the state the action asks for |
| LastOneWins.Game.CheckPayout | examples/last-one-wins/game-logic.js:232-240 | no payout while one is in progress, without a last sender or entry time, or while time remains; otherwise the payout is marked in progress and takes the last sender, the pot and the round, with no time remaining |
| LastOneWins.Game.FinishPayout | examples/last-one-wins/game-logic.js:260-289 | the signer is configured once; a sent payout is processed as a transaction, a failed one changes nothing; the in-progress flag is cleared on every path |
| LastOneWins.Game.FinishMockPayout | examples/last-one-wins/game-logic.js:243-258 | in local development the injected payout is processed and the in-progress flag cleared |
| LastOneWins.Game.StateResponse | examples/last-one-wins/game-logic.js:81-99 | the newest 50 entries and newest 20 rounds, newest first; the timer has expired exactly when there is an entry time and the duration has elapsed since it; the remaining time is the timer's |
| SnakeCommon.NormalizeTx | examples/snake/game-logic.js:25-35 | a transaction exactly when the input is an object; its time is the clock's |
| SnakeCommon.Gate | examples/snake/game-logic.js:40-45 | a transaction passes exactly when it normalises with a truthy sender and recipient and a non-empty memo that parses to a truthy value whose `app` is `snake`; it then carries that parsed memo |
| SnakeCommon.DisplayName | examples/snake/game-logic.js:94 | the stored name when it is truthy, otherwise `user_` and the last six characters of the sender |
| Snake.InitialInv | examples/snake/game-logic.js:4-10 | the empty state satisfies the invariant: both boards sorted and capped at 100, one ranked row per sender, every daily count between 1 and 6 |
| Snake.ScoreSubmissionKeepsInv | examples/snake/game-logic.js:69-120 | a score submission keeps the invariant |
| Snake.BattleVictoryKeepsInv | examples/snake/game-logic.js:125-144 | a battle victory keeps the invariant |
| Snake.DispatchKeepsInv | examples/snake/game-logic.js:47-63 | every memo type keeps the invariant |
| Snake.StepKeepsInv | examples/snake/game-logic.js:40-64 | every transaction keeps the invariant |
| Snake.NotSnakeRefused | examples/snake/game-logic.js:42-45 | a transaction that is not a snake memo from a sender to a recipient is refused and changes nothing |
| Snake.BadScoreRefused | examples/snake/game-logic.js:76-78 | a negative or non-numeric score is refused and changes nothing |
| Snake.DailyAllowance | examples/snake/game-logic.js:81-90 | a ranked submission is refused, changing nothing, once the sender has six on that day; otherwise that day's count grows by exactly one, and no other count changes |
| Snake.RankedBestNeverDrops | examples/snake/game-logic.js:96-116 | no sender's ranked best goes down while it is on the board |
| Snake.SnakeGame.constructor | examples/snake/game-logic.js:4-10 | both boards, the names and the daily counts start empty |
| Snake.SnakeGame.ProcessTransaction | examples/snake/game-logic.js:40-64 | the fields and the returned flag are the processed state and flag of the old fields |
| Snake.SnakeGame.ProcessScoreSubmission | examples/snake/game-logic.js:69-120 | the fields and the flag are those of the score submission |
| Snake.SnakeGame.ProcessBattleVictory | examples/snake/game-logic.js:125-144 | the fields and the flag are those of the battle victory: the row is appended, the board sorted and cut to 100 |
| SnakeArena.BattleScore | examples/snake-arena/game-logic.js:112-114 | the parsed `score` when it parses, else the parsed `food` when that parses, else 0 |
| SnakeArena.GetUsername | examples/snake-arena/game-logic.js:145-147 | null for an unknown address; a non-null answer is the stored, truthy name |
| SnakeArena.InitialInv | examples/snake-arena/game-logic.js:2-7 | the empty state satisfies the invariant: every board sorted, the ranked and battle boards capped at 100, one row per sender on the ranked and daily boards |
| SnakeArena.TodaysRowsShape | examples/snake-arena/game-logic.js:88-89 | dropping other days' rows keeps the daily board sorted with one row per sender |
| SnakeArena.ScoreSubmissionKeepsInv | examples/snake-arena/game-logic.js:53-108 | a score submission keeps the invariant |
| SnakeArena.DispatchKeepsInv | examples/snake-arena/game-logic.js:37-50 | every memo type keeps the invariant |
| SnakeArena.StepKeepsInv | examples/snake-arena/game-logic.js:30-51 | every transaction keeps every board sorted, capped where it is, and one row per sender |
| SnakeArena.DailyOnlyToday | examples/snake-arena/game-logic.js:85-105 | after a daily submission the daily board holds only today's rows and possibly the new row |
| SnakeArena.DailyBestNeverDrops | examples/snake-arena/game-logic.js:91-96 | a sender's best daily score of today never goes down |
| SnakeArena.RankedBestNeverDrops | examples/snake-arena/game-logic.js:66-82 | no sender's ranked best goes down while it is on the board |
| SnakeArena.SnakeArenaGame.constructor | examples/snake-arena/game-logic.js:2-7 | all three boards and the names start empty |
| SnakeArena.SnakeArenaGame.ProcessTransaction | examples/snake-arena/game-logic.js:30-51 | the fields and the returned flag are the processed state and flag of the old fields |
| SnakeArena.SnakeArenaGame.ProcessScoreSubmission | examples/snake-arena/game-logic.js:53-108 | the fields and the flag are those of the score submission |
| SnakeArena.SnakeArenaGame.SubmitRanked | examples/snake-arena/game-logic.js:63-83 | the ranked board keeps the better row per sender, sorted and cut to 100; the other boards and names are unchanged |
| SnakeArena.SnakeArenaGame.SubmitDaily | examples/snake-arena/game-logic.js:85-105 | the daily board drops other days' rows, then keeps the better row per sender, sorted; the other boards and names are unchanged |
| SnakeArena.SnakeArenaGame.ProcessBattleVictory | examples/snake-arena/game-logic.js:110-131 | the fields and the flag are those of the battle victory: the row is appended, the board sorted and cut to 100 |
| Ranking.SortDesc | examples/snake/game-logic.js:115 | the stable descending sort by score gives a permutation of the board |
| Ranking.SortDescSorted | examples/snake/game-logic.js:115 | the sorted board is ordered by its keys, best first |
| Ranking.SortDescOfSorted | examples/snake/game-logic.js:115 | sorting an already sorted board changes nothing, so ties keep their order |
| Ranking.TopIsBest | examples/tetris/script.js:418-422 | the kept top `n` are sorted, are as many as `n` or the whole list, and no dropped entry beats a kept one |
| Boards.FindBy | examples/snake/game-logic.js:97 | the found row has the asked address; none is found exactly when no row has it |
| Boards.FindByUnique | examples/snake/game-logic.js:97 | with one row per address, `find` gives that row |
| Boards.Without | examples/snake/game-logic.js:103 | exactly the rows of other addresses remain |
| Boards.Keep | examples/snake-arena/game-logic.js:89 | exactly the rows satisfying the test remain |
| Boards.ScoresNonIncreasing | examples/snake/game-logic.js:115 | on a board sorted by score the scores never increase |
| Boards.SortDistinct | examples/snake/game-logic.js:115 | sorting keeps one row per address |
| Boards.ResortedMembers | examples/snake/game-logic.js:103-115 | the re-sorted board holds the new row and every row of the other senders, and nothing else |
| Boards.Submit | examples/snake/game-logic.js:96-116 | a row that does not beat the sender's best leaves the board as it was; otherwise the board is cut to its cap |
| Boards.SubmitUncappedMembers | examples/snake-arena/game-logic.js:91-104 | an uncapped submission brings in no row except the submitted one |
| Boards.SubmitKeepsBest | examples/snake/game-logic.js:96-116 | a board with one row per address, sorted by score and within its cap stays so, and a sender's best score never goes down while its row is kept |
| Boards.AppendTop | examples/snake/game-logic.js:132-141 | the battle board holds at most `cap` rows, each the new row or an old one |
| Boards.AppendTopSorted | examples/snake/game-logic.js:132-141 | the battle board stays sorted and holds the smaller of its new length and `cap` rows |
| OrderedMaps.Find | examples/cis/bot/cis-client.js:200 | `get` finds a value exactly when the key is present |
| OrderedMaps.FindSpec | examples/cis/bot/cis-client.js:200 | `get` gives the value of an entry with that key, and with distinct keys the value of the only one |
| OrderedMaps.Put | examples/cis/bot/cis-client.js:202-205 | `set` of a new key appends it at the end, as a JavaScript `Map` orders its keys |
| OrderedMaps.PutKeys | examples/cis/bot/cis-client.js:202-205 | `set` of a present key keeps the keys and their order |
| OrderedMaps.PutFind | examples/cis/bot/cis-client.js:202-205 | after `set`, `get` of that key gives the new value, every other key is unaffected, and keys stay distinct |
| TetrisArenaLogic.NormalizeTx | examples/tetris-arena/game-logic.js:26-36 | a transaction exactly when the input is an object; its time falls back to the clock, so it is non-zero whenever the clock is |
| TetrisArenaLogic.ParseGameTx | examples/tetris-arena/game-logic.js:39-45 | accepted exactly when the transaction has a sender, is sent to the app, and its memo parses to a truthy value whose `app` is `tetrisarena`; it carries that transaction |
| TetrisArenaLogic.RecordScoreSpec | examples/tetris-arena/game-logic.js:64-83 | a player's score is replaced only by one at least as recent, the first one is always stored, and no other player's score changes |
| TetrisArenaLogic.ParseAll | examples/tetris-arena/game-logic.js:55-57 | one parse per transaction, in order |
| TetrisArenaLogic.ReplayDistinct | examples/tetris-arena/game-logic.js:55-88 | the replay keeps one score per player |
| TetrisArenaLogic.ScoreStep | examples/tetris-arena/game-logic.js:62-83 | one more transaction changes a player's score only when it submits for them, and then only when there is none yet or it is at least as recent |
| TetrisArenaLogic.HasScoreIffSubmitted | examples/tetris-arena/game-logic.js:55-88 | a player has a score exactly when some transaction submits one for them |
| TetrisArenaLogic.NoSubmissionNewer | examples/tetris-arena/game-logic.js:74 | no submission for a player is more recent than the score kept for them |
| TetrisArenaLogic.KeptIsLastLatest | examples/tetris-arena/game-logic.js:63-83 | the kept score is that of a submission that no later submission for the player is as recent as, so among equally recent ones the last wins |
| TetrisArenaLogic.LatestScoreWins | examples/tetris-arena/game-logic.js:48-88 | latest score wins: a player has a score exactly when one is submitted for them, none is more recent than the kept one, and the kept one is the last of the most recent |
| TetrisArenaLogic.UsernameFor | examples/tetris-arena/game-logic.js:99 | the stored name when truthy, else `player_` and the last six characters of the address |
| TetrisArenaLogic.Rows | examples/tetris-arena/game-logic.js:91-100 | one row per recorded player |
| TetrisArenaLogic.WithRanks | examples/tetris-arena/game-logic.js:109-111 | ranking keeps the number of rows |
| TetrisArenaLogic.RowsRecorded | examples/tetris-arena/game-logic.js:91-100 | every row carries the score record and display name the book holds for its player |
| TetrisArenaLogic.BoardRanks | examples/tetris-arena/game-logic.js:109-111 | the leaderboard is numbered 1 to n, one row per recorded player |
| TetrisArenaLogic.BoardSorted | examples/tetris-arena/game-logic.js:101-106 | the leaderboard is ordered by `RowKey`: `Number(score)` descending, then `Number(lines)` descending, then the earlier time, with NaN placed as 0; where score and lines are numbers this is the comparator's order (`ComparatorAgrees`), and where they differ in type it is not (`MixedTypesTie`) |
| TetrisArenaLogic.NumberKeyOrder | examples/tetris-arena/game-logic.js:101-106 | on numbers other than NaN, one sort key stands above another exactly when its number is greater by JavaScript's `>` |
| TetrisArenaLogic.BoardByNumbers | examples/tetris-arena/game-logic.js:101-106 | down the leaderboard no row has a greater `Number(score)` than a row above it, nor, on equal `Number(score)`, greater `Number(lines)` (NaN aside); the source keeps this only while the values it compares with `!==` are all numbers |
| TetrisArenaLogic.ComparatorAgrees | examples/tetris-arena/game-logic.js:101-106 | for two rows whose score and lines are numbers, the comparator as written (the `!==` guards, then `b.k - a.k`, then `a.ts - b.ts`) puts a row first exactly when its `RowKey` precedes |
| TetrisArenaLogic.MixedTypesTie | examples/tetris-arena/game-logic.js:101-106 | a null score against a score of 0 is `!==`, so the comparator returns `0 - null`, which is 0, without looking at the lines; `RowKey` puts the row with more lines first |
| TetrisArenaLogic.BoardFollowsComparator | examples/tetris-arena/game-logic.js:101-106 | when every row's score and lines are numbers, the comparator returns a positive result for no pair taken down the leaderboard |
| TetrisArenaLogic.Minus | examples/tetris-arena/game-logic.js:103-105 | JavaScript subtraction: NaN exactly when a side is NaN or the sides are equal infinities; the difference of two integers |
| TetrisArenaLogic.RanksKeepKeys | examples/tetris-arena/game-logic.js:109-111 | numbering the rows keeps them sorted |
| TetrisArenaLogic.BoardRecords | examples/tetris-arena/game-logic.js:91-111 | the leaderboard lists each player once, with the score record and display name the book holds |
| TetrisArenaLogic.BoardListsEveryone | examples/tetris-arena/game-logic.js:91-100 | every player the book records is on the leaderboard |
| TetrisArenaLogic.BuildLeaderboard | examples/tetris-arena/game-logic.js:48-114 | the tables are the replay of the transactions in time order, and the leaderboard is their rows, sorted by `RowKey` (`Number(score)`, then `Number(lines)`, then time) and ranked; the sort agrees with the source's comparator where score and lines are numbers |
| TetrisArenaLogic.ReplayAll | examples/tetris-arena/game-logic.js:55-88 | the replay loop builds the tables of the replay |
| TetrisArenaLogic.AssignRanks | examples/tetris-arena/game-logic.js:109-111 | the loop gives each row its position plus one as rank |
| TetrisArenaLogic.ProcessIsNew | examples/tetris-arena/game-logic.js:117-150 | the result is true exactly for an accepted transaction whose id was not seen; a truthy id is then seen and no id is forgotten; a submission is recorded as the replay records it, anything else leaves the scores alone; the score counter grows by at most one |
| TetrisArenaLogic.PollApplyTwice | examples/tetris-arena/game-logic.js:129-147 | applying an accepted transaction a second time, as not new, changes nothing |
| TetrisArenaLogic.ProcessTwice | examples/tetris-arena/game-logic.js:123-127 | polling the same transaction again, when it has an id, changes nothing and reports it as not new |
| TetrisArenaLogic.PollApplyTables | examples/tetris-arena/game-logic.js:129-147 | on the score and name tables, polling applies a transaction as the replay does |
| TetrisArenaLogic.PollAgreesWithReplay | examples/tetris-arena/game-logic.js:117-150 | polling the transactions one by one gives the same score and name tables as replaying them |
| TetrisArenaLogic.PollState.constructor | examples/tetris-arena/game-logic.js:117-150 | the poll state starts with nothing seen, no tables and zero counters |
| TetrisArenaLogic.PollState.ProcessTransaction | examples/tetris-arena/game-logic.js:117-150 | the fields and the returned flag are the processed state and flag of the old fields |
| TetrisArenaLogic.PollState.UpdateTables | examples/tetris-arena/game-logic.js:129-147 | the tables and counters become those the accepted transaction asks for |
| TetrisArenaServer.AppPubkey | examples/tetris-arena/server.js:10 | the configured key when set, otherwise the demo key |
| TetrisArenaServer.Admit | examples/tetris-arena/server.js:115-119 | admitted exactly when the transaction normalises with a sender, is sent to the app, and has an id not seen before |
| TetrisArenaServer.SortRank | examples/tetris-arena/server.js:61-64 | sorting and ranking keeps the number of rows |
| TetrisArenaServer.RenameFirst | examples/tetris-arena/server.js:161-162 | renaming keeps the number of rows |
| TetrisArenaServer.SubmitScore | examples/tetris-arena/server.js:129-154 | a submission is always counted and touches neither the seen ids, the per-player logs nor the names; the best and the board change only when the sender has no best or the score is `>` it as JavaScript compares |
| TetrisArenaServer.SetUsername | examples/tetris-arena/server.js:155-164 | a name change is always counted and touches neither the seen ids, the logs nor the scores |
| TetrisArenaServer.AppMemo | examples/tetris-arena/server.js:122-123 | the memo is accepted exactly when it parses to a truthy value whose `app` is `tetris_arena` |
| TetrisArenaServer.Log | examples/tetris-arena/server.js:126-127 | the transaction is appended to its sender's log, created on first use; every other log is unchanged |
| TetrisArenaServer.Dispatch | examples/tetris-arena/server.js:129-164 | the memo types leave the seen ids and the logs alone |
| TetrisArenaServer.Route | examples/tetris-arena/server.js:122-164 | after the id is recorded, nothing changes the seen ids |
| TetrisArenaServer.IgnoredTransactions | examples/tetris-arena/server.js:115-119 | a transaction not sent to the app, without a sender or an id, or already seen changes nothing |
| TetrisArenaServer.AdmittedOnce | examples/tetris-arena/server.js:119-120 | an admitted transaction's id is seen afterwards whatever its memo, so the same transaction delivered again changes nothing |
| TetrisArenaServer.ForeignMemoOnlySeen | examples/tetris-arena/server.js:120-123 | a memo that does not parse, is falsy or names another app only marks the id seen |
| TetrisArenaServer.EmptyInv | examples/tetris-arena/server.js:53-59 | the empty server satisfies the board invariant |
| TetrisArenaServer.SortRankShape | examples/tetris-arena/server.js:61-64 | sorting and ranking gives a board sorted by score, numbered 1 to n, still one row per sender, every row an old row with a new rank |
| TetrisArenaServer.ReplaceShape | examples/tetris-arena/server.js:146-152 | replacing a sender's row keeps one row per sender, sorted and ranked; every row is the new one or an old row of another sender |
| TetrisArenaServer.RenameFirstSpec | examples/tetris-arena/server.js:161-162 | with one row per sender, renaming changes only the username of the sender's row |
| TetrisArenaServer.SubmitScoreKeepsInv | examples/tetris-arena/server.js:129-154 | a submission keeps the board invariant: sorted, ranked, one row per sender, and each row the sender's recorded best |
| TetrisArenaServer.SetUsernameKeepsInv | examples/tetris-arena/server.js:155-164 | a name change keeps the board invariant |
| TetrisArenaServer.DispatchKeepsInv | examples/tetris-arena/server.js:129-164 | every memo type keeps the board invariant |
| TetrisArenaServer.StepKeepsInv | examples/tetris-arena/server.js:114-165 | every transaction keeps the board invariant |
| TetrisArenaServer.SubmitNeverDrops | examples/tetris-arena/server.js:142-154 | after a submission no player's row has a lower score than before |
| TetrisArenaServer.DispatchNeverDrops | examples/tetris-arena/server.js:129-164 | no memo type lowers a player's row |
| TetrisArenaServer.ScoreNeverDrops | examples/tetris-arena/server.js:114-165 | a player's row is replaced only by a strictly higher score, so no row's score goes down |
| TetrisArenaServer.HigherScoreListed | examples/tetris-arena/server.js:142-152 | a first score, or one that is `>` the sender's best as JavaScript compares (a number against numeric text as numbers, two texts as text), becomes the sender's best and is on the board at its rank |
| TetrisArenaServer.LowerScoreIgnored | examples/tetris-arena/server.js:130-143 | a score that is not `>` the sender's best as JavaScript compares is counted and changes nothing else |
| TetrisArenaServer.TextScoreBeatsNumber | examples/tetris-arena/server.js:142 | a best of 3000 is beaten by the text score `"5000"`, which `>` compares as a number |
| JsValues.TextAgainstNumber | examples/tetris-arena/server.js:142 | `>` compares the text `"5000"` with the number 3000 as numbers, so the text is greater |
| JsValues.TextAgainstText | examples/tetris-arena/server.js:142 | `>` compares two texts as text, so `"5000"` is greater than `"30000"` |
| TetrisArenaServer.BoardByNumbers | examples/tetris-arena/server.js:61-64 | down the board no row's `Number(score)` is greater than that of a row above it (NaN aside) |
| TetrisArenaServer.SetUsernameRenames | examples/tetris-arena/server.js:155-164 | the name is recorded and the sender's row, if any, is renamed; every other row is unchanged |
| TetrisArenaServer.DisplayName | examples/tetris-arena/server.js:97-100 | the stored name when truthy, else `player_` and the last six characters |
| TetrisArenaServer.Shown | examples/tetris-arena/server.js:260-269 | a shown row keeps its sender, score and rank and always has a truthy name |
| TetrisArenaServer.ShowAll | examples/tetris-arena/server.js:312-320 | every row shown, in order |
| TetrisArenaServer.StatsOf | examples/tetris-arena/server.js:282-305 | a 400 reply exactly for a missing or empty `pubkey`; otherwise the transaction count is the length of the player's log, or 0 |
| TetrisArenaServer.StatsRank | examples/tetris-arena/server.js:292-301 | a player on the board is reported at their position, a player off it with a null rank |
| TetrisArenaServer.Counters | examples/tetris-arena/server.js:271-276 | the transaction counter is the number of seen ids and the player counter the number of rows on the board |
| TetrisArenaServer.StateRows | examples/tetris-arena/server.js:260-269 | the first 200 rows of the board, or all when fewer, each shown |
| TetrisArenaServer.QueryInt | examples/tetris-arena/server.js:309-310 | a missing parameter gives the default; otherwise the value of radix-less `parseInt`, which reads `0x` text as hexadecimal, with NaN and 0 giving the default |
| TetrisArenaServer.HexLimit | examples/tetris-arena/server.js:309 | `?limit=0x20` asks for 32 rows |
| JsValues.ParseIntAnyRadix | examples/tetris-arena/server.js:309-310 | radix-less `parseInt` reads as `parseInt(s, 10)` unless `0x` or `0X` follows the sign, and then it is NaN exactly when no hexadecimal digit follows |
| TetrisArenaServer.LimitAsWritten | examples/tetris-arena/server.js:309 | the limit as written: never above 500, never 0, 100 when missing; a negative value gets through |
| TetrisArenaServer.PageAt | examples/tetris-arena/server.js:312-320 | from an offset inside the board and a non-negative limit, the `limit` rows starting there, as many as the board has, each shown |
| TetrisArenaServer.NegativeLimitExceedsCap | examples/tetris-arena/server.js:309-312 | with `limit=-1` a board of 600 rows returns 599 rows, past the 500 cap |
| TetrisArenaServer.Limit | examples/tetris-arena/server.js:309 | the corrected limit: 100 when missing or 0, the given value when it is within 1 to 500, and always within 1 to 500 |
| TetrisArenaServer.PageBounded | examples/tetris-arena/server.js:309-312 | with the corrected limit no page holds more than 500 rows, whatever the query |
| TetrisArenaServer.Page | examples/tetris-arena/server.js:309-312 | the page with the corrected limit is the page as written whenever the written limit is positive |
| TetrisArenaServer.ArenaServer.constructor | examples/tetris-arena/server.js:53-59 | the server starts empty with the configured or default app key |
| TetrisArenaServer.ArenaServer.ProcessTransaction | examples/tetris-arena/server.js:114-165 | the fields become the processed state of the old fields |
| TetrisArenaServer.ArenaServer.RouteTransaction | examples/tetris-arena/server.js:122-164 | the fields become the routed state |
| TetrisArenaServer.ArenaServer.DispatchMemo | examples/tetris-arena/server.js:129-164 | the fields become the state the memo type asks for |
| TetrisArenaServer.ArenaServer.ProcessSubmit | examples/tetris-arena/server.js:129-154 | the fields become the state after the submission |
| TetrisArenaServer.ArenaServer.StoreBest | examples/tetris-arena/server.js:144-152 | the sender's best is recorded and the board becomes the old board without the sender's row plus the new row, sorted by `Number(score)` and ranked |
| TetrisArenaServer.ArenaServer.ProcessSetUsername | examples/tetris-arena/server.js:155-164 | the fields become the state after the name change |
| TetrisArenaServer.ArenaServer.SortLeaderboard | examples/tetris-arena/server.js:61-64 | the board becomes its stable sort by `Number(score)`, highest first, with ranks 1 to n |
| TetrisArenaServer.ArenaServer.LeaderboardPage | examples/tetris-arena/server.js:308-326 | the reply echoes the board's size, the parsed offset and the as-written limit, which is never above 500; the page is the rows `PageAt` gives for that offset and limit |
| Attestation.BelowTotal | examples/merge-master/server.js:53 | two different keys are ordered one way or the other by the key sort's string order |
| Attestation.BelowAsymmetric | examples/merge-master/server.js:53 | no two keys sort before each other |
| Attestation.InsertKey | examples/merge-master/server.js:53 | inserting a key adds exactly that key |
| Attestation.SortKeys | examples/merge-master/server.js:53 | `keys.sort()` is a permutation of the keys |
| Attestation.SortKeysSorted | examples/merge-master/server.js:53 | distinct keys come out strictly ascending |
| Attestation.SortKeysMembers | examples/merge-master/server.js:53 | sorting keeps exactly the same keys |
| Attestation.SortedUnique | examples/merge-master/server.js:53 | two strictly ascending key lists with the same keys are the same list |
| Attestation.KeysOf | examples/merge-master/server.js:53 | `Object.keys` lists each property name once, and only those |
| Attestation.LastIndex | examples/merge-master/server.js:54 | `value[k]` reads the last property named `k`; a missing one reads undefined |
| Attestation.Canonicalize | examples/merge-master/server.js:46-57 | null, undefined and non-finite numbers give `null`, booleans `true` or `false`, strings their JSON quoting |
| Attestation.CanonicalObject | examples/merge-master/server.js:52-55 | an object's text is its entries, in sorted key order |
| Attestation.SortedKeysAgree | examples/merge-master/server.js:53 | the sorted key list depends only on the set of property names |
| Attestation.CanonicalizeOrderIndependent | examples/merge-master/server.js:46-57 | the canonical text of an object depends only on which keys it has and what each reads, not on insertion order |
| Attestation.LookupConcat | examples/merge-master/server.js:54 | reading a key of two groups of properties gives the later group's value when it has the key |
| Attestation.InsertionOrderIrrelevant | examples/merge-master/server.js:46-57 | two disjoint groups of keys, inserted in either order, give the same text |
| Attestation.SignedFields | examples/merge-master/server.js:66-79 | the listed properties of the memo, in the listed order, each with the memo's value |
| Attestation.VerifyAttested | examples/merge-master/server.js:63-81 | a memo verifies only when it names the app and `score_attested`, its address is the sender, and its `sig` is the signature of the listed fields |
| Attestation.OnlyListedFieldsMatter | examples/merge-master/server.js:63-81 | properties outside the signed list do not affect the verdict |
| Attestation.LookupDistinct | examples/merge-master/server.js:54 | with distinct names, reading a property gives its value |
| Attestation.AttestedMemo | examples/merge-master/server.js:307-321 | the returned memo is the fields followed by one more, the signature |
| Attestation.NamesOf | examples/merge-master/server.js:66-79 | the names of the fields, in order |
| Attestation.AttestedMemoVerifies | examples/merge-master/server.js:302-321 | round trip: a memo the server attests, checked against the same list of fields, verifies for the address it names |
| MockStore.MockTx | examples/merge-master/server.js:236-245 | the built transaction is an object of six properties, the first its id as decimal text |
| MockStore.IdTextsDiffer | examples/merge-master/server.js:237 | different counter values give different id texts |
| MockStore.MockLedger.constructor | examples/merge-master/server.js:18-21 | the store starts with no transactions and the counter at 1 |
| MockStore.MockLedger.Add | examples/merge-master/server.js:236-252 | the next id is taken and the counter moves on; the transaction built carries it and is not yet listed |
| MockStore.MockLedger.Deliver | examples/merge-master/server.js:247-249 | the delivered transaction goes to the front of the list |
| MockStore.IssuedIdsDistinct | examples/merge-master/server.js:237 | no two transactions the store hands out share an id |
| MergeMaster.ClaimOf | examples/merge-master/server.js:84-90 | a claim exactly when score, max tile, moves and duration all parse; it carries the trimmed address, the `won` flag and the result text |
| MergeMaster.Validate | examples/merge-master/server.js:83-102 | the claim is accepted exactly when it parses and passes every check; a missing address gives `Missing address`, an out-of-range score `Invalid score`, and so on in the source's order |
| MergeMaster.AttestScore | examples/merge-master/server.js:302-327 | a memo is signed exactly when the claim validates; otherwise the reply carries the validation message |
| MergeMaster.AttestFieldsShape | examples/merge-master/server.js:307-320 | the attested fields are the signed list, each once, with app `merge_master`, type `score_attested` and the claim's address |
| MergeMaster.SigNotSigned | examples/merge-master/server.js:66-79 | the signature is not among the fields it signs |
| MergeMaster.AttestedScoreVerifies | examples/merge-master/server.js:63-81 | round trip: a memo the server attests verifies when it comes back from the address it names |
| MergeMaster.NormalizeTx | examples/merge-master/server.js:121-130 | a transaction exactly when the input is an object |
| MergeMaster.AdmittedExactly | examples/merge-master/server.js:194 | the kept transactions are exactly the normalised ones sent to the app with a sender and a memo |
| MergeMaster.EventsOf | examples/merge-master/server.js:200-220 | one event per transaction, in order |
| MergeMaster.ReplayDistinct | examples/merge-master/server.js:197-220 | both tables keep one entry per sender |
| MergeMaster.BestKept | examples/merge-master/server.js:215-218 | an event that does not beat the sender's record leaves it the best |
| MergeMaster.BestTaken | examples/merge-master/server.js:215-218 | an event that beats the record, or is the first, becomes the best |
| MergeMaster.BestIsBest | examples/merge-master/server.js:210-219 | a sender's recorded best is one of their verified scores and none of their verified scores beats it, higher score first and then the earlier time; a sender without one has no record |
| MergeMaster.NameKept | examples/merge-master/server.js:204-207 | an older name change leaves the recorded name the latest |
| MergeMaster.NameTaken | examples/merge-master/server.js:204-207 | a name change at least as recent becomes the latest |
| MergeMaster.NameIsLatest | examples/merge-master/server.js:204-207 | the recorded name is the trimmed name of the sender's latest name change, the last among equally recent ones |
| MergeMaster.Usernames | examples/merge-master/server.js:222 | the name table has exactly the senders' addresses as text as keys |
| MergeMaster.RowOf | examples/merge-master/server.js:224 | a row keeps the best's address, score, time and max tile and always has a non-empty name |
| MergeMaster.RankedRows | examples/merge-master/server.js:223-225 | one row per recorded best |
| MergeMaster.PositionOf | examples/merge-master/server.js:229 | the index of the first row with the address, or none when no row has it |
| MergeMaster.MyRank | examples/merge-master/server.js:227-231 | the rank is one more than the position of the user's first row, and null without a user or a row |
| MergeMaster.UserAddress | examples/merge-master/server.js:330-337 | the `address` parameter, trimmed; empty means none |
| MergeMaster.BoardShape | examples/merge-master/server.js:223-233 | the board is ordered by score, then time, holds at most 200 rows, one per sender, each the sender's recorded best, and counts every entry |
| MergeMaster.MyRankIsPosition | examples/merge-master/server.js:227-231 | `myRank` is the position of the user's row among all rows, counted from 1, even past the first 200 |
| MergeMaster.ReplayAddresses | examples/merge-master/server.js:217 | every recorded best names its own sender |
| MergeMaster.VerifiedBoardIsBest | examples/merge-master/server.js:192-234 | the verified leaderboard has at most 200 rows, ordered by score then time, one per sender, each the best of its sender's verified scores |
| MergeMaster.BuildVerifiedLeaderboard | examples/merge-master/server.js:192-234 | the replay loop builds the verified leaderboard |
| MergeMaster.Matching | examples/merge-master/server.js:257-260 | without an `account` filter every transaction matches; with one, exactly the stored transactions sent from or to the trimmed account are kept |
| MergeMaster.QueryLimit | examples/merge-master/server.js:262 | a limit that is not a finite number gives 200 |
| MergeMaster.QueryMockTransactions | examples/merge-master/server.js:254-267 | `has_more` exactly when more transactions matched than the limit; with a non-negative limit the items are the first `limit` matches |
| MergeMaster.AddMockTransaction | examples/merge-master/server.js:351-363 | the sender and recipient are coerced to text, a missing memo is null, and the store takes the next id for the built transaction; the stored list is unchanged and the id is recorded as issued |
| SnakeArenaServer.ClaimOf | examples/snake-arena/server.js:81-84 | a claim exactly when score and duration parse as integers; it carries the trimmed address and the mode, `classic` when none is given |
| SnakeArenaServer.Validate | examples/snake-arena/server.js:80-94 | the claim is accepted exactly when it parses and is plausible (score a multiple of 10 within range, duration within one second and four hours, at least 120 ms per ten points); a missing address gives `Missing address`, an unknown mode `Invalid mode` |
| SnakeArenaServer.AttestScore | examples/snake-arena/server.js:361-388 | a memo is signed exactly when the claim validates; otherwise the reply carries the validation message |
| SnakeArenaServer.AttestFieldsShape | examples/snake-arena/server.js:66-76 | the attested fields are the signed list, each once, with app `snake`, type `score_attested`, the claim's address, mode and score and the issue time |
| SnakeArenaServer.SigNotSigned | examples/snake-arena/server.js:66-77 | the signature is not among the fields it signs |
| SnakeArenaServer.AttestedScoreVerifies | examples/snake-arena/server.js:63-78 | a memo the attest route issues passes `verifyAttestedMemo` for the claimed address |
| SnakeArenaServer.MemoOf | examples/snake-arena/server.js:96-99 | a memo is parsed only from a present transaction that carries a memo |
| SnakeArenaServer.ScoreMessage | examples/snake-arena/server.js:115-121 | the rewritten message is a `snake` message whose type is `battle_victory` exactly for a battle run and `score_submission` otherwise |
| SnakeArenaServer.WithMemo | examples/snake-arena/server.js:122 | the spread transaction keeps every field but the memo, which is replaced |
| SnakeArenaServer.Ingest | examples/snake-arena/server.js:101-123 | only a `snake` memo is forwarded; a `set_username` transaction is forwarded unchanged; anything else forwarded is a `score_attested` memo from a truthy sender that verifies, rewritten to the score message |
| SnakeArenaServer.AttestedMemoIssued | examples/snake-arena/server.js:368-379 | a successful attest reply is a memo issued for the validated claim |
| SnakeArenaServer.IssuedForwarded | examples/snake-arena/server.js:101-123 | an issued memo sent by its own address is forwarded to the game as the score message, a battle victory exactly for a battle run |
| SnakeArenaServer.AttestedRunForwarded | examples/snake-arena/server.js:101-123 | the round trip: a memo from the attest route, posted by the claimed address, reaches the game as its score message |
| SnakeArenaServer.IngestSnakeTx | examples/snake-arena/server.js:101-123 | the game's new state is the old one after the forwarded transaction, and unchanged when nothing is forwarded |
| SnakeArenaServer.NormalizeAddress | examples/snake-arena/server.js:42-44 | an address exactly for a truthy value |
| SnakeArenaServer.Matching | examples/snake-arena/server.js:187-196 | without an `account` filter every transaction matches; with one, exactly the stored transactions whose normalized sender or recipient is the normalized account are kept |
| SnakeArenaServer.QueryLimit | examples/snake-arena/server.js:198 | a falsy limit reads as 200 |
| SnakeArenaServer.QueryMockTransactions | examples/snake-arena/server.js:186-203 | with a non-negative integer limit, the first `limit` matches and `has_more` exactly when more matched; a limit that is not a number gives no items and no more; never more items than matched |
| SnakeArenaServer.DeliverMock | examples/snake-arena/server.js:178-181 | the delayed delivery puts the transaction at the front of the ledger and ingests it into the game |
| UsernodeBridge.NormalizeTransactionsResponse | usernode-bridge.js:44-51 | the answer itself when it is an array, else its `items`, else its `transactions`, else `data.items`, else no transactions |
| UsernodeBridge.FirstNonBlankAt | usernode-bridge.js:81-83 | the scan stops at the first non-blank string candidate, and every candidate before it is blank |
| UsernodeBridge.ExtractTxId | usernode-bridge.js:53-85 | an id is non-empty and trimmed; a non-blank string result is its own id; there is no id exactly when no candidate in the fixed order is a non-blank string |
| UsernodeBridge.ExtractTxTimestampMs | usernode-bridge.js:87-88 | a value that is not an object has no time |
| UsernodeBridge.FirstNumberDecides | usernode-bridge.js:97-101 | a finite number in the first time field decides the time, multiplied by 1000 when below 1e10 |
| UsernodeBridge.NoTimeWithoutCandidate | usernode-bridge.js:97-107 | when no candidate is a finite number or a parsable date, there is no time |
| UsernodeBridge.HasId | usernode-bridge.js:114-125 | true exactly when some id field of the transaction is a non-blank string that, trimmed, is the expected id |
| UsernodeBridge.TextOrNull | usernode-bridge.js:141 | the field read back is null or a string |
| UsernodeBridge.TxMatches | usernode-bridge.js:110-159 | a value that is not an object never matches; an id hit always matches; otherwise it matches exactly when it is not timed more than five seconds before the send and every expected field agrees |
| UsernodeBridge.OlderRefused | usernode-bridge.js:130-137 | a transaction without the id, timed more than five seconds before `minCreatedAtMs`, never matches |
| UsernodeBridge.SenderText | usernode-bridge.js:254-257 | the expected sender is null or a non-empty string |
| UsernodeBridge.ExpectedOf | usernode-bridge.js:268-276 | the expectation is an object whose fields are distinct |
| UsernodeBridge.ExpectedFields | usernode-bridge.js:268-276 | the expectation carries the extracted id or null, the start time, the memo and recipient as text or null, the trimmed node address and the amount as sent |
| UsernodeBridge.SendRecognised | usernode-bridge.js:247-281 | the transaction a send produced, carrying the memo, recipient and amount sent, from the node's address and timed no earlier than the skew before the send, matches what the send waits for |
| UsernodeBridge.NumberOption | usernode-bridge.js:162-166 | the option when it is a number, else the default |
| UsernodeBridge.FilterOptions | usernode-bridge.js:167-170 | the filter is always an object |
| UsernodeBridge.PollQuery | usernode-bridge.js:177 | the query starts with the limit and then holds the caller's filter options |
| UsernodeBridge.FirstMatchAt | usernode-bridge.js:179 | `find` stops at the first matching transaction, and none before it matches |
| UsernodeBridge.AwaitedFound | usernode-bridge.js:175-180 | a wait returns only a matching transaction, taken from the first poll that saw one while the deadline had not passed |
| UsernodeBridge.AwaitedTimedOut | usernode-bridge.js:182-193 | a wait times out at the first poll that saw nothing once the deadline had passed, no earlier poll having seen the transaction |
| UsernodeBridge.AwaitedStillPolling | usernode-bridge.js:174-195 | polling goes on only while no poll saw the transaction and the deadline has not passed |
| UsernodeBridge.Poll | usernode-bridge.js:173-195 | the loop's outcome is the wait outcome defined over the node's answers and the clock readings |
| UsernodeBridge.WaitForTransactionVisible | usernode-bridge.js:161-196 | every poll asks with the limit and filter query, and the outcome is the wait for a transaction that `txMatches` the expectation within the timeout |
| UsernodeBridge.Resolve | usernode-bridge.js:19-25 | an unknown id changes nothing; a pending id is removed and settled once, rejected when an error is given |
| UsernodeBridge.Register | usernode-bridge.js:27-38 | inside the host app the call waits; outside it the call is rejected at once with the bridge's message and is not left waiting |
| UsernodeBridge.ResolveOnce | usernode-bridge.js:19-25 | a second answer for the same call changes nothing |
| UsernodeBridge.ResolveKeepsSettledOnce | usernode-bridge.js:19-25 | answering keeps every call settled at most once |
| UsernodeBridge.RegisterKeepsSettledOnce | usernode-bridge.js:27-38 | a fresh call id keeps every call settled at most once |
| UsernodeBridge.NativeBridge.constructor | usernode-bridge.js:18 | the shared bridge starts with no waiting and no settled calls |
| UsernodeBridge.NativeBridge.HandleResolve | usernode-bridge.js:19-25 | the table after an answer is `Resolve` of the one before |
| UsernodeBridge.NativeBridge.CallNative | usernode-bridge.js:27-38 | the table after a call is `Register` of the one before |
| MergeBridge.TxMatches | examples/merge-master/usernode-bridge.js:114-156 | as the shared matcher, with `tx_id` among the ids and `timestamp_ms` among the times: an id hit matches, a non-object never does, otherwise it matches exactly when it is not too old and memo, recipient and sender agree |
| MergeBridge.TimestampMsFirst | examples/merge-master/usernode-bridge.js:84-98 | a finite `timestamp_ms` decides the time before any other field, multiplied by 1000 when below 1e10 |
| MergeBridge.AliasesRecognised | examples/merge-master/usernode-bridge.js:145-154 | a transaction that records the recipient as `to` and the sender as `source` still matches |
| MergeBridge.ExpectationsRead | examples/merge-master/usernode-bridge.js:114-156 | two expectations that agree on id, start time, memo, recipient and sender match the same transactions |
| MergeBridge.AmountIgnored | examples/merge-master/usernode-bridge.js:141-155 | adding an expected amount changes no match |
| MergeBridge.QueryFor | examples/merge-master/usernode-bridge.js:169-172 | the poll query is the shared one; it gains `sender` as the expected sender exactly when a sender is expected and the query has neither `sender` nor `account`, and is otherwise unchanged |
| MergeBridge.WaitForTransactionVisible | examples/merge-master/usernode-bridge.js:158-193 | every poll asks with the narrowed query, and the outcome is the wait for a transaction this bridge's matcher accepts within the timeout |
| MergeBridge.MockOwner | examples/merge-master/usernode-bridge.js:343-345 | the mock listing is asked for the filter's account when one is given, else for the node's own address |
| MergeBridge.Route | examples/merge-master/usernode-bridge.js:331-338 | the host app is used exactly when the mock is off and the page runs inside the host app |
| MergeBridge.Probe | examples/merge-master/usernode-bridge.js:217-229 | a cached answer is returned unchanged; otherwise the answer is true exactly when the probe succeeded, and it is cached |
| MergeBridge.ProbeStable | examples/merge-master/usernode-bridge.js:215-229 | after the first probe every later answer is the first one, whatever later requests would return |
| MergeBridge.ProbedCached | examples/merge-master/usernode-bridge.js:218 | with an answer cached, any number of calls return it and keep it |
| MergeBridge.MockDetector.constructor | examples/merge-master/usernode-bridge.js:215 | nothing is cached before the first call |
| MergeBridge.MockDetector.IsMockEnabled | examples/merge-master/usernode-bridge.js:217-229 | the answer and the new cache are what `Probe` gives for the old cache |
| DevServer.ExtName | server.js:49 | the extension is empty or a dot followed by no dot and no separator, and it is a suffix of the path |
| DevServer.ContentTypeFor | server.js:48-75 | the type listed for the lower-cased extension, else `application/octet-stream` |
| DevServer.TypeKeysDistinct | server.js:50-74 | no extension appears twice in the switch |
| DevServer.ExtNameOfFile | server.js:49 | the extension of `dir/name.ext` is `.ext` |
| DevServer.ExtNameOfDotNames | server.js:49 | a leading dot starts no extension and `..` has none, but dots before the last one do not hide it: `..js` has `.js` and `...` has `.` |
| DevServer.ListedExtension | server.js:48-75 | a file `name.ext` in any directory is served with the type listed for `ext`, whatever the case of its letters |
| DevServer.UnlistedExtension | server.js:72-73 | an extension that is not listed, or none, is served as `application/octet-stream` |
| DevServer.StripLeadingSlashes | server.js:81 | the result does not start with a slash and is the input less a run of leading slashes |
| DevServer.SafeResolveFromRoot | server.js:77-95 | the resolved candidate, returned exactly when it is the root or lies below the root's separator |
| DevServer.Contained | server.js:93 | a resolved file is the root or starts with the root followed by the separator |
| DevServer.SiblingRefused | server.js:93 | a sibling whose name continues the root's name (`/srv/site-old` next to `/srv/site`) is refused |
| DevServer.StaticTargetOf | server.js:264-274 | `/` and the empty path serve the index page; any other served file lies inside the root |
| DevServer.Dispatch | server.js:97-262 | a verb other than GET, HEAD and POST gets 405; the mock endpoints are reached only by POST with the mock enabled; static files only by GET or HEAD |
| DevServer.ReadJson | server.js:27-46 | a body over 1,000,000 characters fails with `Body too large`; an empty body reads as `{}` |
| DevServer.QueuedTx | server.js:181-188 | the queued transaction carries the fresh id, both parties, the amount, the memo and the creation time |
| DevServer.MockSendReply | server.js:155-209 | a transaction is queued exactly when the reply is 200, exactly when the body parses and names both parties; a body without both gets 400 with the parties message; the queued transaction holds the trimmed parties, the amount and the memo text |
| DevServer.MemoText | server.js:160 | the memo is left undefined exactly when the body has none |
| DevServer.InvolvingKeeps | server.js:231-235 | exactly the stored transactions sent from or to the owner are kept |
| DevServer.ZeroLimitListsAll | server.js:236 | as written, a limit of 0 keeps every transaction instead of none |
| DevServer.LastAsWritten | server.js:236 | `slice(-limit)` as written: a positive limit keeps the last `limit` transactions (all when fewer), and a limit of 0 keeps them all |
| DevServer.LastItems | server.js:236 | with a non-negative limit, the last `limit` transactions (all of them when fewer), so never more than the limit |
| DevServer.MockListReply | server.js:212-254 | a body that does not parse gets 400 with `Invalid JSON`; a readable body gets 200 with the owner's listing as written under the requested limit |
| DevServer.ListingMeaning | server.js:226-237 | the listing holds the owner's transactions from the store, newest first: the latest `n` for a positive limit `n` (all when fewer), and all of them for a limit of 0 |
| DevServer.IntendedListingMeaning | server.js:226-237 | with a limit of 0 listing nothing, the listing holds the owner's latest `n` transactions, newest first, never more than `n` |
| DevServer.MockNode.constructor | server.js:20 | the mock node starts with no transactions |
| DevServer.MockNode.Send | server.js:155-209 | the send endpoint answers with `MockSendReply` and does not change the store yet |
| DevServer.MockNode.Deliver | server.js:191-193 | the delayed delivery appends the transaction to the store |
| DevServer.MockNode.List | server.js:224-253 | the listing endpoint answers with `MockListReply` over the current store, so a limit of 0 lists everything |
| DevServer.DeliveredListedFirst | server.js:191-193 | a delivered transaction heads the listing of either party, whatever the limit |
| SnakeApp.Turn | App.jsx:298-308 | the direction taken is never straight back; a requested turn that is not a reversal is taken, a reversal is replaced by the current direction |
| SnakeApp.JsRem | App.jsx:323-324 | JavaScript's `%`: the Euclidean remainder for a non-negative dividend, and always strictly between minus and plus the divisor |
| SnakeApp.Wrap | App.jsx:322-324 | a coordinate one step off the board comes back on the other side; one on the board is kept |
| SnakeApp.Advance | App.jsx:310-324 | the next head of a snake on the board is on the board |
| SnakeApp.TimeBonus | App.jsx:339-341 | no bonus outside ranked mode or without a time limit; otherwise the floor of a tenth of the limit |
| SnakeApp.CollisionStops | App.jsx:326-330 | a head landing on the snake ends play and leaves the state exactly as it was |
| SnakeApp.StepMoves | App.jsx:296-365 | play goes on exactly when the new head is off the snake; eating grows the snake by the new head, earns 10 points and, in ranked time, the time bonus; otherwise the length is kept, the head is new and the tail is dropped |
| SnakeApp.StepKeepsValid | App.jsx:332-364 | given a food cell off the new snake, a tick keeps the snake non-empty, on the board and free of repeated cells, and the food on the board and off the snake |
| SnakeApp.RankedTick | App.jsx:481-488 | at one second or less the clock shows 0 and play stops; otherwise it counts down by one |
| SnakeApp.RankedRunsOut | App.jsx:480-489 | with `t` seconds left, play goes on for fewer than `t` ticks and is over, at 0, after `t` |
| SnakeApp.BattleTick | App.jsx:501-505 | a player's clock drops by one but not below 0, the player stays alive exactly when alive with more than one second left, and nothing else of the player changes |
| SnakeApp.BattleTimer | App.jsx:499-511 | every player's clock ticks, and the battle ends exactly when at most one player is still alive |
| SnakeApp.BattleTimerFinal | App.jsx:501-505 | a dead player stays dead, time never goes below 0, and a player with one second or less is out at 0 |
| SnakeApp.PadTwo | App.jsx:126 | text of two characters or more is kept; shorter text is left-padded to exactly two characters ending in it |
| SnakeApp.TwoDigits | App.jsx:125-126 | the seconds below 60 are printed as two digits that read back as their value |
| SnakeApp.FormatTimeReadsBack | App.jsx:123-127 | what `formatTime` prints for a non-negative number of seconds reads back, as minutes and two-digit seconds, to the same number |
| SnakeApp.MedalOf | App.jsx:116-121 | ranks 1, 2 and 3 get the gold, silver and bronze medals; any other rank is returned as given |

## Left out

- Networking, HTTP routing and I/O: WebSocket and HTTP servers, `fetch` and `https` clients, explorer proxies, health endpoints, file reads and HEAD answers, and the chain pollers (`pollChainTransactions`). The logic they feed is modelled: mock querying, ingesting, and serving static file paths.
- `examples/lib/dapp-server.js`, `examples/server.js`, `examples/last-one-wins/server.js`, `examples/snake/server.js` and `scripts/generate-keypair.js` are not part of this model. They hold I/O plumbing, a CLI and process calls.
- Asynchronous scheduling: the `setTimeout` delays of the mock ledgers are modelled as a separate delivery step, and `setImmediate` and `Promise.all` as the second phase of the tick. Interleavings of concurrent requests and of concurrent `isMockEnabled` calls are not modelled.
- zlib deflate is a parameter that may fail; the stats logging, bandwidth figures and console output are left out.
- The WASM universe is an opaque frame of bytes; `universe.paint` is recorded as a list of paints.
- `segmentToPoints` works on floating point (`Math.sqrt`, `ceil`, `round`), so it is a parameter; only the clamping of its output is modelled.
- Fractional JavaScript numbers are not represented: a number is an integer, NaN or an infinity. The `speed / 1.0003` step, the progress bar and every float shown in the UI are left out.
- Integers are exact and unbounded: the model does not round magnitudes above 2^53 to the nearest double, and does not overflow to `Infinity` past the largest double. So a text such as `"1e400"` reads as 10^400 where JavaScript reads `Infinity`, and sums of huge amounts (a pot, a score total) stay exact where JavaScript loses precision.
- `String(x)` of an array is a fixed marker text, not the joined elements.
- `Lower` folds ASCII letters only.
- `Math.random` choices are inputs: pieces, food cells, UUIDs, proof ids and call ids. The same holds for `Date.now`, `toISOString` and `toDateString` (time and day keys are inputs) and for `Date.parse` (a parameter).
- HMAC-SHA256 and `JSON.stringify` quoting of strings are parameters. The model proves what holds for any such functions: the fields signed, the order of keys, and the round trip of issue and verify.
- `path.normalize`, `path.resolve` and `decodeURIComponent` are parameters of `DevServer.SafeResolveFromRoot`. Only the containment check is proved.
- DevServer.ExtName: a path ending in a separator is not given Node's special treatment.
- React rendering, canvas drawing, keyboard and touch handlers, and the UI-only `examples/snake/App.jsx` are left out. The same goes for the battle-mode movement loop and bot steering in `App.jsx` (lines 376-470), which are driven by refs and timers.
- UsernodeBridge.Poll: the polling loop never ends by itself in the source. The model runs it over a finite list of node answers and clock readings, and reports `StillPolling` when the answers run out. The sleep between polls is left out.
- The timeout error text of the bridges (poll counts and ids in the message) is not modelled; a timeout is an outcome with the number of polls.
- UsernodeBridge.Register: the message posted to the host app is not modelled, only the pending table.
- MergeBridge.QueryFor: the `sender` property is appended at the end of the query object rather than kept where a falsy one already stood. The properties the query holds are the same.
- A filter options value that is an array is spread into the poll query by the source; the model treats it as an empty filter.
- SnakeArenaServer.WithMemo: the spread keeps the memo key at its old position; the model moves it to the end, which gives the same lookups.
- The CIS bot's own `fetchTransactions` and `sendTransaction` (HTTP and polling) are not modelled.
- LastOneWins.Game.FinishMockPayout: the mock payout is also pushed onto the server's list of mock transactions (`game-logic.js` line 253); that list belongs to the server and is not modelled.
- The tetris-arena server keeps one entry object in both `scoresByPlayer` and `leaderboard`, so a rank or username written through one is seen through the other. The model keeps two copies: `TetrisArenaServer.SetUsername` and `TetrisArenaServer.SortRank` write only the leaderboard copy, so the rank and username held in `scoresByPlayer` go stale. Nothing in the model reads those two fields of `scoresByPlayer`; the stats endpoint takes the rank from the leaderboard.
- SnakeCommon.Address: a sender that is not a string (a number in `from_pubkey`, say) is turned into text, where the source's `sender.slice(-6)` throws a `TypeError` (examples/snake/game-logic.js lines 94 and 130, examples/snake-arena/game-logic.js lines 64, 86 and 117).
- TetrisArenaLogic.PlayerKey: a sender that is not a string is turned into text, where `from.slice(-6)` throws (examples/tetris-arena/game-logic.js lines 86 and 144).
- TetrisArenaLogic.Rows: the fallback name is built from the sender as text; the source's `from.slice(-6)` throws for a sender that is not a string (examples/tetris-arena/game-logic.js line 99).
- TetrisArenaServer.Shown: the fallback name is built from the sender as text, where `e.from.slice(-6)` throws for a sender that is not a string; the same sender-as-text assumption is made by `TetrisArenaServer.DisplayName` (examples/tetris-arena/server.js lines 99, 153, 163, 263 and 315).
- TetrisArenaServer.DisplayName: the sender is text, so the case where `from.slice(-6)` throws for a sender that is not a string is not modelled (examples/tetris-arena/server.js line 99).
- MergeMaster.RowOf: the fallback name is built from the address as text, where `row.address.slice(-6)` throws for an address that is not a string (examples/merge-master/server.js line 224).
- LastOneWins.EntryStep: the log line's `tx.from.slice(0, 16)` (examples/last-one-wins/game-logic.js line 131) throws for a sender that is not a string, after the entry has been recorded; the model records the entry and carries on.
- LastOneWins.Game.CheckPayout: `winner.slice(0, 16)` (examples/last-one-wins/game-logic.js line 241) throws for a last sender that is not a string, leaving `payoutInProgress` set; the model goes on with the payout.
- LastOneWins.AmountOf: an amount of `Infinity` counts as 0, so the model ignores such an entry (and records such a payout with amount 0), where the source adds `Infinity` to the pot (examples/last-one-wins/game-logic.js lines 35 and 125-127); an amount whose text overflows a double, such as `"1e400"`, is added as the exact integer, where the source would add `Infinity`.
- JsValues.StringToNumber: text of a fractional number, such as `"1.5"`, reads as NaN, since fractional numbers are not represented; whole numbers in decimal, exponent, hexadecimal, octal and binary notation read as their exact integer value, which is what `Number` gives only up to 2^53; beyond that `Number` rounds, and past the largest double (`"1e400"`) it gives `Infinity`, which the model does not.
- TetrisArenaLogic.RowKey: the sort is by `Number(score)`, then `Number(lines)`, then time. The source compares a field only when the two values are `!==`, so two values that differ in type but not as numbers (null and 0, `"5"` and 5) make the comparator return 0 without looking further (examples/tetris-arena/game-logic.js lines 103-104). Such a comparator is not a consistent order, and V8's sort then gives an order the model does not reproduce: `TetrisArenaLogic.MixedTypesTie` shows the case, and `TetrisArenaLogic.ComparatorAgrees` proves the two agree when score and lines are numbers.
- TetrisArenaLogic.Rows: the rows follow the insertion order of `scoresByPlayer`. `Object.entries` lists integer-like keys first, in ascending order, and that order decides the place of rows that tie on score, lines and time (examples/tetris-arena/game-logic.js line 91).
- LastOneWins.MemoRound: a truthy `round` that is not an integer (the text `"2"`, `true`, Infinity) is read as the current round. The source keeps it as given, and `round + 1` then concatenates text, so `"2"` gives the round `"21"` (examples/last-one-wins/game-logic.js lines 133-142).
- Attestation.SortKeys: keys are ordered by code point, where `keys.sort()` compares UTF-16 code units; the two differ for keys that mix characters above U+FFFF with characters from U+E000 to U+FFFF (examples/merge-master/server.js line 53).
- Tetris.TetrisGame.MoveDown: the `animate` loop that adds the elapsed time to `dropCounter` and calls `moveDown` once it passes `dropInterval` is not modelled, since it runs on animation-frame times (examples/tetris/script.js lines 385-397). `MoveDown` is the step it takes.
- TetrisArenaLogic.OrderKey: a NaN score or line count is sorted as 0. The source's comparator returns NaN for it, and where such a row lands then depends on V8's sort algorithm.
- V8's exact `TypeError` texts are not reproduced; the model gives the shape `Cannot read properties of …`.
- Tetris.Cleared: its own contract states only the height. What clearing means is stated by `Tetris.ClearedShape` and `Tetris.ClearedIdempotent`.

## Findings

| source | as written | input that shows it | evidently intended | confidence | as-written member | corrected member |
|---|---|---|---|---|---|---|
| examples/tetris-arena/server.js:309-312 | `Math.min(parseInt(query.limit) \|\| 100, 500)` caps large limits but lets a negative one through, and `slice(offset, offset + limit)` with a negative end counts from the back | `limit=-1` on a board of 600 rows returns 599 rows | a page holds between 1 and 500 rows | not executed | TetrisArenaServer.NegativeLimitExceedsCap | TetrisArenaServer.PageBounded |
| server.js:228-237 | the mock listing keeps `slice(-limit)`, and `-0` is `0`, so a limit of 0 keeps every transaction | `filterOptions.limit = 0` with one stored transaction lists that transaction | a limit of 0 lists nothing | not executed | DevServer.ZeroLimitListsAll | DevServer.IntendedListingMeaning |
