# A browser terminal brought to the present

This project models how the terminal server brings a browser's terminal to, and keeps it at, the present
of a byte stream, and proves what that machinery promises. A server-side terminal has consumed the stream
up to a ring position; that terminal, compiled back to escape sequences, and the ring after the position
must add up to the whole stream, for every viewer, through chunking, ring wrap, resizes, full queues,
re-attaches, seeding and insertions into the stream.

Verify it with `dafny verify dfyconfig.toml`.

## Layout

| files | what they hold |
|---|---|
| `Common`, `Folds` | bytes and optional values; running a deterministic machine over a sequence |
| `Terminal`, `Lines` | the terminal of `muxd/vt.go` as cells, rows and operations; rows as `muxd/history.go` stores them and the reader that reads them back |
| `Drawing` | what the packer writes, as functions |
| `RowProofs`, `Canvas`, `RowsProofs`, `Keyframes` | what a terminal makes of it: a row, row joins and scrolling, all rows, whole states |
| `Packing` | the reader, the packer and the serializer in their own imperative form, proved to write what `Drawing` says |
| `Ring`, `RestorePoint` | the ring over its array, and the restore point over the ring |
| `Queues`, `Viewers`, `Sessions`, `Pump` | viewer queues and writers over whole runs; the session object and the read loop that feeds it |
| `Streams`, `Seeding` | the stream from the daemon over full queues, drops and re-attaches; seeding a restore point from a snapshot |
| `Prelude` | what a restore's prelude leaves of the terminal it finds, and a restore over it |
| `Boundary`, `XParser`, `Writer` | the tracker of a browser's parser, the browser's own decoder and parser, and the connection's writer |
| `ReplayFilter`, `Base64`, `Clipboard` | the streaming automata over OSC 52 |
| `Viewports` | who sizes a session |
| `Chunks`, `Landing`, `Facts`, `SearchIndex` | chunked uploads and their publication, folding of request facts, the filename index |

A terminal on the server side is any deterministic machine over bytes and sizes (`RestorePoints.Machine`),
so the protocol results hold for every terminal; the one assumption made of it, where a size is given
twice, is that resizing a terminal to the size it has does nothing. Concurrency is modelled as the
critical sections are in the source: each method of `Sessions`, `Viewports` and `Landing`, and each step of
`Viewers`, `Streams` and `Seeding`, is one section under its lock, and the results hold for every order of
them.

## What does not hold

Where the code does not meet what its comments promise, the code is modelled as it is, the exact condition
is proved, and a lemma gives the state or run that fails.

* A wrapped row that is scrolled in by its own first character takes that character's background into its
  empty cells, and an alternate screen is entered under the parked pen's background
  (`Keyframes.StainedStates`, condition in `Keyframes.KeyframeRoundTrip`).
* Of two adjacent empty cells with a foreground or attributes that no character before them leaves behind,
  the second comes back with its background only, and so does one in the last column; one before a narrow
  character of its style that also leaves one behind comes back in the pen of the moment. What any row
  comes out with is `RowProofs.Inked`; `RowProofs.InkedSame` says when that is the row, and
  `Keyframes.MarkedStates` and `Keyframes.EdgeIsLost` give states that are lost.
* A cursor waiting past an empty last cell comes back one column short (`Keyframes.CursorKept` in the
  condition of the round trip).
* A screen of typed spaces is judged pristine and comes back as never written
  (`Keyframes.TypedSpacesForgotten`).
* The parser tracker takes for characters what the browser's decoder drops (U+FEFF, surrogates, overlong
  forms, values past U+10FFFF): such bytes can end an escape sequence or an OSC string for the tracker alone
  (`XParser.BelievableIff`, inputs in `XParser.Disbelieved`).
* A clipboard write that breaks off another sequence or string is taken by the terminal and missed by the
  scanner (`Clipboard.WriteIsSeen`, an input in `Clipboard.BrokenOffIsLost`).
* A connection is synced before its browser has said its size; output in between is dropped for an observer
  and never made up for (`Viewers.ConnectDrifts`).
* The answer to an ungranted size is read before it is queued, so it can overtake a newer size
  (`Viewers.AnswerMayBeOld`).
* A contiguous re-attach that finds the session at another size tells no viewer (`Viewers.Slips`, counted in
  `Viewers.ExactlyOnce`; `Sessions.Session.Adopt`).
* A viewer synced while the clipboard filter holds a prefix is sent that prefix twice, and one synced while
  it discards a body never gets the body's end (`Pump.LivePasses`).
* A size frame that meets a full event queue throws out output without marking the stream
  (`Streams.SilentLoss`), and a control frame that meets a full queue of the daemon's throws out output, or
  the announcement of a loss, without a word (`Streams.EvictedLoss`: 248 frames of output and nine sizes);
  exactly when in `Streams.LossIsAFullQueue`.
* A seed whose snapshot has seen two different sizes that are still in flight is given them a second time
  (`Seeding.SizesGivenTwice`). A contiguous re-attach gives the size it reports before the bytes that were
  missed and never gives the sizes that were: a size missed after output comes before it
  (`Seeding.ResizedWhileAway`), a size and the way back are not given at all (`Seeding.ThereAndBack`);
  exactly when in `Seeding.SeededIsExact`, and in terms of what was missed in `Seeding.MissedWhileAway`.
* The prelude leaves the saved cursor of a page that kept its terminal, and a keyframe of a state with nothing
  saved does not write one (exactly when in `Prelude.RestoredOver`).
* A size sent while an attach is in flight can leave the daemon with a size nobody has
  (`Viewports.AttachCrossed`, exactly when in `Viewports.Viewports.Converged`).
* A request fact whose timing is revoked in the first row seen of it keeps its times
  (`Facts.RevokedTiming`).
* A search term with a NUL can be answered with another query's kept result (`SearchIndex.WrongHits`, exactly
  when in `SearchIndex.FileSearchIndex.Matches`; never for one term without a NUL).

## Model

| member | source | states |
|---|---|---|
| `Lines.ReadBack` | reconnect_pack.go:139-223 | Reading a stored row back gives every cell of the row it was stored from: glyphs, widths, styles, and which cells were never written, marked ones included |
| `Packing.RowReader.constructor` | reconnect_pack.go:113-119 | A reader starts at the row's first cell |
| `Packing.RowReader.Copy` | reconnect_pack.go:416-420 | A copied reader looks ahead without moving the one it was copied from |
| `Packing.RowReader.IsNull` | reconnect_pack.go:128-137 | The cursor over the empty-cell runs answers the membership question for every column asked in order |
| `Packing.RowReader.Next` | reconnect_pack.go:139-223 | The incremental reader (span and run cursors) returns the same next item, and moves as far, as the definition that searches from the start |
| `RowProofs.FlushRunInv` | reconnect_pack.go:397-415 | Flushing gathered empty cells keeps the drawing invariant: terminal cells, cursor, pen and the pending skip agree with what has been read |
| `RowProofs.BlankInv` | reconnect_pack.go:460-469 | An empty cell gathered, whatever run it joins or ends, keeps the invariant with that cell added |
| `RowProofs.CharInv` | reconnect_pack.go:518-525 | A character written keeps the invariant with its one or two cells added |
| `RowProofs.BeforeMarkedInv` | reconnect_pack.go:501-517 | A character printed over half of a wide one leaves the empty cell behind it in its own style, foreground and attributes included |
| `RowProofs.MarkedSame` | reconnect_pack.go:432-459 | A marked empty cell before a character of its style: the character, printed over the stand-in's second half, empties the first half in that style |
| `RowProofs.MarkedOther` | reconnect_pack.go:432-459 | The same before a character of another style, by way of a stand-in space |
| `RowProofs.MarkedBefore` | reconnect_pack.go:432-517 | The same before a character that leaves a marked empty cell behind it |
| `RowProofs.MarkedBlank` | reconnect_pack.go:432-459 | The same before an empty cell with a background, which comes out with that background |
| `RowProofs.MarkedEnd` | reconnect_pack.go:432-459 | The same as the last thing stored in a row |
| `RowProofs.MarkedTwice` | reconnect_pack.go:432-517 | A marked empty cell before a character of its style with another behind it: right around a wide character, and in the pen held when it was reached around a narrow one |
| `RowProofs.FinishShows` | reconnect_pack.go:547-558 | The end of a row: trailing cells, the placeholder erased, default pen, and the cursor position and last-cell style handed to the next row |
| `RowProofs.DrawRest` | reconnect_pack.go:421-558 | From any point of the cell loop, the rest of any row is drawn to its last cell, every cell as the row's own cells and the pen it was begun in decide |
| `RowProofs.DrawRowShows` | reconnect_pack.go:376-559 | Executing what any row draws, begun in any pen, over any row held before, with or without a placeholder, shows exactly the cells computed from the row and the pen, leaves packer pen and terminal pen equal, and tells truly how the row ended |
| `RowProofs.InkedSame` | reconnect_pack.go:376-559 | Those cells are the row's own if and only if every marked empty cell is left behind by the character before it, or is made on its own with the right pen where it takes the pen |
| `RowProofs.SecondMarkedIsLost` | reconnect_pack.go:446-456 | In every row, a marked empty cell right after one made on its own loses its foreground and attributes |
| `RowProofs.FirstMarkedTakesThePen` | reconnect_pack.go:501-517 | In every row, a marked empty cell before a narrow character of its style that also leaves one behind comes out in the pen held there: the row's first pen at its start, the style of a character printed just before it |
| `Canvas.NewLineAt` | muxd/vt.go:581-597 | A newline on a canvas of drawn and waiting rows: the last row becomes history when the screen is full, the next is taken, its wrapped mark cleared |
| `Canvas.ScrollAt` | muxd/vt.go:427-458 | Scrolling a full screen moves the top row into history and brings in a row in the pen's background |
| `Canvas.WrapAt` | muxd/vt.go:613-645 | Autowrap onto the next row, at the bottom or not: the row left is emptied from the cursor in the pen's style, the row entered is marked as continued |
| `Canvas.PrintWraps` | muxd/vt.go:675-742 | A character that does not fit wraps and lands at the start of the next row |
| `Canvas.StepBackShows` | reconnect_pack.go:601-611 | Stepping back up, erasing the placeholder and coming down again leaves both rows as meant and the cursor at the start of the new one |
| `Canvas.LeadingShows` | reconnect_pack.go:616-623 | The dummy row that is wrapped from and deleted leaves the first row marked as continued, at the top of the screen |
| `RowsProofs.FirstCellTells` | reconnect_pack.go:316-335 | The look at a row's first cell agrees with the row's cells: empty, narrow, wide, or a character that cannot be wrapped onto |
| `RowsProofs.EncodeStored` | muxd/history.go:286-370 | Every row of whole characters is stored so that the drawing proofs apply to what the reader returns |
| `RowsProofs.AdvanceNew` | reconnect_pack.go:643-646 | A row that does not continue: newline, then the row |
| `RowsProofs.AdvanceRun` | reconnect_pack.go:572-600 | A row continued by letting its text run on, including the wide character that leaves the last cell empty in its own style |
| `RowsProofs.AdvanceFilled` | reconnect_pack.go:589-594 | A continued row that starts empty, under a row that ended in its last cell |
| `RowsProofs.AdvanceBack` | reconnect_pack.go:601-611 | A continued row under a row that ended early, by the placeholder that is erased afterwards |
| `RowsProofs.Advance` | reconnect_pack.go:569-611 | In every case of continuing, one more row drawn extends the rows shown by exactly that row |
| `RowsProofs.FlowShows` | reconnect_pack.go:629-648 | Any number of rows with any wrap pattern, drawn as one run: history and screen then hold exactly those rows, in order, with their wrapped marks |
| `RowsProofs.PlaceShows` | reconnect_pack.go:629-648 | Rows placed one by one on the alternate screen, blank ones skipped, show exactly those rows and scroll nothing |
| `Keyframes.PlaceCursorShows` | reconnect_pack.go:657-692 | The cursor lands where it was, and a pending wrap is reached again by rewriting the last character without changing a cell |
| `Keyframes.RegionShows` | reconnect_pack.go:771-773 | The scrolling region is set when it is not the whole screen, and homes the cursor before it is placed |
| `Keyframes.SwitchShows` | reconnect_pack.go:767-785 | Switching to the alternate screen parks the normal one with its cursor, pen and region, and clears the new one in the parked pen's background |
| `Keyframes.KeyframeShows` | reconnect_pack.go:745-858 | For every state with whole characters, the terminal that executes its keyframe is in one computed state: both screens, history, region, cursors, saved cursor, pens |
| `Keyframes.KeyframeRoundTrip` | reconnect_pack.go:745-858 | That state is the original, all of it, if and only if no plain empty cell stands in a row that comes in with a background, every marked empty cell is one that drawing can make, and no cursor waits behind an empty last cell |
| `Keyframes.RestoredSame` | reconnect_pack.go:745-858 | The computed state equals the original exactly under that condition |
| `Keyframes.DoneSame` | reconnect_pack.go:629-648 | Row by row: what is shown equals what was asked for exactly when no cell is stained and each marked empty cell can be made |
| `Keyframes.StainedStates` | reconnect_pack.go:569-600 | Two reachable states that are not restored: a wrapped row scrolled in under a coloured first character, and an alternate screen entered under a coloured parked pen |
| `Keyframes.EdgeIsLost` | reconnect_pack.go:432-469 | A state whose bold empty last cell follows a character of another style is not restored |
| `Keyframes.MarkedStates` | reconnect_pack.go:432-517 | Nor are a state with two bold empty cells in a row and one with a bold empty cell on each side of a narrow bold character |
| `Keyframes.WideBetweenKept` | reconnect_pack.go:432-517 | Around a wide bold character both come back: that state is restored whole |
| `Keyframes.RestoreRoundTrip` | reconnect_pack.go:860-917 | A restore (no keyframe at all when the state looks pristine) gives back the state if and only if it is faithful and, when skipped, nothing was typed that the skip forgets |
| `Keyframes.PristineFresh` | reconnect_pack.go:864-886 | A state judged pristine is the blank terminal exactly when no screen cell was ever typed and no row is marked as continued |
| `Keyframes.TypedSpacesForgotten` | reconnect_pack.go:864-886 | A screen of typed spaces is judged pristine and comes back never written |
| `Packing.PlainRow` | reconnect_pack.go:268-304 | For every row the fast form accepts, the general cell loop emits the same operations, pen and row end |
| `Packing.Packer.DrawPlainRow` | reconnect_pack.go:268-304 | The fast form, when it accepts, writes exactly what the general form would; when it declines it has written nothing |
| `Packing.Packer.FlushSkip` | reconnect_pack.go:388-396 | Moves over the skipped columns and nothing else |
| `Packing.Packer.FlushRun` | reconnect_pack.go:397-415 | Writes the gathered run as the drawing definition says |
| `Packing.Packer.Turn` | reconnect_pack.go:421-546 | One turn of the cell loop, whichever branch it takes, does what the definition says and uses up as many items |
| `Packing.Packer.DrawRow` | reconnect_pack.go:376-559 | The imperative row loop writes what the drawing definition says, for every stored row |
| `Packing.Packer.FirstCell` | reconnect_pack.go:316-335 | Same, for the look at the first cell |
| `Packing.Packer.ContinueRow` | reconnect_pack.go:569-611 | Same, for joining a row to the one above |
| `Packing.Packer.LeadingContinuation` | reconnect_pack.go:616-623 | Same, for a continued first row |
| `Packing.Packer.DrawRows` | reconnect_pack.go:629-648 | Same, for all rows, flowing or placed |
| `Packing.Packer.PlaceCursor` | reconnect_pack.go:657-692 | Same, for the cursor |
| `Packing.SerializeKeyframe` | reconnect_pack.go:745-858 | The imperative serializer writes the keyframe, and a blank terminal executing it is in the original state exactly when the state is faithful |
| `Ring.RingBuffer.constructor` | muxd/ring_buffer.go:32-40 | Empty, at position 0, with the default capacity for a capacity that is not positive |
| `Ring.RingBuffer.Write` | muxd/ring_buffer.go:44-80 | After a write of any length, larger than the ring included, the ring holds the newest capacity bytes of all it was given, and its position has moved by the length |
| `Ring.RingBuffer.ReadFrom` | muxd/ring_buffer.go:177-189 | Returns exactly the bytes after a position, if and only if all of them are still held and the position is not in the future |
| `Ring.RingBuffer.Tail` | muxd/ring_buffer.go:145-166 | The newest n bytes, across the wrap |
| `Ring.RingBuffer.Reset` | muxd/ring_buffer.go:239-248 | Empties the ring and moves its position, so that no cache takes the two for the same content |
| `Ring.PutWraps` | muxd/ring_buffer.go:60-77 | Writing past the end and on at the start keeps the newest bytes in order |
| `RestorePoints.Keyframe.Reset` | session_screen.go:67-74 | Starts over at the ring's present on the given grid, or the spawn grid |
| `RestorePoints.Keyframe.Advance` | session_screen.go:79-110 | Feeds the model from the ring and then from the incoming chunk up to the target; model and unconsumed bytes together still stand for the same stream, and the ring always still holds what is asked for, so the restart branch is dead |
| `RestorePoints.Keyframe.Admit` | session_screen.go:119-134 | Before a chunk is written the window is brought within its bound: untouched if it fits, else the model takes the stream up to half the bound from its end, or, exactly when that made it give up on a sequence, all of it, so that the window never begins inside what was given up |
| `RestorePoints.Keyframe.Ingest` | session_screen.go:139-142 | For a chunk of any size: model plus window stand for the whole stream including it, the window starts inside the ring and is at most min(256 KiB, half the ring); it moves exactly when it would outgrow that, and is empty whenever a sequence had to be given up on |
| `RestorePoints.Keyframe.Resize` | session_screen.go:148-157 | A resize takes effect at its own byte position: everything before it has been consumed at the old size |
| `RestorePoints.Keyframe.Take` | session_screen.go:175-193 | A terminal given the state and then the window is the terminal that has seen the whole stream |
| `RestorePoints.Keyframe.Install` | session_seed.go:196-201 | A snapshot true at a held ring position replaces the model there, and the window is the ring after it |
| `RestorePoints.TakeMore` | session_screen.go:79-110 | Consuming a prefix of the window changes neither the stream stood for nor the terminal reached |
| `RestorePoints.StillHeld` | session_screen.go:139-142 | What a write pushes out of the ring was not needed |
| `Viewers.ExactlyOnce` | session_viewport.go:351-435 | In every run of output, resizes, window changes, answers, writes and syncs: a viewer that is shown and not stale holds every event since its last sync, once and in order with each resize in place, if and only if no step since that sync slipped past it (output or a queued frame before its first window, or a re-attach at another size); it is stale exactly while a resync is queued or in its writer's hands; its queue never exceeds 256 |
| `Viewers.RunInv` | session_viewport.go:351-435 | The invariant behind it, over all runs |
| `Viewers.OutputKeeps` | session_viewport.go:351-371 | Fan-out keeps it, whether the frame is queued, refused or dropped for an observer (when which: `Viewers.Delivered`) |
| `Viewers.AppliedKeeps` | session_viewport.go:379-401 | So does announcing a size, in or out of band, or answering one viewer |
| `Viewers.WriteKeeps` | handlers.go:751-800 | So does the writer's taking a frame, which it drops for an observer |
| `Viewers.WindowKeeps` | session_viewport.go:222-246 | So do a window change, with the resync of a returning tab, a restart and a sync |
| `Viewers.StaleExactly` | session_viewport.go:351-435 | In every run a viewer is stale if and only if, since its last sync, output came when 248 frames were queued for it while shown, a size when 256 were, its window was shown again, or the restore point was replaced |
| `Viewers.Delivered` | session_viewport.go:351-371 | In every run, output to a viewer that is shown and not stale follows all it has been sent, and it is marked stale instead if and only if 248 or more frames are queued |
| `Viewers.Announced` | session_viewport.go:379-435 | In every run, a size follows all a viewer that is not stale has been sent, until all 256 places are taken |
| `Viewers.OwedOne` | session_viewport.go:222-246 | In every run, a viewer that becomes stale is owed one resync, behind all it was sent, a fast one if and only if its window came back without asking for its scrollback |
| `Viewers.SilentUntilSync` | session_screen.go:254-259 | Until it syncs, a stale viewer is queued nothing but resyncs: what is left of its queue is a suffix of what was there |
| `Viewers.ResyncIsReached` | session_screen.go:224-250 | Its writer comes to the resync by taking no more frames than are queued |
| `Viewers.NeverAdrift` | session_viewport.go:222-246 | Once a viewer has been shown, nothing but a re-attach at another size can slip past it |
| `Viewers.ShowsAMoment` | session_screen.go:224-250 | What such a viewer shows is the session's terminal at some point of the stream since its sync, and the present once its queue is empty |
| `Viewers.ConnectDrifts` | handlers.go:521-531 | The condition bites: output between a browser's connect and its first size is dropped for an observer, and no resync follows |
| `Viewers.AnswerMayBeOld` | session_viewport.go:254-281 | After an answer to an ungranted size, the size last told to the viewer is the session's if and only if no other size was applied between reading and queueing the answer |
| `Sessions.Session.Subscribe` | session_manager.go:472-484 | A viewer joins with an empty queue at the stream's present, and is told the last size of any extent that was ever adopted or applied, or 220x50 if there was none |
| `Sessions.Session.Unsubscribe` | session_manager.go:486-497 | The viewer and everything known of it are forgotten |
| `Sessions.Session.FanOut` | session_viewport.go:351-371 | Each viewer's part of a chunk's fan-out |
| `Sessions.Session.AnnounceAll` | session_viewport.go:392-400 | Each viewer's part of a new size |
| `Sessions.Session.ResyncAll` | session_screen.go:263-267 | Every viewer is stale |
| `Sessions.Session.Chunk` | session_mux.go:546-557 | One critical section: the restore point takes the chunk and the viewers its filtered form; viewers synced at different moments and not stale still agree with the restore point |
| `Sessions.Session.ApplyGrid` | session_viewport.go:379-401 | The size is recorded and reaches the restore point and every viewer at the same point of the stream |
| `Sessions.Session.SetPTYSize` | types.go:260-280 | The size reported, unless it is none, is the session's from then on |
| `Sessions.Session.SyncViewer` | session_screen.go:224-250 | The queue is thrown away, the mark cleared, and the state and window handed out are the terminal that has seen everything; with no restore point the size is the last one known; an unknown viewer is refused |
| `Sessions.Session.TakeFrame` | handlers.go:751-775 | The writer's next frame, or nothing for an observer |
| `Sessions.Session.SetViewerSize` | session_viewport.go:222-246 | A viewer's window, with the resync owed to one that was shown before; negative sizes are an error, a viewer already gone is not |
| `Sessions.Session.TellViewer` | session_viewport.go:273-281 | An answer for one viewer, in order with its output |
| `Sessions.Session.RestartLocalCopy` | session_seed.go:53-59 | Ring and restore point are dropped together and every viewer is owed a resync |
| `Sessions.Session.Adopt` | session_mux.go:402-414 | A re-attached stream's size is recorded and taken at the end of what is held, or the restore point starts over; no viewer is told |
| `Sessions.Session.Attach` | session_mux.go:347-415 | The local copy is kept if and only if the replay begins exactly where it ends, the size reported is recorded, and the new base maps the replay's first byte to the ring's end |
| `Sessions.Session.InstallAt` | session_seed.go:135-167 | Each answer of one look at a seed is given exactly in its case; an installed seed stands for its log and the ring after its position, and every viewer is stale |
| `Sessions.Session.ShowsTheSession` | session_screen.go:24-29 | A viewer that is shown, not stale and not adrift, since whose sync every chunk was fanned out as it came, shows the session's terminal as it was at some point since its sync, and as it is now once its queue is empty |
| `Sessions.Session.LinkedMore` | session_screen.go:24-29 | Restore points taken at different moments stay the same terminal as the stream goes on |
| `Pump.LivePasses` | replay_strip.go:56-91 | Live output reaches the viewers unchanged if and only if the filter holds nothing; otherwise a viewer synced meanwhile is sent held bytes twice or never sent the end of a clipboard write it has the beginning of |
| `Pump.OutputPump.constructor` | session_mux.go:473-483 | A pump starts with a fresh filter and the replay still to come |
| `Pump.OutputPump.Split` | session_mux.go:523-544 | The historical part and the live part of a chunk are filtered as what they are, across the replay's end |
| `Pump.OutputPump.Take` | session_mux.go:514-557 | The restore point gets the chunk itself; the viewers get what the filter let through; with the replay over and the filter idle they get the chunk, and viewers synced since stay in step with the restore point |
| `Pump.OutputPump.PassedSoFar` | replay_strip.go:50-91 | Over the whole stream the viewers were sent, with what is held, everything but clipboard writes begun in the replay |
| `Streams.Contiguous` | session_mux.go:347-415 | In every run of output, sizes, frames moving through both queues, drops and re-attaches: while the stream admits no loss, its count is the place it has read to if and only if no arriving frame had bytes missing in front of it, the attachment's arithmetic is right if and only if nothing was thrown out of the event queue either, and if neither ever happened the ring is a contiguous piece of the daemon's output, each byte where the base puts it |
| `Streams.NothingIsLost` | muxd/queue.go:36-78 | In every run without one of the losing steps, while the stream admits no loss: its count is the place it has read to, ring and events join on to it, and the frames still to come follow on from there to the daemon's present or to an announcement |
| `Streams.RunInv` | session_mux.go:575-661 | The invariant behind it |
| `Streams.ProducedKeeps` | muxd/session.go:210-241 | What the program writes, queued while fewer than 248 frames wait and otherwise announced as lost, keeps the account and the order of the frames |
| `Streams.PushKeeps` | muxd/session.go:700-738 | A control frame on a full queue of the daemon's, which gives up its oldest, leaves the frames in order |
| `Streams.ArrivedKeeps` | muxd/client.go:736-775 | Reading the next frame keeps the account: output is counted only when it is handed over, a refused frame and an announcement mark the stream, and what a full event queue gives up is accounted for |
| `Streams.ReattachedKeeps` | session_mux.go:618-661 | A re-attach keeps the copy and its place if and only if the stream has reported no loss and the replay begins where it ended; otherwise the copy is given up; either way the account starts over and the replay is on its way |
| `Streams.LossIsAFullQueue` | muxd/client.go:740-769 | On a stream that has lost nothing it does not admit, a step loses bytes without a word exactly when a control frame meets a full queue of the daemon's whose oldest frame is output or an announcement that nothing on the way before it and nothing next after it announces, or a size meets a full event queue whose oldest event is output |
| `Streams.SilentLoss` | muxd/client.go:763-811 | The second happens: 256 frames behind and a resize, and the stream is resumed over a hole it does not report |
| `Streams.EvictedLoss` | muxd/session.go:719-738 | So does the first: 248 frames waiting at the daemon and nine sizes, and the stream reads on over a byte it never had, its count one short of where it is |
| `Seeding.SeededIsExact` | session_seed.go:135-209 | In every interleaving of daemon output and sizes, pumping, reading the generation, snapshots, installs and contiguous re-attaches (the size reported, then the missed bytes alone), an installed seed makes the restore point the daemon's own terminal, as of everything heard (or of the snapshot, while sizes it has seen are in flight), if and only if the run has not drifted: on every terminal if not, and not on the one that remembers everything if so |
| `Seeding.RecorderTells` | session_seed.go:135-209 | On the terminal that remembers every event but repeated sizes, the restore point is the daemon's terminal exactly when it has been given no sizes ahead of it and nothing else that differs; once something else differs it never is again, until another seed |
| `Seeding.ApartStands` | session_mux.go:399-415 | Whatever the restore point and the daemon's terminal are given next, with the same bytes in it, the drift tells on every terminal which sizes the one has more than the other |
| `Seeding.SeedIsExact` | session_seed.go:135-167 | At the install: the snapshot and the ring after it are the daemon's terminal at what this server has heard or at the snapshot |
| `Seeding.InstallKeeps` | session_seed.go:135-209 | An install under an unchanged generation keeps the invariant, any other changes nothing |
| `Seeding.HearKeeps` | session_mux.go:490-557 | Taking in the daemon's next event keeps it, also a size the seed already has |
| `Seeding.RejoinKeeps` | muxd/session.go:637-668 | A contiguous re-attach keeps the invariant: the reported size and the missed bytes are given, the missed sizes are not, and a size the attach itself brings about is still to come |
| `Seeding.MissedExactly` | session_mux.go:399-415 | A restore point in step is in step after a re-attach if and only if every missed size changes nothing, or one does, is the size reported, and was missed before every byte |
| `Seeding.MissedWhileAway` | session_mux.go:399-415 | For every run of events missed by a seeded restore point: after the re-attach it is the daemon's terminal, on the one that remembers everything, exactly then |
| `Seeding.SizesGivenTwice` | session_seed.go:135-209 | A run whose snapshot has seen two different sizes still in flight ends with everything heard and another terminal |
| `Seeding.ResizedWhileAway` | session_mux.go:399-415 | So does one whose re-attach has missed output and then a new size |
| `Seeding.ThereAndBack` | muxd/daemon.go:452-463 | So does one whose re-attach has missed a size, output and the way back: the restore point is given the output alone |
| `Boundary.FeedText` | stream_boundary.go:37-66 | For every well-formed UTF-8 text the byte-wise tracker reaches the state of stepping over its code points, two-byte C1 controls inside sequences included |
| `Boundary.FeedChar` | stream_boundary.go:37-66 | The same for one character from any state |
| `Boundary.FeedChunks` | stream_boundary.go:37-66 | Where the bytes are cut does not matter |
| `Boundary.ParserBoundary.FeedBytes` | stream_boundary.go:37-66 | The imperative loop is that tracker |
| `Boundary.ParserBoundary.Step` | stream_boundary.go:68-125 | So is one step of it, escape inside a string included |
| `Boundary.ParserBoundary.Reset` | reconnect_pack.go:974-977 | Back to the zero state |
| `XParser.ReadsAlike` | muxd/vt_parse.go:43-117 | Read byte by byte, cut anywhere, the browser's decoder finds the code points it finds in the whole buffer, dropping the same bytes |
| `XParser.ReceivesPoints` | muxd/vt_parse.go:145-214 | The browser's parser is given those code points and no others |
| `XParser.JoinedAlong` | stream_boundary.go:37-127 | As long as nothing dropped has turned it, the tracker stands behind the browser's parser, sequence by sequence and string kind by string kind, in the middle of the same character |
| `XParser.BelievableIff` | stream_boundary.go:127 | Whenever the tracker says ground, on a byte stream and on any ASCII text after any point of it, the browser's parser is idle, if and only if no character its decoder drops (U+FEFF, surrogate, overlong, past U+10FFFF) moves the tracker to where a text can lead it to ground first |
| `XParser.CleanText` | stream_boundary.go:37-66 | No well-formed text without U+FEFF contains such a character |
| `XParser.Disbelieved` | stream_boundary.go:37-66 | After ESC, a surrogate, U+FEFF and a value past U+10FFFF, and in an OSC string an overlong BEL, bring the tracker to ground with the browser inside the sequence |
| `XParser.InsertionIsWhole` | handlers.go:738-749 | Inserting the paste-mode sequence into a stream of bytes where the tracker says ground, on such a stream, adds exactly that one action and changes nothing of what any continuation means |
| `XParser.InsertionSwitches` | paste_infer.go:125-135 | After that insertion and any continuation the browser's modes are those it would have had with bracketed paste (2004) turned as asked at that point, and every other mode as without it |
| `XParser.ParseSequence` | muxd/vt_parse.go:291-414 | A plain control sequence is parsed as one action and leaves the parser idle |
| `Prelude.PreludeClears` | stream_boundary.go:129-143 | From every state of a terminal, either screen displayed, the prelude leaves one that has just come up, but for the normal screen's saved cursor; it is one that has just come up if and only if nothing is saved there |
| `Prelude.PreludeBytesClear` | stream_boundary.go:129-143 | From wherever a browser's parser and terminal are, the actions its parser hands on for the prelude's bytes make of the terminal exactly that |
| `Prelude.KeyframeSaves` | reconnect_pack.go:805-826 | Of everything a keyframe writes, something saves a cursor if and only if the state has one saved or a parked screen |
| `Prelude.RestoreOver` | reconnect_pack.go:890-915 | A restore over any terminal shows what it shows on one that has just come up, but for the saved cursor where the keyframe saves none |
| `Prelude.RestoredOver` | reconnect_pack.go:890-915 | A restore over any terminal gives the state back if and only if it does on one that has just come up, and the state has a saved cursor or a parked screen or the terminal had no saved cursor |
| `Writer.PreludeSyncs` | stream_boundary.go:129-143 | From wherever a browser was, inside a character or a sequence, the prelude's bytes bring it to idle having handed on exactly the prelude's actions, and what follows is read as by a browser that starts there |
| `Writer.PreludeModes` | stream_boundary.go:129-143 | Whatever modes a browser had, after the prelude's bytes absolute addressing, autowrap and the carriage return with a line feed are on, the alternate screen and insert off, and every other mode, private or not, is as it was |
| `Writer.ResetIsSound` | reconnect_pack.go:974-977 | Resetting the tracker before feeding it a restore is sound: from any state it ends in one that no later byte can tell apart |
| `Writer.AlikeFeed` | stream_boundary.go:37-66 | States that differ only in fields nothing will read stay so |
| `Writer.WsWriter.constructor` | handlers.go:521-531 | A connection begins with a restore, wherever the browser was |
| `Writer.WsWriter.Restore` | reconnect_pack.go:926-991 | Another restore does the same |
| `Writer.WsWriter.Insert` | handlers.go:738-749 | The answer is inserted where the tracker is at ground; on a stream on which the tracker never slips the browser's parser is idle there, takes it as one sequence, and has mode 2004 as answered and every other mode as before |
| `Writer.WsWriter.Answer` | handlers.go:730-749 | A late answer is sent at once at ground and kept otherwise |
| `Writer.WsWriter.Output` | handlers.go:777-802 | A frame is sent whole, and a waiting answer right after the first one that ends at ground; every insertion so far keeps what was said of it |
| `Writer.WsWriter.InsertionsWhole` | handlers.go:730-802 | Every answer inserted into well-formed text without U+FEFF, over all restores, outputs and answers of a connection, found the browser's own parser idle, was one action to it, and turned bracketed paste as answered and no other mode |
| `ReplayFilter.FilterKeeps` | replay_strip.go:50-91 | Over every chunking: what went through, with what is held, is the input without the OSC 52 writes whose ESC is historical, whenever they end; those begun live are untouched |
| `ReplayFilter.FilterVersusExpression` | replay_strip.go:36 | On history, the filter removes what one pass of the regular expression removes if and only if no such write is cut short by a stray ESC or left open |
| `ReplayFilter.ReplayClipboardFilter.Feed` | replay_strip.go:56-91 | The imperative loop, with its early return, is that filter |
| `ReplayFilter.PassAll` | replay_strip.go:57-59 | Live data passes an idle filter unchanged |
| `Clipboard.WriteIsSeen` | clipboard_stream.go:21-107 | Every valid text of up to 4 MiB sent as OSC 52 and base64, over every chunking, is emitted once, verbatim, with the offset past its terminator and the flag of where its ESC fell, if and only if the scanner is not inside another sequence or string at its ESC; inside one nothing of it is emitted |
| `Clipboard.BrokenOffIsLost` | clipboard_stream.go:41-48 | A write that breaks off a colour sequence is missed, though a terminal begins its string there |
| `Clipboard.SequenceIsSeen` | clipboard_stream.go:67-84 | A control sequence of up to 64 bytes is told as its 2004 fields are, each of them once |
| `Clipboard.AllSent` | clipboard_stream.go:21-107 | Nothing is emitted but such writes, each once and in order of offset, and switches of mode 2004 that stand in the input as whole control sequences |
| `Clipboard.CopiedTextIff` | clipboard_stream.go:88-107 | An OSC string writes a text if and only if it is `52;`, a selection of the accepted characters, a semicolon and base64 of it, the text is not empty, at most 4 MiB and encodes code points, and the string is not a query |
| `Clipboard.ClipboardScanner.Feed` | clipboard_stream.go:21-90 | The imperative loop is the scanner, and its payload never exceeds the bound |
| `Clipboard.ClipboardScanner.StepByte` | clipboard_stream.go:21-90 | One byte through the program's scanner is one step of the definition, in every state |
| `Clipboard.ClipboardScanner.FinishString` | clipboard_stream.go:92-107 | The end of a string emits what the definition says and empties the payload |
| `Clipboard.ValidTextIff` | clipboard_stream.go:92-107 | The validity test accepts exactly the encodings of code point sequences |
| `Base64.DecodeEncode` | clipboard_stream.go:92-107 | Decoding inverts encoding, for every byte string |
| `Base64.EncodeShape` | clipboard_stream.go:9-19 | Encoded text has the length the scanner's bound is computed from, in the base64 alphabet |
| `Base64.DecodesIff` | clipboard_stream.go:96-103 | What decodes is, line breaks apart, groups of four digits, the last ending in up to two signs of padding; anything else fails |
| `Base64.BreaksIgnored` | clipboard_stream.go:96-103 | A carriage return or line feed anywhere changes nothing |
| `Viewports.Viewports.Viewport` | session_viewport.go:121-152 | The owner's window and nobody else's, or the per-axis minimum of the windows that show something |
| `Viewports.WantedOnce` | session_viewport.go:121-152 | There is one such size |
| `Viewports.Viewports.SetViewerOwner` | session_viewport.go:159-185 | A claim older than the newest, or for a viewer that is gone, changes nothing; the epoch never falls |
| `Viewports.Viewports.ReleaseViewerOwner` | session_viewport.go:192-205 | Only the owner's departure gives the grid up |
| `Viewports.Viewports.SetViewerSize` | session_viewport.go:222-246 | One axis at zero is a withdrawal |
| `Viewports.Viewports.Unsubscribe` | session_manager.go:486-506 | A departing viewer's constraint goes with it |
| `Viewports.Viewports.SyncViewport` | session_viewport.go:289-331 | Sends the wanted size exactly when the declared one differs, there is a stream and it works |
| `Viewports.Viewports.NoteDeclared` | session_viewport.go:335-339 | An attach records what it declared |
| `Viewports.Viewports.Converged` | session_viewport.go:289-331 | Over every interleaving of subscribe, unsubscribe, claim, release, resize and attach steps: with no sync outstanding or failed and no attach in flight, the daemon has exactly the wanted size if and only if the last size sent during the attach was the one it began with, or another has been sent since |
| `Viewports.AttachCrossed` | session_mux.go:372-421 | The exception is real: a resize there and back around an attach leaves the daemon with a size nobody has |
| `Chunks.Slicing` | files_chunk.go:194-199 | Expected sizes cut the file into consecutive slices, each at most a chunk, none empty unless the file is |
| `Chunks.AssembledSize` | files_chunk.go:588-630 | Parts of the expected sizes add up to the declared size |
| `Chunks.AssembledFile` | files_chunk.go:588-609 | Slices of one file, put together, are that file |
| `Chunks.Staging.Init` | files_chunk.go:352-430 | Whatever slice size a later init asks for, or none, the first shape and every part received stay; sizes outside 8 KiB to 8 MiB are refused |
| `Chunks.Staging.Chunk` | files_chunk.go:432-503 | A slice is kept if and only if its upload, index and length are right; a duplicate replaces itself |
| `Chunks.Staging.Scan` | files_chunk.go:206-224 | The received indices, in order, are exactly the parts of the right size, and over every order of requests that is every part there is |
| `Chunks.Staging.Missing` | files_chunk.go:228-241 | The missing indices, in order, are exactly the rest of the upload |
| `Chunks.Staging.Assemble` | files_chunk.go:517-630 | Unknown, incomplete with exactly what is missing, or assembled; with requests taken one at a time, the size-mismatch branch is dead |
| `Chunks.Staging.FromOneFile` | files_chunk.go:588-609 | If every part came from one file, completing publishes that file's bytes |
| `Chunks.ChunkSequenceReader.Read` | clipboard_chunks.go:19-44 | However short the reads, the reader returns the parts' concatenation, never nothing before the end, and says so exactly at the end |
| `Chunks.ReaderAgrees` | clipboard_chunks.go:19-44 | Its stream is what assembling puts together |
| `Landing.Directory.TargetName` | files_chunk.go:65-98 | The first name of the list that is free or already holds these bytes |
| `Landing.Directory.Publish` | files_chunk.go:632-679 | Against other writers appearing at every step: no existing file changes, the bytes are there on success, and at most that one file is new; it is contended if and only if each of 16 times the first open name was free at the look and a rival's at the link, and otherwise ends at the first attempt that was not, under the first open name or, exactly if all 1001 names hold other bytes, under none |
| `Landing.PublishedAlone` | files_chunk.go:632-679 | With no other writer the first attempt decides: the bytes are published under the first name that is free or holds them, if one of the 1001 is or does |
| `Landing.PublishedOnce` | files_chunk.go:65-98 | Completing again, whatever has been added since, finds the same file |
| `Facts.MergeRequestFacts` | agent_report.go:1367-1396 | The loops over map and list give the folded facts sorted by time and id, each id once, or the first conflict |
| `Facts.Incremental` | agent_report.go:1367-1396 | Folding two batches one after the other gives the same list, or the same conflict, as folding them in together |
| `Facts.ConflictStays` | agent_report.go:1367-1396 | A conflict in the first batch is the conflict of both |
| `Facts.ListedOnce` | agent_report.go:1385-1395 | A set of facts has one sorted list: walking the map in any order gives the same report |
| `Facts.OnlyGrows` | agent_report.go:1422-1496 | A known request stays, its counts never fall, its coverage never weakens but for timing, a revocation stays, Deepwork's own facts never change |
| `Facts.FoldedIsMerged` | agent_report.go:1367-1396 | However many rows of however many requests are folded, each request holds its own rows merged in order |
| `Facts.TokensTogether` | agent_report.go:1445-1452 | Of any rows of one request, every token count is the most any of them has said |
| `Facts.TimesTogether` | agent_report.go:1453-1487 | It ended when the latest row says, was seen when the earliest does, and started and gave its first token when the earliest does, unless a row revoked its timing |
| `Facts.TextsTogether` | agent_report.go:1422-1444 | Every text is the first that any row has said |
| `Facts.CoversTogether` | agent_report.go:1468-1490 | Every coverage is the strongest of any row, that of revoked timing excepted |
| `Facts.DiagnosticsTogether` | agent_report.go:1476-1478 | Its diagnostics are those of every row, each once, the first row's first |
| `Facts.RevokedTiming` | agent_report.go:1479-1487 | Revoked timing is gone if and only if the revocation met the request by merging or came without times: a revoked first fact keeps the times it came with |
| `Facts.OwnFacts` | agent_report.go:1367-1414 | Deepwork's own fact reported again stays as it was if it agrees in duration and in all that is not a time, and is a conflict otherwise |
| `SearchIndex.FileSearchIndex.Build` | files_search_index.go:141-270 | A refresh that met no error lists every name reachable without entering a skipped directory exactly once, full scan or reuse, within 128 MiB; a failed one leaves the names of the view before it; it does not fail if every directory it comes to can be read and the exact index fits 128 MiB |
| `SearchIndex.SearchFinds` | files_search_index.go:289-318 | The hits are the entries in which every term occurs, in the path for several terms or one with a slash and in the name otherwise, each once and in the order of the index |
| `SearchIndex.FileSearchIndex.Scan` | files_search_index.go:198-262 | The breadth-first loop, with reuse of directories whose stamp has not moved, ends and finds everything |
| `SearchIndex.Builder.Read` | files_search_index.go:222-261 | Reading a directory adds its names but for directories never entered |
| `SearchIndex.Builder.Reuse` | files_search_index.go:213-221 | Reusing one adds what is remembered of it |
| `SearchIndex.ScanOne` | files_search_index.go:198-262 | Listing one more queued directory keeps the scan sound, distinct and complete so far |
| `SearchIndex.ScanAll` | files_search_index.go:198-262 | A scan that has listed its whole queue has found everything, once |
| `SearchIndex.SameIndex` | files_search_index.go:213-221 | Two listings that agree wherever the scan goes lead to the same index |
| `SearchIndex.FileSearchIndex.Matches` | files_search_index.go:282-325 | A kept or fresh result is the linear filter over that generation's view, if and only if the query it was worked out for has the same hits there; that query has the same words, and is the same one when neither has a NUL; one term without NUL is always answered rightly, whatever was asked before |
| `SearchIndex.KeyTells` | files_search_index.go:282-288 | Queries without NUL have keys of their own |
| `SearchIndex.KeysSame` | files_search_index.go:282-288 | Any two queries share a key exactly when prefix and terms, cut at their NULs, are the same words |
| `SearchIndex.OneTermAlone` | files_search_index.go:282-288 | A query of one term without NUL shares its key with no other query, whatever its characters |
| `SearchIndex.AskedSecond` | files_search_index.go:282-325 | Of any two queries of the same words, with few enough hits to be kept, the one asked second is answered with the hits of the first |
| `SearchIndex.WrongHits` | files_search_index.go:282-325 | A query asked after one whose term holds a NUL is answered with that one's hits |
## Left out

- Keyframes.KeyframeRoundTrip: covers every state on a grid of at least two rows and columns whose wide characters are whole; `Hidden` and `Lone` cells, characters widened by marks, combining marks, character sets and the DECRC corner cases, cursor shape, the private modes and the LNM and insert modes restated at the end are not modelled.
- Keyframes.KeyframeShows: history is unbounded, and a saved cursor does not move when its screen scrolls (`muxd/vt.go` adjusts it by what has scrolled off); the drawing never scrolls after the cursor is saved.
- Packing.SerializeKeyframe: writes operations, not their bytes; the spelling of CUP, CUF, CHA, CUU, CUD, ECH, SGR, DL, DECSTBM and DECSC as bytes is not modelled, nor are the synchronized-output brackets around them. Styles are held by value, not by id, and spans and runs count characters and columns where the source counts bytes.
- Packing.RowReader.Next: marks, `Lone`, `Hidden` and widened cells are not read; grapheme clusters are one glyph of width one or two, and the width table is not modelled.
- Prelude.PreludeClears: character sets and the alternate screen's own saved cursor while it is not displayed are not modelled, and neither is what erasing the history does to the row of a saved cursor.
- RestorePoints.Keyframe.Take: the number of scrollback lines asked for (5000, or 500 for a returning tab) is not modelled: the state is the whole terminal. The fallback replay without a restore point, and the stripping of device queries from the window, are left out.
- Ring.RingBuffer.Write: positions are unbounded integers where the source counts in 64 bits.
- Sessions.Session.Attach: the geometry under which replayed bytes were first drawn is unknown to the server; they are taken at the size the attach reports, as in the source.
- Viewers.ExactlyOnce: `world` is what the pump fans out, after the clipboard filter; `Pump.LivePasses` says when that is the stream itself.
- Streams.Contiguous: the choice of where a replay begins (`muxd/session.go`, which may move it forward past a cut sequence) is left open, any offset; the exit notice, which is the last frame, is left out, and a connection that drops loses whatever is on its way.
- Seeding.SeededIsExact: the daemon's archive model and the browser-like model of the restore point are one machine, and the paging of scrollback lines that completes a snapshot is not modelled; re-attaches in the middle of a seeding are the contiguous ones, since any other starts the copy over under a new generation. A re-attach and the arrival of its replay are one step: a seed read in between has seen every missed byte, so it waits for them.
- XParser.ReadsAlike: bytes that can begin no character, and the lead bytes of those that are always dropped, are dropped at once, where the source waits for the rest of the character first.
- ReplayFilter.FilterVersusExpression: the expression is compared on history alone, as the source uses it.
- Clipboard.WriteIsSeen: covers OSC 52 writes whose selection is made of the characters the source accepts (`cps0-7`), up to the 28 that fit the payload bound; other OSC strings matter only through what they leave the scanner in, and control sequences through their 2004 fields.
- Viewports.Viewports.Converged: sizes are not clamped to 16 bits on the wire, and a daemon that ignores a declaration is not modelled.
- Chunks.Staging.Init: the upload id, its hash, the resume token of attachments and the sweep of stale uploads (which is `Abort`) are left out; chunk writes are atomic, as the rename makes them.
- Chunks.Staging.Assemble: each request is one step. The source holds no lock while it receives a chunk, so one checked against an upload that is then aborted can be renamed into the upload that takes its place while that is being completed; its size-mismatch branch answers that.
- Landing.Directory.Publish: path resolution, permissions and I/O errors are left out, files are never deleted by others while it runs, and the short content hash is taken to be injective.
- Facts.MergeRequestFacts: fields the merge never looks at are one string; two facts are compared by value where the source compares their JSON.
- SearchIndex.FileSearchIndex.Build: the tree stands still while it is scanned, equal time stamps mean equal names, and cancellation, the limits on builders and roots, and the timing of partial views are left out.
- The clipboard history store (`clipboard_store.go`) and the overview cache (`sessions_overview.go`): their invariants are one short induction each and would only add easy members.
- Paste-mode persistence, device-query stripping, JSON, sockets, timers, logging, HTTP handlers, tmux and process probing: I/O or thin wrappers.
