# What this project proves

A model, in Dafny 4.11, of the parts of the program whose correctness is hard to see from one function:
the chat text pipeline, the screen share session, the Wayland clipboard client, the audio frame adapters,
the echo canceller and three packing and splitting algorithms. `dafny verify dfyconfig.toml` checks all of it.

Code that works step by step is a method with loops, or a class with the fields it updates, and is proved
against a specification function or against the property itself; what the program promises is then proved
of that specification for every input, and for every run where there is a state machine.

| files | what they hold |
|---|---|
| `Cells`, `ChatSpans`, `ChatWrap`, `ChatRows` | text in cells; cutting a message into spans; the wrap; display lines, drawn rows, the mouse selection |
| `WrapLossless`, `LongTokens`, `WrapOptimal`, `WrapMinimal`, `WiderPanels`, `DroppedTails` | the wrap loses nothing and fits; how a long word is cut; no wrap of the same tokens has fewer lines; a wider panel takes no more; when white space at a paragraph's end is dropped |
| `ParagraphTexts`, `DrawnLines`, `CopyRoundTrip`, `MessageRoundTrip`, `MarkedLines`, `LongMessages` | where runes are drawn; dragging over a message copies its text; links and copy buttons stay what they are; messages of more than twelve lines |
| `Session`, `SessionRuns`, `SessionLost`, `SessionEnds`, `SessionReleases`, `SessionLeaks`, `SessionEncoders` | the locked sections; every interleaving of supervisors, Restarts and Stops; how a session loses its supervisor; when it ends and when it never does; what is released and reported, and what never is; one encoder at a time |
| `StderrLines`, `StderrLedger` | cutting stderr into lines, and the ledger of repeated ones; exactly which are logged |
| `WaylandWire`, `WaylandConn`, `WaylandFraming`, `WaylandDevice`, `WaylandBytes` | words and strings; messages over socket reads; framing theorems; offers and the selection; what each byte means |
| `Pcm`, `AudioFrames`, `AudioLoopback` | samples as bytes; the two adapters; chunks do not matter, and capture undoes playback |
| `Spectra`, `EchoGains`, `EchoAdaptation`, `EchoQueue`, `EchoCanceller` | packed complex spectra and the update as a gradient step; bounded gains; when the filter counts as adapted and what its leak follows; the delay queue; the canceller over every run |
| `FlowLayout`, `DroppedPaths`, `WrittenPaths`, `SettingsRows` | rows of labels; dropped file paths, escaped and quoted; the rows of the settings dialog |
| `Bytes`, `Options` | bytes and chunks of them; an option type |

## Findings

Nine things a reader of the code might expect turn out to hold only under a condition. Each is proved with it.

* A screen share whose restarted encoder exits after `Restart` has attached it and before `Restart` has
  cleared `restarting` loses its supervisor, and with Restarts one at a time that is the only way to lose it
  (`SessionLost.UnfinishedMeansLost`, `SessionLost.LostMeansOwnWindow`). Such a session is left with nobody to
  finish it exactly when, besides, nobody went to finish before: no earlier supervisor passed its check and
  no Restart failed or was given up (`SessionEnds.UnfinishedIff`). Once it is stopped, exactly then `Done`
  never closes (`SessionEnds.NeverEndsIff`). One run ends so (`SessionEnds.LostHappens`); in another an
  earlier supervisor is past its check, and the session can still end (`SessionEnds.LostButEnds`).
* A supervisor that finishes the session made its check with its generation current and `restarting` not set.
  With Restarts one at a time no Restart was then under way (`SessionEnds.NoRestartThen`); with two at once
  the first clears the flag of both, and one can be (`SessionEnds.FlagIsShared`).
* Not every release of a session is called. What finish and Stop take they call (`SessionReleases`), but a launch
  that keeps a cleanup over another, or after finish has taken what there was, or gives the session a capture
  source after finish released the one there was, leaves one that nothing ever calls; without such a launch all
  are called (`SessionLeaks.AllCalledIff`). One Restart is enough for it (`SessionLeaks.LateLaunchLeaks`).
* With Restarts one at a time never two encoders run, unless waiting for the old one timed out
  (`SessionEncoders.OneEncoder`, `SessionEncoders.TimeoutOverlaps`).
* The wrap takes the fewest lines of all that cut a word only if it is wider than a line and from the start of a
  line on (`WrapMinimal.FewestOfAll`); one that began such a word on the line already open could take fewer
  (`WrapMinimal.OwnLineCosts`).
* Copying a message by dragging leaves out blank paragraphs, and white space at the end of a paragraph that
  does not fit on the line: the copy is the text exactly when no blank paragraph stands before one that is
  not blank and the white space each paragraph ends in fits on the line that its last word ends on
  (`MessageRoundTrip.CopyRoundTrips`, `DroppedTails.TailDroppedIff`). After a word that fills the line a
  single blank is lost (`DroppedTails.FullLineDrops`).
* The lines of stderr are the same however the bytes are cut into writes exactly when no line is longer than
  64 KiB and an unfinished one has at most a byte more (`StderrLines.CutsAgreeIff`).
* A Wayland request whose size does not fit sixteen bits, or a string too long for its length word, is not
  read back; every other is (`WaylandConn.FramesBackIff`, `WaylandWire.StrReadsBackIff`).
* Dropped paths come back from escaping, joining, splitting and unescaping exactly when none of them is
  empty (`DroppedPaths.RoundTripIff`).

## Model

Paths are relative to the root of the repository.

| member | source | states |
|---|---|---|
| `ChatSpans.SplitWordsAndSpaces` | ui_room_chat.go:130-156 | the tokens are the specified runs, which `ChatSpans.TokensTokenize` shows to be the maximal runs of white space and of anything else |
| `ChatSpans.TokensTokenize` | ui_room_chat.go:130-156 | the runs rebuild the text, each is of one kind and not empty, and kinds alternate |
| `ChatSpans.TokenizationIsUnique` | ui_room_chat.go:130-156 | there is only one such cut |
| `ChatSpans.FilterOverlaps` | ui_room_chat.go:225-241 | the matches kept are in order and apart, and one is left out only for one kept before it that reaches past its start |
| `ChatSpans.CutAtMatches` | ui_room_chat.go:243-269 | the spans are the text rune for rune, each rune marked by the kept match it lies in and plain outside them |
| `ChatSpans.ParseMessageSpans` | ui_room_chat.go:167-270 | for any list of matches the spans concatenate to the message, marked by such a selection of the matches; a /copy message is one button |
| `Cells.FitRunesWithin` | ui_room_chat.go:355-365 | the count of runes that fit, possibly none |
| `Cells.FitCountIsLongest` | ui_room_chat.go:355-365 | that count is the longest prefix no wider than the room |
| `Cells.FitRunes` | ui_room_chat.go:367-376 | the same, but at least one, so that a wrap always advances |
| `ChatWrap.WrapSpansToLines` | ui_room_chat.go:277-352 | lines and glue are those of the specified wrap, for every width, and the cutting loop ends; `WrapLossless`, `LongTokens` and `WrapMinimal` say what that wrap is |
| `ChatWrap.Wrapper.Place` | ui_room_chat.go:298-321 | placing a token: on a new line when it does not fit, cut by width only when it is wider than a whole one; `LongTokens.PlacedCuts` says where |
| `ChatWrap.Wrapper.FeedPlain` | ui_room_chat.go:328-345 | where a run of white space or a word goes, and which white space becomes glue |
| `ChatWrap.Wrapper.FeedSpan` | ui_room_chat.go:323-346 | a link or a copy goes as a whole, other spans by their runs; the width counted stays within the line |
| `LongTokens.PlacedCuts` | ui_room_chat.go:298-321 | a token that does not fit on the open line starts on a new one, and each of its lines but the last is so full that the rune after it has no room |
| `LongTokens.FullCutIsUnique` | ui_room_chat.go:298-321 | a token has only one cut like that |
| `WrapLossless.WrapLosesNothing` | ui_room_chat.go:272-352 | glue and lines in order, and one dropped run of white space, give the spans back rune for rune with their link and copy marks |
| `WrapLossless.LinesFit` | ui_room_chat.go:272-352 | every line is at most the width, or five cells if that is more, and only an empty paragraph has an empty line |
| `WrapLossless.GlueIsSpace` | ui_room_chat.go:272-352 | all glue is white space and the first is empty |
| `DroppedTails.TailDroppedIff` | ui_room_chat.go:328-352 | white space at the end of a paragraph is dropped exactly when it does not fit on the line that the last word, or the indentation, ends on |
| `DroppedTails.FullLineDrops` | ui_room_chat.go:328-352 | so after a word that fills the line any white space is dropped |
| `WrapOptimal.FewestLines` | ui_room_chat.go:277-352 | when every token fits on a line, no wrap of the same tokens, whatever it breaks at and drops, has fewer lines |
| `WrapOptimal.LinesAreAWrap` | ui_room_chat.go:277-352 | and the lines are such a wrap, so the least count is reached |
| `WrapMinimal.NoChoiceIsAhead` | ui_room_chat.go:277-352 | up to any token, no wrap that keeps to the width, drops white space only at breaks and cuts a token only when it is wider than a line, from the start of a line on, has closed fewer lines than the wrap has, or as many with less on the open one |
| `WrapMinimal.FewestOfAll` | ui_room_chat.go:277-352 | so none of them has fewer lines, however wide the words |
| `WrapMinimal.LinesAreChosen` | ui_room_chat.go:277-352 | and the wrap is one of them |
| `WrapMinimal.OwnLineCosts` | ui_room_chat.go:298-303 | a wrap that began a long word on the open line could take fewer: two words that would fill two lines and take three |
| `WiderPanels.WiderIsNoTaller` | ui_room_chat.go:277-352 | a wider panel never makes a paragraph taller, whatever words and links have to be cut |
| `ChatRows.CutParagraphs` | ui_room_chat.go:473-495 | the paragraphs of a message's spans, as specified; `MarkedLines.ParagraphsKeepMarks` and `ParagraphTexts.ParagraphsSpellText` say what they are |
| `ParagraphTexts.ParagraphsSpellText` | ui_room_chat.go:473-495 | the paragraphs joined with newlines spell the message, and none holds one |
| `MarkedLines.ParagraphsKeepMarks` | ui_room_chat.go:473-495 | for every list of spans the runes of the paragraphs, in order, are those of the spans, each in the link or copy button it was in, newlines left out and every tab four blanks of its own |
| `MarkedLines.LinesKeepMarks` | ui_room_chat.go:436-534 | and so are those of the display lines, with what was dropped at breaks and at paragraph ends put back; nothing is to be put back at the ends exactly when the white space there fits |
| `ChatRows.MessageDisplayLines` | ui_room_chat.go:436-534 | the display lines are the wrapped paragraphs under their header and indentation, the first twelve and a note when there are more |
| `LongMessages.ShownIs` | ui_room_chat.go:500-534 | up to twelve lines all are shown, of more the first twelve and the note |
| `LongMessages.LongMessageCopied` | ui_room_chat.go:691-747 | dragging over the twelve lines of a longer message copies the beginning of what copying all of it would give, and nothing of the note |
| `DrawnLines.LeastRoom` | ui_room_chat.go:462-465 | a message has ten columns at least, and a wrap five |
| `ChatRows.RenderChatSpans` | ui_room_chat.go:601-662 | the characters drawn and their columns, each span clipped to the room left |
| `CopyRoundTrip.DrawnWhole` | ui_room_chat.go:601-662 | a line that fits is drawn whole, each rune in its own cells |
| `DrawnLines.PlacedAt` | ui_room_chat.go:601-662 | each rune is drawn after the cells of those before it |
| `DrawnLines.SpanDrawn` | ui_room_chat.go:601-662 | of every span as much is drawn as fits in the room left, and a rune more would not fit |
| `DrawnLines.DrawnInside` | ui_room_chat.go:601-662 | nothing is drawn outside the columns given |
| `ChatRows.RenderLine` | ui_room_footer.go:319-360 | the row a line is drawn as; blank indentation takes cells but has no characters |
| `ChatRows.RenderRows` | ui_room_footer.go:296-385 | one row for each line in view, in order |
| `ChatRows.RoomView.IsCellSelected` | ui_room_chat.go:664-689 | a cell is selected exactly when it lies between the ends of the drag in reading order, whichever way it went |
| `ChatRows.RoomView.ExtractSelectedText` | ui_room_chat.go:691-747 | the text is exactly the highlighted characters, rows of one paragraph joined by their glue |
| `ChatRows.RoomView.HandleMousePress` | ui_room_chat.go:816-826 | a press starts an empty selection and keeps the rows |
| `ChatRows.RoomView.HandleMouseDrag` | ui_room_chat.go:828-842 | a drag selects from where it began to here |
| `ChatRows.RoomView.HandleMouseRelease` | ui_room_chat.go:844-859 | the result is what was dragged over, nothing for a click |
| `CopyRoundTrip.RowPicked` | ui_room_chat.go:664-747 | a row of a dragged message hands over its text, all of it and no more |
| `CopyRoundTrip.MessageExtracted` | ui_room_chat.go:691-747 | whatever other rows are on the screen, the lines covered are what is extracted |
| `MessageRoundTrip.MessageRebuilt` | ui_room_chat.go:436-534 | the parts of the paragraphs that lines hold, with the white space dropped at each paragraph's end, rebuild the message |
| `MessageRoundTrip.CopyGivesTheMessage` | ui_room_chat.go:436-534 | dragging over a message shown whole copies its non-blank paragraphs as their lines and glue spell them; that is the whole text less dropped paragraph ends and final newlines exactly when no blank paragraph stands before another |
| `MessageRoundTrip.BlanksMatterInside` | ui_room_chat.go:728-744 | leaving out the blank paragraphs changes the text, final newlines aside, exactly when one stands before one that is not |
| `MessageRoundTrip.CanBeDragged` | ui_room_chat.go:664-689 | every message shown whole has a drag that covers it, from its first text cell to its last |
| `MessageRoundTrip.CopyRoundTrips` | ui_room_chat.go:691-747 | for every message shown whole, the copy is the text, tabs as spaces, less final newlines, exactly when no blank paragraph is inside and the white space each paragraph ends in fits on its last line |
| `Session.Session.Attach` | screenshare/session.go:197-202 | the generation is current from here on and nothing else changes |
| `Session.Session.IsSuperseded` | screenshare/session.go:211-216 | superseded exactly when another generation is current or a Restart is on |
| `Session.Session.BeginFinish` | screenshare/session.go:244-254 | only the first to come goes on, and it alone takes the cleanup |
| `Session.Session.BeginRestart` | screenshare/session.go:275-285 | a Restart goes on only for a broadcast with a generation that is not stopped, and marks it |
| `Session.Session.KeepCleanup` | screenshare/broadcast.go:238-341 | launching keeps a cleanup for the end of the session |
| `Session.Session.EndRestart` | screenshare/session.go:311-313 | the mark is cleared and nothing else changes |
| `Session.Session.BeginStop` | screenshare/session.go:324-333 | only the first Stop goes on, and takes the cleanup |
| `SessionRuns.EndsAtMostOnce` | screenshare/session.go:242-350 | over every interleaving of any number of Restarts, Stops and supervisors, Done closes at most once and only when finished and stopped, at most one error is sent, and no cleanup runs twice |
| `SessionReleases.FinishDoesItAll` | screenshare/session.go:242-271 | whenever Done is closed, the cleanup held at the lock of the goroutine that closed it and the capture source held at its release have been called, and one error was sent if it was given one and the context had not ended at its report, and none otherwise |
| `SessionReleases.ErrorIsReported` | screenshare/session.go:204-271 | and it was given one exactly if its process had failed, or the launch of its Restart |
| `SessionReleases.StopReleases` | screenshare/session.go:323-340 | once a Stop that went on has returned, the cleanup it took has been called and the context has ended |
| `SessionReleases.OneStopGoesOn` | screenshare/session.go:323-333 | however many Stops there are, one goes on at most |
| `SessionLeaks.AllCalledIff` | screenshare/session.go:242-350 | once Done is closed and no goroutine holds a release, every release the session had or a launch made has been called exactly when no launch kept a cleanup over another or after finish's lock, nor gave the session a source after finish's release |
| `SessionLeaks.LateLaunchLeaks` | screenshare/session.go:274-311 | a run of one Restart in which a launch keeps a cleanup after finish's lock |
| `SessionEncoders.OneEncoder` | screenshare/session.go:274-320 | with Restarts one at a time and no wait timing out, never are two encoders running, and none is while a Restart launches one |
| `SessionEncoders.TimeoutOverlaps` | screenshare/session.go:295-298 | a run in which the wait times out and the old encoder still runs when the new one is started |
| `SessionEncoders.ExitedIff` | screenshare/session.go:204-209 | over every run an encoder's exit is announced exactly when its supervisor has taken it |
| `SessionEncoders.StoppedLaunchesNothing` | screenshare/session.go:274-311 | once the session is stopped, no Restart that has not yet looked whether it is, or that is called later, launches an encoder |
| `SessionRuns.SendDoesNotBlock` | screenshare/session.go:263-270 | while an error is about to be sent none has been, so the buffered send does not block |
| `SessionRuns.NeverReverts` | screenshare/session.go:242-350 | stopped and finished never revert, whatever happens after |
| `SessionEnds.OnlyTheCurrentFinishes` | screenshare/session.go:211-217 | over every run, if a supervisor finished the session then at its check its generation was current and restarting was not set |
| `SessionEnds.NoRestartThen` | screenshare/session.go:204-320 | with Restarts one at a time, no Restart was between its first and its last lock at that check |
| `SessionEnds.FlagIsShared` | screenshare/session.go:274-313 | with two Restarts at once a run in which a supervisor passes its check while the second is about to replace its generation |
| `SessionRuns.RunIsSafe` | screenshare/session.go:197-350 | the invariant behind these holds after every action |
| `SessionRuns.StepKeepsPlaces` | screenshare/session.go:242-262 | each cleanup is in one place at a time: a field, a goroutine's hands, or the list of those run |
| `SessionLost.RunKeeps` | screenshare/session.go:274-320 | with Restarts one at a time, restarting is set exactly while one is between its first and its last lock, and a returned current supervisor is always accounted for |
| `SessionLost.UnfinishedMeansLost` | screenshare/session.go:204-320 | with no Restart in flight and the current supervisor gone, an unfinished session is one whose supervisor made its check in its own Restart's window |
| `SessionLost.LostMeansOwnWindow` | screenshare/broadcast.go:336-340 | a generation gets lost only at its own supervisor's check, after its Restart attached it and before that Restart cleared restarting |
| `SessionEnds.UnfinishedIff` | screenshare/session.go:204-320 | with no Restart in flight and the current supervisor gone, the session is unfinished and nobody is about to finish it exactly when that supervisor made its check in that window and no action of the run sent a goroutine to finish |
| `SessionEnds.NeverEndsIff` | screenshare/session.go:204-350 | once such a session is stopped, exactly then Done never closes, whatever calls, exits and steps come after |
| `SessionEnds.DeadIffNotEnding` | screenshare/session.go:204-350 | a stopped session with no encoder is left with calls of Stop and replaced supervisors alone exactly when it is unfinished and nobody is about to finish it |
| `SessionEnds.StaysDead` | screenshare/session.go:204-350 | and no later Restart, Stop or exit finishes it then |
| `SessionEnds.LostHappens` | screenshare/session.go:274-350 | a run of one Restart and one Stop after which Done never closes |
| `SessionEnds.LostButEnds` | screenshare/session.go:204-350 | a run whose current supervisor is lost as well and that is stopped and unfinished, but can still end |
| `StderrLines.Writer.Write` | screenshare/session.go:142-157 | what one Write hands on and leaves pending |
| `StderrLines.Writer.Line` | screenshare/session.go:163-194 | the table, the log and the kept lines after one more line |
| `StderrLines.Writer.Log` | screenshare/session.go:174-193 | a line is logged with the count left out, or counted, and a full table is cleared first, as specified; `StderrLedger.LeftOutIff` says which line is |
| `StderrLines.HandedAndLeft` | screenshare/session.go:142-157 | the pieces of one Write and what is pending are the bytes it had, and at most 64 KiB stay pending |
| `StderrLines.NothingLost` | screenshare/session.go:142-157 | over any Writes, lines, separators and the pending tail rebuild the bytes written |
| `StderrLines.ChunksDoNotMatter` | screenshare/session.go:142-157 | with no line over 64 KiB and at most a byte more in the unfinished one, the lines and the pending tail are those of one Write of all the bytes |
| `StderrLines.CutsAgreeIff` | screenshare/session.go:142-157 | every cut of the bytes into Writes gives the lines of one Write exactly then |
| `StderrLines.EveryLineCounted` | screenshare/session.go:163-194 | for every key and since the table was last cleared, its lines are those logged, those reported as left out and those skipped since |
| `StderrLines.LoggedApart` | screenshare/session.go:177-181 | until then, lines that differ only in digits are logged at least the interval apart |
| `StderrLedger.LeftOutIff` | screenshare/session.go:163-194 | a line that is not blank is left out exactly when the same line, but for digits, was logged less than ten seconds before it with no clearing between |
| `StderrLedger.ClearedIff` | screenshare/session.go:189-192 | the table is cleared exactly before a new line when 256 different ones have come since it was last empty |
| `StderrLedger.WrittenIs` | screenshare/session.go:163-194 | what is logged is the line, trimmed |
| `StderrLedger.KeptOfOne` | screenshare/session.go:163-168 | the buffer keeps every line that is not all white space, as it came |
| `StderrLedger.KeyIs` | screenshare/session.go:169-174 | the key of a line is its runes that are no digits, in order |
| `StderrLedger.TrimmedIs` | screenshare/session.go:164-167 | a line is trimmed of white space at both ends and of nothing else |
| `StderrLedger.LinesAreLines` | screenshare/session.go:142-151 | no line holds a carriage return or a newline, one of them ends it, and the rest has none |
| `StderrLedger.LinesAreUnique` | screenshare/session.go:142-151 | whatever is cut so is cut into these lines |
| `StderrLines.TableStaysSmall` | screenshare/session.go:189-192 | at most 256 lines are remembered |
| `WaylandWire.WordReadsBack` | internal/clipboard/wayland_linux.go:72-110 | a word reads back wherever it was put |
| `WaylandWire.AppendStr` | internal/clipboard/wayland_linux.go:74-82 | length, bytes, a zero, and zeros up to the next word |
| `WaylandWire.StrAt` | internal/clipboard/wayland_linux.go:112-120 | whatever the bytes, the string read lies within them and the next offset is whole words on, less than a word past the end |
| `WaylandWire.StrReadsBackIff` | internal/clipboard/wayland_linux.go:74-120 | a string reads back exactly when its length with the zero fits 32 bits |
| `WaylandWire.ArgReadsBack` | internal/clipboard/wayland_linux.go:70-120 | each of any list of arguments reads back from where the one before it ended, and gives where the next begins |
| `WaylandWire.BodyIsWords` | internal/clipboard/wayland_linux.go:74-82 | a request body is whole words, so every string starts aligned |
| `WaylandBytes.MessageIs` | internal/clipboard/wayland_linux.go:84-92 | a message is its object in four bytes, which request it is in two and its whole size in two, the lowest byte first, and its arguments |
| `WaylandBytes.StringIs` | internal/clipboard/wayland_linux.go:74-82 | a string is its length with the final zero, its bytes and one to four zeros up to the next word |
| `WaylandBytes.ErrorIs` | internal/clipboard/wayland_linux.go:144-147 | the display's error comes with its number and its text |
| `WaylandBytes.BadIff` | internal/clipboard/wayland_linux.go:125-129 | a message is bad exactly when it says it is shorter than its header |
| `WaylandConn.Conn.NewID` | internal/clipboard/wayland_linux.go:63-67 | the next id, counting up and wrapping at 32 bits |
| `WaylandConn.Conn.Send` | internal/clipboard/wayland_linux.go:84-96 | what is handed to the socket is the message's encoding, with the descriptor if there is one |
| `WaylandConn.Conn.NextEvent` | internal/clipboard/wayland_linux.go:122-165 | the outcome, and the bytes, descriptors and reads left, are those specified for any sequence of reads |
| `WaylandConn.Conn.TakeFD` | internal/clipboard/wayland_linux.go:167-175 | descriptors come first in, first out, and -1 when there is none |
| `WaylandConn.FramesBackIff` | internal/clipboard/wayland_linux.go:85-143 | a message is read back exactly when its size fits sixteen bits |
| `WaylandConn.WholeIsEncoded` | internal/clipboard/wayland_linux.go:125-143 | whatever the bytes, an event cut from them is encoded by the bytes cut |
| `WaylandConn.FrameOfMore` | internal/clipboard/wayland_linux.go:122-165 | bytes that arrive later do not change what was decided |
| `WaylandFraming.NextIsHead` | internal/clipboard/wayland_linux.go:122-165 | a message at the head of the stream is the next event, and no byte or descriptor after it is touched |
| `WaylandFraming.FramingRoundTrip` | internal/clipboard/wayland_linux.go:84-165 | for any messages that fit and any cut of their encoding into reads, repeated next gives exactly those messages in order and keeps what follows them |
| `WaylandFraming.EventsComeBack` | internal/clipboard/wayland_linux.go:144-148 | without an error from the display each outcome is the event itself |
| `WaylandFraming.NextConserves` | internal/clipboard/wayland_linux.go:122-165 | on any bytes at all, an event handed out is the bytes taken off the stream |
| `WaylandFraming.IdsDifferIff` | internal/clipboard/wayland_linux.go:63-67 | no id is given out twice exactly for as many calls as there are ids |
| `WaylandDevice.Device.Handle` | internal/clipboard/wayland_linux.go:252-275 | the offers and the selection are what the history of events makes them, a replaced selection is destroyed by one request, and other events are passed on |
| `WaylandDevice.Device.DestroyOffer` | internal/clipboard/wayland_linux.go:277-280 | the offer is forgotten and one destroy request is written |
| `WaylandDevice.Device.Roundtrip` | internal/clipboard/wayland_linux.go:282-298 | it handles the events read up to the answer, and the requests written are the sync and one destroy for each selection they replaced, in order |
| `WaylandDevice.UntilTheAnswer` | internal/clipboard/wayland_linux.go:282-298 | when the events before the answer arrive, in any reads, they are exactly the ones handled, and what follows the answer is kept |
| `WaylandBytes.HistoryIsHeard` | internal/clipboard/wayland_linux.go:252-298 | whatever a compositor says before its answer, encoded and in any reads, is what the device hears, in order |
| `WaylandBytes.AnnouncesIff` | internal/clipboard/wayland_linux.go:254-261 | an event announces an offer, or selects one, exactly as the device's event number 0 or 1, with the id as its first word |
| `WaylandBytes.DestroyIs` | internal/clipboard/wayland_linux.go:277-280 | the bytes of a destroy request |
| `WaylandBytes.SyncIs` | internal/clipboard/wayland_linux.go:282-286 | the bytes of a sync request |
| `WaylandDevice.SelectionIsOffered` | internal/clipboard/wayland_linux.go:252-275 | for a conforming compositor the selection is none, or a live offer whose list is exactly the types it said since it was announced, in order |
| `WaylandDevice.ReplacedOncePerAnnouncement` | internal/clipboard/wayland_linux.go:256-260 | for a conforming compositor, an id has been destroyed at most as often as it was announced, and once less while its offer is live |
| `WaylandDevice.AnnouncedBetween` | internal/clipboard/wayland_linux.go:252-260 | between two times that an id is destroyed it is announced again |
| `WaylandDevice.ReplacedOnce` | internal/clipboard/wayland_linux.go:256-260 | so with no id announced twice each replaced selection is replaced once, and is then neither live nor selected |
| `WaylandDevice.SelectedOrReplaced` | internal/clipboard/wayland_linux.go:256-260 | every offer ever selected is selected still or has been replaced |
| `WaylandDevice.Device.ChooseType` | internal/clipboard/wayland_linux.go:318-328 | the type read is the first one wanted among those said for the selection, nothing when there is none |
| `WaylandDevice.FirstWantedIsUnique` | internal/clipboard/wayland_linux.go:318-328 | there is only one such choice |
| `Pcm.DecodeEncode` | internal/audioio/audioio.go:171-234 | decoding gives encoded samples back, negative ones too, and leaves no byte |
| `Pcm.EncodeDecode` | internal/audioio/audioio.go:171-234 | encoding decoded bytes gives them back, with the odd byte after them |
| `Pcm.EncodeIs` | internal/audioio/audioio.go:171-234 | a sample is two bytes, the lower first, a negative one its complement |
| `AudioFrames.Append` | internal/audioio/audioio.go:172-191 | appending in place when there is room and to a copy otherwise, as the language does |
| `AudioFrames.FrameAccumulator.Push` | internal/audioio/audioio.go:159-169 | the frames handed on and the samples waiting are all samples taken, and every frame is full |
| `AudioFrames.FrameAccumulator.PushBytes` | internal/audioio/audioio.go:171-192 | the same with the samples decoded from the carried byte and the buffer, an odd last byte carried over, although both may share an array |
| `AudioFrames.RenderAdapter.Fill` | internal/audioio/audioio.go:206-216 | buffers of any size are filled with the rendered frames in order, and none is rendered before it is needed |
| `AudioFrames.RenderAdapter.FillBytes` | internal/audioio/audioio.go:218-234 | the same in bytes, an odd last byte of the buffer left as it is |
| `AudioLoopback.ChunksDoNotMatter` | internal/audioio/audioio.go:171-192 | however the bytes are cut, the samples taken are all the bytes decoded, with at most one byte carried |
| `AudioLoopback.BytesAreSamples` | internal/audioio/audioio.go:159-192 | pushing the bytes of samples takes what pushing the samples takes |
| `Pcm.CutOfPrefix` | internal/audioio/audioio.go:148-192 | a stream is cut into frames in one way, and a prefix of it has its first frames |
| `AudioLoopback.Loopback` | internal/audioio/audioio.go:171-234 | buffers filled from rendered frames and their bytes pushed in any chunks, odd cuts included, hand on the rendered frames in order; all of them pushed, every sample is there and none is carried |
| `Spectra.PowerSpectrum` | internal/dsp/aec.go:221-229 | for every even size, the squared magnitude of each bin |
| `Spectra.PowerSpectrumAccum` | internal/dsp/aec.go:211-219 | the same, added |
| `Spectra.SpectralMulAccum` | internal/dsp/aec.go:231-244 | each bin is the sum of the complex products of the stacked bins |
| `Spectra.WeightedSpectralMulConj` | internal/dsp/aec.go:246-257 | each bin is the product of the conjugate and the other bin, weighted |
| `Spectra.BinsDetermine` | internal/dsp/aec.go:211-257 | the packed layout holds nothing but its bins |
| `Spectra.UpdateMovesOutput` | internal/dsp/aec.go:231-257 | a filter whose every spectrum took its step has an output that gained, bin by bin, the error times the weighted power of the signal |
| `Spectra.UpdateFilter` | internal/dsp/aec.go:346-355 | the update loop does that to the output over the spectra it uses |
| `Spectra.GainIsPositive` | internal/dsp/aec.go:346-355 | with gains and weights that are not negative no bin moves away from the error |
| `EchoGains.AdjustProp` | internal/dsp/aec.go:259-281 | each weight is its share of 0.99, by its raised root energy; all are positive and sum to at most 0.99, and they are in the order of the energies |
| `EchoGains.RaisedIs` | internal/dsp/aec.go:263-278 | each root energy is raised by a tenth of the largest, which is at least one |
| `EchoGains.InitialProp` | internal/dsp/aec.go:97-108 | the first weights fall by one factor, are positive and sum to 0.8 |
| `EchoGains.UpdatePower` | internal/dsp/aec.go:469-471 | the smoothed power, at least one |
| `EchoGains.Correlate` | internal/dsp/aec.go:473-481 | the correlations of what changed in the spectra, the second at least one, and the new averages |
| `EchoGains.ChangesAreInner` | internal/dsp/aec.go:473-481 | the sums are the inner products of what changed in the spectra |
| `EchoGains.GainBounds` | internal/dsp/aec.go:516-525 | the gain of a bin is between 0 and 0.5/11 |
| `EchoGains.AdaptedGains` | internal/dsp/aec.go:516-525 | the gains of all bins, so bounded |
| `EchoGains.InitialGains` | internal/dsp/aec.go:527-537 | the same before the filter has adapted |
| `EchoAdaptation.AdaptedIff` | internal/dsp/aec.go:512-538 | over any frames since the start, the canceller has adapted exactly when some frame with echo in it came after frames that taught more than one for each spectrum of the filter |
| `EchoAdaptation.LoudFramesAdapt` | internal/dsp/aec.go:512-538 | four loud frames for each spectrum and one more are enough, and then a frame with echo |
| `EchoAdaptation.NotSooner` | internal/dsp/aec.go:512-538 | and it never takes fewer |
| `EchoAdaptation.QuietNeverAdapts` | internal/dsp/aec.go:512-538 | quiet frames never do it |
| `EchoAdaptation.RateIs` | internal/dsp/aec.go:527-538 | a loud frame teaches a quarter, less when the error is louder than the far end, and a quiet one nothing |
| `EchoAdaptation.EchoesIff` | internal/dsp/aec.go:512-514 | there is echo in a frame exactly when the estimate has energy and the leak is above 0.03 |
| `EchoAdaptation.ResidualAtMost` | internal/dsp/aec.go:504-511 | below a half the residual ratio is at most c exactly when what the leak suggests and what the correlation shows are |
| `EchoAdaptation.AdaptedGainIs` | internal/dsp/aec.go:516-525 | the gain of a bin, cleared of its divisions |
| `EchoAdaptation.LeakFollows` | internal/dsp/aec.go:482-502 | the leak moves from where it was towards the ratio a frame shows and not past it, both kept to [0.005, 1] |
| `EchoAdaptation.AveragesMove` | internal/dsp/aec.go:485-502 | both averages move by the part alpha of the way |
| `EchoAdaptation.SpeedIs` | internal/dsp/aec.go:485-490 | alpha, cleared of its divisions |
| `EchoQueue.FirstInFirstOut` | internal/dsp/aec.go:131-192 | from any queue on and over any plays, captures and resets, the frames that left, heard or dropped, and then those queued are those there at first and those that entered, in order |
| `EchoQueue.DroppedIff` | internal/dsp/aec.go:131-192 | a frame is dropped exactly when a reset, in a capture or from outside, comes while frames wait |
| `EchoQueue.NeverTooLong` | internal/dsp/aec.go:159-192 | at most three frames wait, over every run from a queue of no more |
| `EchoQueue.PlayedEnters` | internal/dsp/aec.go:159-177 | once capture runs, a played frame enters last unless three are waiting, and at least two wait then |
| `EchoCanceller.Canceller.constructor` | internal/dsp/aec.go:56-111 | a new canceller keeps the invariant and holds two frames of silence |
| `EchoCanceller.Canceller.Playback` | internal/dsp/aec.go:159-177 | the queue takes the frame, twice when it is empty, not at all when it is full or stopped |
| `EchoCanceller.Canceller.Capture` | internal/dsp/aec.go:179-192 | the oldest frame is the one whose echo is removed, and it is consumed; a reset meanwhile leaves one silent frame and the queue stopped; with none queued the frame passes through |
| `EchoCanceller.Canceller.Reset` | internal/dsp/aec.go:131-157 | two frames of silence, playback stopped, the counter at zero |
| `EchoCanceller.Canceller.Cancel` | internal/dsp/aec.go:294-548 | keeps the invariant (weights positive with sum at most 0.99, power never negative, the counter is the number of bad frames in a row and below 50, and whether the filter has adapted is what the frames since the start make it); resets exactly when the frame is broken or the fiftieth bad one in a row; and when it does not reset, learns one frame, leaves leak in [0.005, 1], every power at least 1, and the gain of each bin as the frame gives it, one rate for all before the filter has adapted, within [0, 0.5/11] |
| `EchoCanceller.Canceller.UpdateLeak` | internal/dsp/aec.go:473-502 | the leak is in [0.005, 1] whatever the spectra, and its averages are moved by alpha towards what the changes of the spectra show |
| `EchoCanceller.Canceller.UpdateGains` | internal/dsp/aec.go:504-539 | whether the filter has adapted is decided, the frame counted, and each bin given its gain by the branch that applies, within [0, 0.5/11]; a filter once adapted stays so |
| `EchoCanceller.Canceller.Judge` | internal/dsp/aec.go:449-458 | a frame whose energies are negative or too large is broken, counts fifty and is silenced; one whose error is larger than the near end allows is bad and counts one; any other starts the count over |
| `EchoCanceller.VerdictIs` | internal/dsp/aec.go:449-458 | the bounds by which a frame is broken or bad |
| `EchoCanceller.Canceller.Adapt` | internal/dsp/aec.go:343-368 | the weights are the shares of the spectra once the filter has adapted, positive with sum at most 0.99; after clipping it waits a frame, and otherwise every spectrum that is not shortened at this call takes its step |
| `FlowLayout.Pack` | ui_flow.go:45-66 | the rows are the items in order, none empty, every row of two or more fits, and no packing has fewer rows |
| `FlowLayout.NarrowerNeedsNoMore` | ui_flow.go:45-66 | labels no wider never need more rows |
| `FlowLayout.LayoutFlow` | ui_flow.go:42-71 | the full labels are used exactly when some packing of them has few enough rows, and short ones no wider never take more rows |
| `DroppedPaths.SplitDroppedPaths` | dropfiles.go:77-112 | the parts are the pieces, not empty, between blanks that are neither quoted nor escaped, on Windows and elsewhere |
| `DroppedPaths.PartsKeepTheRest` | dropfiles.go:77-112 | no part is empty and only such blanks are gone |
| `DroppedPaths.UnescapeShell` | dropfiles.go:114-127 | the text without the backslashes that escape |
| `DroppedPaths.PathsComeBack` | dropfiles.go:77-127 | escaped, joined, split and unescaped, any list of paths comes back without its empty ones |
| `DroppedPaths.RoundTripIff` | dropfiles.go:77-127 | all of them come back exactly when none is empty |
| `WrittenPaths.WrittenPathsAreSplit` | dropfiles.go:77-112 | paths written bare, in single or in double quotes, with blanks and the other quotes in them and any blanks around them, are split into exactly the paths written, on Windows and elsewhere |
| `SettingsRows.TestModalRowMap` | dialogs.go:202-257 | the rows, the offset and the two marks are those specified, at every height and scroll |
| `SettingsRows.SpreadApart` | dialogs.go:236-241 | marks no more than the places are spread to different places, in order |
| `SettingsRows.SpreadInTheMiddle` | dialogs.go:236-241 | of as many equal shares as there are marks each mark goes to the place that holds the middle of its own |
| `SettingsRows.SpreadEvenly` | dialogs.go:236-241 | so the marks are evenly spread, each distance within one place of even |
| `SettingsRows.SettingRow` | dialogs.go:243-252 | in a short dialog with room for all settings each stands below the top rows, the settings before it and one blank line for each mark before its place |
| `SettingsRows.SpareLines` | dialogs.go:237-238 | how many lines are spread |
| `SettingsRows.TopRowsAre` | dialogs.go:227-234 | how many rows stand above the settings at each height |
| `SettingsRows.RowsFit` | dialogs.go:202-257 | exactly as many rows as fit, up to 28, content strictly increasing, the buttons last below full height |
| `SettingsRows.RowsShown` | dialogs.go:218-257 | which content a short dialog shows: top rows, a stretch of settings, buttons |
| `SettingsRows.ScrollIsStable` | dialogs.go:253-256 | the offset is in range and given back changes nothing |
| `SettingsRows.EverySettingShown` | dialogs.go:202-257 | every setting is shown at some scroll exactly from a height of two, and below that none ever is |
| `SettingsRows.MoreIff` | dialogs.go:253-256 | more is said above or below exactly when the first or the last setting is not shown |

## Left out

- Rune widths are an arbitrary choice of one or two cells for each rune, so the real width table is one instance; runes of width zero are not modelled, as the wrap takes a width of zero for an empty line.
- Text is a sequence of valid runes: invalid UTF-8 and byte offsets into it are not modelled. White space is the Unicode property, in stderr lines the ASCII blanks.
- The link and copy patterns are an arbitrary sorted list of matches, in any order where the sort leaves ties; matching itself, URL cleaning and the sanitising of copied text are not modelled.
- Picture previews and log rows are outside the copy round trip; styles and themes are not modelled, and columns are unbounded integers.
- Launching processes, the capture portal, killing process groups and the text of errors: in the session model a launch succeeds or fails and a process exits at any time.
- The call of the capture source's own cleanup in finish takes no lock in the source; here it is one step, so the program's memory model is not captured.
- SessionLost.UnfinishedMeansLost: takes Restart calls one at a time, as the caller makes them, and so do the results of SessionEnds on sessions that end or never do and SessionEncoders.OneEncoder; the safety results and SessionEnds.OnlyTheCurrentFinishes do not.
- The clock in the stderr ledger is any sequence of times, even one that goes back.
- Opening the data-control device (globals, binding), reading the clipboard's content after the type is chosen, and owning the clipboard are not modelled; a socket is a list of reads, and a refused write only stops a round trip.
- Audio backends, devices and threads: only the frame and byte arithmetic is modelled. What a render callback leaves in the frame counts as rendered.
- Floating point: real numbers stand for it, so rounding, infinities and not-a-number are not modelled. The Fourier transform, the signals and the exponential are arbitrary; the square root is known by its defining facts.
- EchoCanceller.Canceller.Cancel: the notch filter, the two-path choice between filters, the output samples and the residual for the post-filter are arbitrary signals; the error, echo and energies they give may be any.
- EchoCanceller.Canceller.Shorten: what the shortening leaves in a spectrum is an arbitrary signal; which spectra it touches is modelled.
- EchoCanceller.Canceller.Output: only clipping is modelled, not the sample written.
- Drawing the flow and the settings dialog, file checks on dropped paths, and quoting rules of file managers are not modelled.
