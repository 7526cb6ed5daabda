# Verified models of the C1 applications

Dafny models of the parts of this repository whose behaviour is hardest to see from the code, with proofs of what they
promise. `dafny verify dfyconfig.toml` checks everything.

The **book reader** wraps text greedily, lays it out in pages over windows of at most 4 MiB, counts the pages of a
chapter once, and later reads a single window again from any saved byte offset. The models prove that counting always
works on UTF-8 text, that windows and pages tile the chapter and show its bytes less the line ends, that a saved
position comes back on the page that holds it, that turning a page is one step in the order of the book and is undone by
turning back, that the chapter scan describes the file however the reads are cut, and that the directory cursor stays on
a row that is shown.

**Pinao** is a key-driven sequencer with tied notes. The models prove that every run of keys and ticks keeps the song
valid and the cursor sensible, into which cell a note pressed at any time goes and what every other key does, exactly
which tied notes are held and that keys in between do not change that, that a tempo change is not heard, and that the WAV
export meets every step at its frame and writes as many bytes as its header says.

The **input method** is a client and a server that exchange one packet at a time. The models prove that requests and
replies are decoded to what was encoded and to nothing else, which candidate a key selects and what an answer says, that
a cut text stays valid, that conforming clients and the server stay in lockstep under every interleaving, whatever other
programs send to the socket, and that a client is told only what follows from its own requests.

The **power policy** decides when to lock, suspend and shut down. Its two halves, `tick` and `timeout`, agree exactly;
its actions are those the history of events calls for, and they keep their distances over every run. The **music
player** supervises a process with generations and a bounded queue that never loses the event that matters and tells how
the track ended. Three smaller cores are the **Bresenham line**, the **frame clock** of Bad Apple and the two
hand-written **UTF-8 readers**.

Code that changes state is modelled as classes and methods that change fields and arrays in place, each proved equal to
a function of the old state; what the system promises is proved about those functions and over runs of them.

## Model

| member | source | states |
|---|---|---|
| Wrapping.Wrap | App/c1device/text.go:66-95 | the loop returns the greedy layout of the text without its line ends: every line as long as the width allows, a rune wider than the line alone on its own |
| Wrapping.GreedyIsLayout | App/c1device/text.go:66-95 | the greedy lines are nonempty, fit the width unless they hold a single rune, and concatenated give back the text |
| Wrapping.GreedyIsMinimal | App/c1device/text.go:66-95 | no layout of the same text has fewer lines than greedy wrapping |
| Wrapping.SuffixNoMore | App/c1device/text.go:66-95 | wrapping a suffix never takes more lines than wrapping the whole text |
| Pager.Paginate | App/book-reader/pager.go:30-126 | the loops over physical lines, wrapped lines and pages return the pages and the end of the window, or an error for undecodable bytes |
| PageText.LinesShow | App/book-reader/pager.go:48-102 | the lines of any valid text: each one is the text of its range with the line ends removed, it holds no more than one rune or fits the width, and one that ends before its physical line does has no room for the next rune |
| PageText.PaginateShows | App/book-reader/pager.go:30-126 | for every start and height: pagination of a chapter of valid text succeeds; its lines follow one another from behind the heading to the end of the window and show it as above; page k holds the lines from k times the number that fit, in order, and its lines joined and encoded are the bytes from its start to its end with the line ends removed, as defined on the bytes |
| PageText.PerPageFits | App/book-reader/pager.go:103-110 | the number of lines on a page is the largest whose heights fit, and one at least |
| PageText.HeadingIsSkipped | App/book-reader/pager.go:48-63 | what is skipped is the first physical line of a chapter exactly when its text, less a line feed and then a carriage return, is a heading |
| WindowLoading.WindowIsValid | App/book-reader/pager.go:31-46 | between rune boundaries of valid text the window kept is a valid nonempty piece of the file, ends on a rune boundary and is at most 4 MiB |
| WindowLoading.WindowEnds | App/book-reader/pager.go:34-46 | a chapter of at most 4 MiB is read whole; of a longer one the window ends behind the last line feed of the first 4 MiB, or without one behind the last whole character |
| PageTiling.LinesTile | App/book-reader/pager.go:48-114 | valid text always lays out, and its lines follow one another without gap or overlap from the window start, or from just after a skipped heading, to its end |
| PageTiling.PagesOfTile | App/book-reader/pager.go:115-125 | grouping lines that tile a range gives pages that tile the same range |
| PageResume.ResumeAcross | App/book-reader/pager.go:48-114 | laying out from any rune boundary inside a line to the end of a later run succeeds and needs at least one line for the cut line and no more lines than the run had |
| SortSearch.Search | App/book-reader/chapter_pages.go:47-53 | over nondecreasing keys the search finds the first key above the bound |
| ChapterPages.CountChapterPages | App/book-reader/chapter_pages.go:25-45 | the counting loop collects the page starts and window records of exactly the canonical windows, or fails where one of them does |
| CanonicalPages.CountingTiles | App/book-reader/chapter_pages.go:25-45 | on a chapter of valid UTF-8 counting never fails, stops, and its windows tile the chapter exactly |
| CanonicalPages.PagesTileChapter | App/book-reader/chapter_pages.go:25-45 | the pages of all windows together tile the chapter from its first shown byte to its end |
| CanonicalPages.PageAtFinds | App/book-reader/chapter_pages.go:47-53 | the binary search over page starts returns the page that holds a position |
| PageText.ChapterShows | App/book-reader/chapter_pages.go:25-45 | every window of a counted chapter, and every page of it, shows its bytes as stated for Paginate; a window that is all heading is one empty page |
| ChapterPages.ReadWindowAt | App/book-reader/chapter_pages.go:85-116 | the two searches and the replaced first page give the result of the specification, which re-reads one window and shortens its first page |
| ReadWindowProof.RestoresPosition | App/book-reader/chapter_pages.go:85-116 | from every rune boundary of a nonempty chapter: the index finds the canonical page that holds it; reading succeeds if and only if the position is not inside an overlong heading; then it gives exactly the canonical pages from that one on, the first one being the single page that the bytes from the position to the page end lay out to |
| PageText.RestoredShows | App/book-reader/chapter_pages.go:85-116 | the pages given back are canonical pages that show their bytes, and the shortened first page shows, in lines that fit and at most a page of them, exactly the bytes from the position to the end of its page with the line ends removed |
| ReadWindowProof.TooLongMeans | App/book-reader/chapter_pages.go:85-116 | in a window that is all heading, the condition of failure is that the rest of the heading wraps to more lines than a page has |
| HeadingResume.HeadingThatCannotBeResumed | App/book-reader/chapter_pages.go:85-116 | the file "第1章", 200 spaces and a line feed, with the reader's 20-pixel face: its pages are counted, but reading from offset 3 fails |
| ReaderPositions.NextThenPrevious | App/book-reader/app.go:310-333 | on the list of readable sections with their canonical pages, a page turn stays on existing pages and is undone by the opposite turn, in both directions, unless it stood at an end of the book |
| ReaderPositions.NeighboursInBook | App/book-reader/app.go:310-333 | the next page is the first one behind this one in the order of the book and the previous page the last one before it: no page of a readable section lies between |
| ReaderNavigation.RestoredIsLoaded | App/book-reader/chapter_pages.go:85-142 | any position of any section, empty ones included, is loaded as a suffix of one canonical window unless it lies in an overlong heading |
| ReaderNavigation.Reader.OpenCountedChapter | App/book-reader/chapter_pages.go:120-142 | succeeds exactly when the position can be restored (always for the last page), then stands on the page of the position; a failure changes nothing |
| ReaderNavigation.Reader.OpenChapter | App/book-reader/app.go:281-304 | goes to the reading target of the requested section and the page of its opening position: a valid position of the section itself, the start of a later one, the last line of an earlier one; fails only without a target, or for a position in an overlong heading of the requested section itself |
| ReaderNavigation.OpensAt | App/book-reader/app.go:281-304 | the opening position by bytes: inside the section itself the position asked for, of a later section its start, of an earlier one the start of its last line |
| ReaderNavigation.Reader.NextPage | App/book-reader/app.go:310-324 | with one window of pages in memory, the step on the whole-book page list, across window and section ends |
| ReaderNavigation.Reader.PreviousPage | App/book-reader/app.go:326-333 | the step back on the whole-book page list, across window and section starts |
| ReaderNavigation.AlignedIsBoundary | App/book-reader/document.go:290-312 | aligning a position to its line start gives a rune boundary between the floor and the position |
| ReaderNavigation.LineStartIs | App/book-reader/document.go:290-312 | the aligned position is behind the last line feed of the 64 KiB before it, not before the floor; the floor when there is none |
| ChapterScan.ScanChapters | App/book-reader/document.go:147-217 | the scan over reads that cut lines anywhere gives the same chapters as the file read line by line |
| ChapterIndex.ScanDescribesFile | App/book-reader/document.go:147-217 | contiguous chapters from the byte order mark to the end, one for every heading line and no other, named after it, marked as having a body exactly when they have text |
| ChapterIndex.ChaptersCanBeLaidOut | App/book-reader/document.go:147-217 | on valid UTF-8 the scan never fails and every chapter is cut at rune boundaries, as the pager needs |
| ChapterIndex.ValidChapterIndex | App/book-reader/document_cache.go:75-87 | true exactly for a nonempty list that starts at 0 or 3 and is contiguous to the end of the file |
| ChapterIndex.ScanIsAccepted | App/book-reader/document_cache.go:75-87 | the chapters of a scan pass that check |
| ChapterIndex.ChapterAtOffset | App/book-reader/document.go:279-288 | some chapter is found exactly for the offsets of the text, and it is the one and only chapter that holds the offset |
| ChapterIndex.HoldsOnce | App/book-reader/document.go:279-288 | contiguous chapters hold an offset at most once |
| ChapterIndex.RestoredChapter | App/book-reader/app.go:255-268 | a saved chapter number is kept when it still holds the offset, otherwise the offset decides, except in normalized text; the chapter returned always holds the offset |
| OpeningBooks.OpenText | App/book-reader/document.go:147-217 | scanning any marked UTF-8 file and building its outline gives a book that all of page turning applies to |
| Outline.ChapterOutline | App/book-reader/outline.go:68-98 | the loop numbers chapters, opens a volume at every new volume title and assigns sections and counts as the closed description says |
| Outline.ValidateVolumeSequence | App/book-reader/volume_number.go:105-134 | grouping survives exactly when there is a volume and the top volumes are numbered 1, 2, 3, … in one unit; otherwise every parent and count and the number of volumes are cleared and nothing else |
| Outline.OwnersAreTopVolumes | App/book-reader/outline.go:68-98 | a section's parent is an earlier volume heading at the top level |
| Outline.VolumeInForce | App/book-reader/outline.go:68-98 | the volume in force is the nearest one opened before, and a heading opens a volume exactly when its title is not that of the volume in force |
| Outline.OutlineShows | App/book-reader/outline.go:68-98 | every entry told by sets of sections: a numbered section has one more than the number of such sections before it, it stands under the volume in force, and beside a volume stands how many stand under it |
| Outline.ChaptersConserved | App/book-reader/outline.go:68-98 | the counts beside the volumes and the chapters before the first volume add up to the number of chapters |
| Directory.ReadableChapter | App/book-reader/outline.go:105-113 | the loop steps to the first section that is not a bare heading |
| Directory.ReadableIsFirst | App/book-reader/outline.go:105-113 | no readable section is skipped on the way |
| Directory.NoTarget | App/book-reader/outline.go:117-135 | there is no reading target only when the whole book is bare headings |
| Directory.TargetIsNearest | App/book-reader/outline.go:117-135 | the reading target is the first section from the index on that is not a bare heading, else the last one before it, and there is one whenever the book has any |
| Directory.DirectoryRows | App/book-reader/directory.go:15-60 | the rows shown and the index of the row under the cursor, 0 when it is not shown |
| Directory.RowsAreVisible | App/book-reader/directory.go:15-60 | a row is listed if and only if it is visible: a section whose volume is folded out or that stands at the top, with the body row of a volume that has text |
| DirectoryCursor.RowsInOrder | App/book-reader/directory.go:15-60 | rows are listed in the order of the sections, a volume heading above the row of its own text |
| DirectoryCursor.FoldHides | App/book-reader/directory.go:15-60 | folding a volume hides the rows of its sections and of its text and changes no other row |
| DirectoryCursor.NoRepeats | App/book-reader/directory.go:15-60 | no row is listed twice |
| DirectoryCursor.DirectoryView.MoveDirectorySelection | App/book-reader/directory.go:62-69 | moves the cursor by delta rows from the selected one, stopping at the first and the last, and leaves it on a shown row |
| DirectoryCursor.MovesByRows | App/book-reader/app.go:184-196 | the selection moves exactly as many rows as asked, downwards for a positive number, or to the first or the last row when there are fewer |
| DirectoryCursor.DirectoryView.RevealChapter | App/book-reader/directory.go:80-114 | shows the section: folds out its volume when needed and puts the cursor on its row |
| DirectoryCursor.RevealShows | App/book-reader/directory.go:80-114 | after a reveal the cursor is on a shown row if and only if the index is inside the book, as every caller passes it, or no row is shown |
| DirectoryCursor.RevealGoesThere | App/book-reader/directory.go:80-114 | a reveal goes to the section's own row if it has one, that of its text for a volume with text, and unfolds its volume and no other; without one, to the nearest section to read, the first row, or the heading that is repeated |
| DirectoryCursor.DirectoryView.ActivateDirectorySelection | App/book-reader/directory.go:125-134 | on a volume heading folds or unfolds it, elsewhere follows the section that was opened; the cursor stays on a shown row |
| DirectoryCursor.DirectoryView.LeaveDirectory | App/book-reader/directory.go:136-161 | folds the volume around the cursor and moves to its heading, or leaves for the shelf |
| DirectoryCursor.LeaveFolds | App/book-reader/directory.go:136-161 | left folds a volume if and only if it is unfolded and the cursor is on its heading, its text or one of its sections |
| DirectoryCursor.Session | App/book-reader/directory.go:15-161 | after every sequence of moves, foldings, openings and reveals of sections of the book, the cursor is on a shown row whenever a row is shown |
| Utf8.EncodedIsValid | C1ancher/src/pkg/text.c:17-36 | every encoded sequence of scalar values satisfies the grammar of section 4 of RFC 3629 and decodes to itself |
| Utf8.ValidIsEncoded | C1ancher/src/pkg/text.c:17-36 | every text of that grammar is the encoding of its scalar values |
| Utf8Readers.ValidUtf8 | term-ime/integration/protocol.h:42-60 | accepts exactly the texts of that grammar that hold no NUL |
| Utf8Readers.DecodeNext | C1ancher/src/pkg/text.c:17-36 | one step on NUL-terminated bytes: the verdict, scalar and length of the grammar, the cursor unmoved on an error, and nothing read past the terminator |
| Utf8Readers.DecodeText | C1ancher/src/pkg/text.c:17-36 | decoding step by step until the decoder stops accepts exactly the valid texts and yields their scalars |
| Utf8Readers.ReadersAgree | C1ancher/src/pkg/text.c:17-36 | both readers give the same verdict on every NUL-free text, the grammar's |
| PinaoSong.Validate | Pinao/model.go:82-103 | true exactly for valid songs: 1 to 64 pages fitting the format, settings in range, at most eight hits in a cell, every tie continuing a same note of the cell before |
| PinaoSong.SongBook.RepairTies | Pinao/ties.go:70-78 | in place, front to back, drops exactly the ties that continue nothing |
| PinaoSong.RepairMakesValid | Pinao/ties.go:70-78 | a song that is valid but for its ties is valid after the repair |
| PinaoSong.RepairLeavesValid | Pinao/ties.go:70-78 | a valid song is left as it is |
| PinaoSong.EditKeepsValid | Pinao/model.go:244-277 | an edit of one cell that keeps its notes sounding keeps the whole song valid, the ties of the next cell included |
| PinaoSong.SongBook.MakeRoom | Pinao/pages.go:104-135 | the shifting loop of a page insertion gives the song with a blank page at the index and all other pages in order |
| PinaoTransport.EveryCellIsPlanned | Pinao/ties.go:90-137 | for any cell and any earlier state: distinct slots 0 to 7, drums as drums, kept slots as holds, the rest as attacks, loop-off keeping exactly the held slots, and a held hit is a tied one on a slot that sounded the same note |
| PinaoCommands.CellSends | Pinao/ties.go:80-137 | number by number for any cell and any earlier state: hit i goes to voice 300 plus its slot, with its own drum, pitch and tone; slots differ, and a hit that is not kept has the lowest one that no kept hit and no earlier hit has; only a cell right after the one before, without a stall, keeps any |
| PinaoCommands.UntiedInOrder | Pinao/ties.go:80-137 | without ties the commands are the historical ones: everything off, then hit i struck on voice 300 + i |
| PinaoTransport.AfterCellSeats | Pinao/ties.go:90-137 | after a cell the active slots are those of its melodic notes, each with its note |
| PinaoTies.AfterCellCarries | Pinao/ties.go:90-137 | after a cell every note sounds on as many slots as the cell has copies of it |
| PinaoTies.HitIsPlanned | Pinao/ties.go:90-137 | in step with the cell before, doubled notes or not: a hit is sent as a hold, on a slot that sounds its note, if and only if it is tied and the tied hits of its note before it are fewer than the copies of it in the cell before; otherwise as an attack or a drum |
| PinaoTies.AllHeldIfCovered | Pinao/ties.go:90-137 | all ties of a cell meet that condition if and only if no note has more tied copies in it than copies in the cell before |
| PinaoPlaying.LoopTransport.PlanCommands | Pinao/ties.go:90-137 | the object with its slot arrays sends the planned commands and changes to the planned state |
| PinaoPlaying.TiesOverRun | Pinao/ties.go:90-137 | over a contiguous run through any valid song, from any earlier state: which hits are held, hit by hit, and all ties of a cell are holds if and only if no note has more tied copies than the cell before has copies of it |
| PinaoPlaying.TiesAreHeldOverRun | Pinao/ties.go:90-137 | without doubled notes that condition always holds, and every tied hit is a hold on the one slot that sounds its note |
| PinaoPlaying.SecondTieIsAttacked | Pinao/ties.go:90-137 | two valid songs that tie a note twice: after one copy of it the second tie is an attack, after two copies both are holds |
| PinaoRuns.RunsKeepSound | Pinao/model.go:287-527 | every run of key events and ticks keeps the song valid, keeps it free of doubled notes, and keeps the cursor sound |
| PinaoRuns.CursorIsSound | Pinao/model.go:287-527 | from any valid song after any run: page and step in range, at most 64 pages, never playing and stepping together, recording only while playing or stepping, the start of the loop inside the song |
| PinaoSequencer.Sequencer.Record | Pinao/model.go:244-277 | the object's recording changes its song to the recorded one, which NoteKeyRecords and DrumKeyRecords describe |
| PinaoPresses.NoteKeyRecords | Pinao/model.go:334-348 | key n of the piano, by its code, sounds semitone n of the octave in the tone chosen; while recording, the cell whose step begins nearest to now, counted from the start of playback round the song, or the cursor's cell in step mode, sounds exactly that note untied afterwards, in place of the one it matches, unless eight others fill it; every other cell and everything else stays |
| PinaoPresses.DrumKeyRecords | Pinao/model.go:349-360 | the same of the drum keys and their aliases |
| PinaoPresses.TakenSounds | Pinao/model.go:261-277 | a cell written in this way holds the hit, untied for a note key, or is unchanged and full of eight others |
| PinaoPresses.KeysGoUp | Pinao/model.go:309-321 | a key that goes up ends its own note and its capture and nothing else; a key already down sounds nothing again |
| PinaoPresses.PanelKeys | Pinao/model.go:322-435 | tone, octave, volume, help, save, export and exit by key code: the new settings within their ranges, the commands and the action, and that nothing else changes |
| PinaoPresses.PowerAndReset | Pinao/model.go:288-299 | a power key only lets go of a page key; a lost keyboard lets go of every key and silences all notes |
| PinaoPresses.TempoKeys | Pinao/model.go:216-243 | five beats a minute up to 180 or down to 60; while playing, the part of the step that has passed is the same in the new tempo, rounded down to a nanosecond |
| PinaoSequencer.Sequencer.ExtendHeld | Pinao/ties.go:30-65 | the loops over held keys and passed steps add exactly the ties of the specification |
| PinaoHeld.HeldNotesFollow | Pinao/ties.go:26-65 | a recorded move to the cell right after: the keys still holding a note of the cell before, in the order of their codes, each add a tied copy to the end of the next cell unless it sounds there or eight fill it; every other cell stays, and each key remembers the tied note it goes on with; any other move makes all keys forget |
| PinaoSequencer.Sequencer.HandlePageKey | Pinao/pages.go:53-84 | the page gesture: press, release, early insertion, in state and commands |
| PinaoMoves.PageKeys | Pinao/pages.go:38-84 | keys I and O by code: going down alone stops the clock at the cell reached and silences the loop, a second one spoils the gesture, going up turns to the previous or next page, or adds one from 0.7 s on; help keeps both out |
| PinaoMoves.PageTurns | Pinao/pages.go:91-103 | turns one page to its first cell, held notes following, and does nothing at an end of the song |
| PinaoMoves.PageGrows | Pinao/pages.go:104-135 | below 64 pages a blank page goes before or behind the current one, later cells move on by sixteen, and only the first cell behind it loses its ties; at 64 nothing changes |
| PinaoMoves.HeldPageKeyAdds | Pinao/pages.go:85-90 | a page key still down after 0.7 s adds its page at the next tick, once |
| PinaoMoves.StepKeys | Pinao/model.go:196-215 | left and right stop the clock at the cell reached and move one cell, round the ends of the page, or to the first cell from rest; in step mode held notes follow |
| PinaoStops.SpaceKey | Pinao/model.go:362-375 | plays on from the cursor, pauses a recording at the cell reached, ends playback on its page, or plays the page from its start; the loop is silenced whenever the clock stops |
| PinaoStops.RecordKey | Pinao/model.go:376-390 | arms and disarms recording; armed at rest it plays from the cursor or from the first cell of the page |
| PinaoStops.DeleteKey | Pinao/model.go:436-486 | empties the cell of the cursor and detaches only the next one; again within two seconds on the same page it leaves one empty page, stopped |
| PinaoStops.StallAndExport | Pinao/main.go:194-235 | a stall of the loop lets go of all keys and nothing else, an export stops playback too |
| PinaoSequencer.Sequencer.Handle | Pinao/model.go:287-489 | one key event changes the whole object, song, transport and captures to the state the run theorem speaks of, with the same commands and action |
| PinaoSequencer.Sequencer.Tick | Pinao/model.go:498-527 | one tick does the same: nothing for a cell already played, otherwise the commands of the cell |
| PinaoMoves.TickPlaysTheClock | Pinao/model.go:498-527 | a playing sequencer plays the cell that as many whole steps lead to, round the song, as have passed since it was started, and plays it once |
| PinaoSession.Play | Pinao/main.go:154-211 | the loop feeding the object: after every run of keys, ticks, stalls and exports from a valid song, the object is in the state of the run and sound |
| PinaoTempo.TempoChangeIsNotHeard | Pinao/model.go:216-243 | the position stays, the time into the step becomes less than a step, and a tick at that moment sends exactly the commands, holds included, and leaves the transport it would have without the change; nothing is sent for a cell already played |
| PinaoKeys.PlaysOnExactly | Pinao/model.go:287-489 | a playing sequencer plays on if and only if the key is none of those that stop it, listed by code, page key, clear window and clock; and unless it is a tempo key, its clock and transport stay and no cell gains tied copies of a note |
| PinaoLive.NextTickHoldsTies | Pinao/model.go:498-527 | two ticks in a row of a playing sequencer with any valid song: the second plays the next cell of the loop, its hits held exactly as counted against the cell played before; at the return to the first cell there is no tie |
| PinaoLive.TiesSurviveEditing | Pinao/model.go:244-527 | the same with any keys in between that neither stop the sequencer nor change the tempo later than the next cell, told from their codes and the clock: recording over the cells included; ties that were all covered before the keys are all held |
| WavExport.Export | Pinao/audio.go:45-125 | fails exactly for invalid songs; otherwise the loop plays every step and the closing all-off at its frame, every chunk has 1 to 480 frames, and exactly the promised number of data bytes is written, below 4 GiB |
| WavExport.StepsInOrder | Pinao/audio.go:65-124 | every step once and in order, step i at frame ceil(i * 2880000 / (2 * bpm)), each later than the one before and inside the file; one all-off, last |
| ImeWire.NumberOfFour | term-ime/integration/protocol.h:15-20 | four bytes read as a big-endian field stay in 32 bits and are the number the packets are specified with |
| ImeWire.BigEndian | term-ime/integration/protocol.h:15-20 | a field's bytes are its digits to the base 256, the most significant first |
| ImeWire.RequestLayout | term-ime/integration/protocol.h:61-67 | the fields of a request packet at their offsets, by literal numbers |
| ImeWire.ModifiersAreSums | term-ime/integration/protocol.h:23-28 | the modifiers let through are exactly the sums of shift, lock, control, alt and super |
| ImeWire.EncodeRequest | term-ime/integration/protocol.h:61-67 | writes the packet into the front of the buffer and nothing behind it |
| ImeWire.EncodeThenDecode | term-ime/integration/protocol.h:61-75 | every valid request with a sequence other than 0 is decoded to itself |
| ImeWire.DecodeThenEncode | term-ime/integration/protocol.h:61-75 | an accepted packet is the encoding of the valid request it carries, and of no other |
| ImeReply.BoundedText | term-ime/integration/service.cpp:120-128 | texts below the capacity of 1024 pass unchanged; longer ones are cut at the last character start up to byte 1023 and flagged |
| ImeReply.CutKeepsText | term-ime/integration/service.cpp:120-128 | what is left of a valid text is valid and has 1020 to 1023 bytes |
| ImeReply.BuildReply | term-ime/integration/service.cpp:180-217 | the packet written field by field is the reply, refused exactly when the committed text cannot be carried or the packet is too large |
| ImeReply.ReplySize | term-ime/integration/service.cpp:180-217 | a reply of carriable texts has at most 7211 bytes |
| ImeReply.ParseReply | term-ime/integration/c1_ime_client.c:97-151 | the reading position over the packet yields the parsed answer or refuses the packet |
| ImeReply.ReplyRoundTrip | term-ime/integration/c1_ime_client.c:122-151 | a packet is parsed to an answer if and only if it is the reply the service builds for that answer: both directions |
| ImeReply.ReplyLayout | term-ime/integration/service.cpp:180-217 | the fields of a reply at their offsets, then the composed text, the committed text and each candidate behind its length |
| ImeSession.Session.Reset | term-ime/integration/service.cpp:133-141 | back to English, outside a password field, with no steps, the engine cancelled and set to English |
| ImeSession.Session.ProcessKey | term-ime/integration/service.cpp:224-249 | the effect of a key on the session, with the calls made to the engine in order, which the rows of ImeAnswers describe |
| ImeAnswers.DigitPicksItsCandidate | term-ime/integration/service.cpp:231-239 | while composing, the plain key of digit i selects candidate i, space and return the first one, when it is shown; its text is committed |
| ImeAnswers.OnlyPicksSelect | term-ime/integration/service.cpp:142-249 | no other key or request selects a candidate, and none that is not shown |
| ImeAnswers.OtherKeysAreForwarded | term-ime/integration/service.cpp:224-249 | every other key reaches the engine as that key with those modifiers and is consumed exactly when the engine takes it; the keys dealt with before never do |
| ImeAnswers.EditingKeys | term-ime/integration/service.cpp:227-243 | escape and backspace act on an open composition only; 6 to 9 do nothing there |
| ImeAnswers.StepsCounted | term-ime/integration/service.cpp:224-249 | printable keys taken count one step, backspaces take one back, and nothing left to show counts none |
| ImeSession.Session.Respond | term-ime/integration/service.cpp:142-217 | the effect of any request and the answer to it |
| ImeAnswers.OtherRequests | term-ime/integration/service.cpp:142-179 | mode, purpose, selection, page and cancel: the calls, the new mode and field, pages forwards for 1 and backwards for 0, a selection refused outside what is shown |
| ImeAnswers.CommitTells | term-ime/integration/service.cpp:142-217 | what is committed is the selected text and then what the engine let go of, the latter never in a password field |
| ImeAnswers.FlagsTell | term-ime/integration/service.cpp:180-217 | each of the six flag bits says what it stands for |
| ImeAnswers.AnswerShows | term-ime/integration/service.cpp:180-217 | while listening the composed text and the first five candidates in order, whole or cut at a character; otherwise nothing |
| ImeSession.OnlyCommitCanFail | term-ime/integration/service.cpp:142-217 | every answer to a valid request can be carried unless its committed text cannot |
| ImeSession.NothingIsHeard | term-ime/integration/service.cpp:142-249 | over every run that stays in a password field, or out of Chinese mode, the engine is only cancelled and set to English, no answer shows anything, and in a password field none commits anything |
| ImeSession.SessionStaysBounded | term-ime/integration/service.cpp:133-249 | over every run the engine is in Chinese mode exactly while the session listens, and at most the limit of steps is taken in one composition |
| ImeSession.LimitHolds | term-ime/integration/service.cpp:142-249 | over every run in which the engine is not cleared it never holds more than 128 printable keys, taken less erased |
| ImeSession.LimitReported | term-ime/integration/service.cpp:224-249 | an answer carries the limit status if and only if a printable key that picks no candidate came at the limit; it is then swallowed and never reaches the engine |
| ImePeers.Client.Send | term-ime/integration/c1_ime_client.c:80-95 | one request at a time; closed on any failure but a full socket; the sequence number moves on only when the packet left |
| ImePeers.SendTells | term-ime/integration/c1_ime_client.c:80-95 | by its result: 1 exactly when the packet left and the request is pending, 0 exactly for a full socket, closed exactly by a broken one, and in every other case nothing changes |
| ImePeers.Client.Receive | term-ime/integration/c1_ime_client.c:106-152 | only the reply to the pending request is taken, anything else closes the connection |
| ImePeers.ReceiveTells | term-ime/integration/c1_ime_client.c:106-152 | a connected client stays connected if and only if nothing came or the reply to its pending request, which is then delivered and no longer pending |
| ImePeers.Server.Accept | term-ime/integration/service.cpp:275-285 | a client gets the focus if and only if nobody holds it and it belongs to the same user |
| ImePeers.Server.Read | term-ime/integration/service.cpp:288-300 | a packet is handled when it decodes, has the expected sequence and the session can answer; otherwise the client is dropped |
| ImePeers.ServeTells | term-ime/integration/service.cpp:288-300 | the client keeps its seat if and only if nothing came or a request in its turn that can be answered; the reply and the next sequence number |
| ImePeers.Server.Write | term-ime/integration/service.cpp:301-306 | the reply leaves whole, waits, or the client is dropped |
| ImePeers.WriteTells | term-ime/integration/service.cpp:301-306 | a reply leaves whole and once, and only a broken socket costs the seat |
| ImeLockstep.SequenceSkipsZero | term-ime/integration/c1_ime_client.c:92-93 | the i-th sequence number is never 0 and its successor is the next one, across the 32-bit wrap |
| ImeLockstep.RunsKeepLockstep | term-ime/integration/service.cpp:252-310 | every interleaving of connects, sends, receives, reads, writes and closes keeps every conforming connection in lockstep |
| ImeLockstep.ConnectionsAgree | term-ime/integration/service.cpp:252-310 | in every reachable state at most one packet of a conforming connection is on its way, both counters agree and are not 0, the session saw a prefix of what was sent, each request once, and every response is the answer to that very request |
| ImeLockstep.ConformingIsServed | term-ime/integration/service.cpp:288-300 | a conforming client is never dropped for framing or sequence: its request is handed to the session, and only a committed text that cannot be carried drops it |
| ImeLockstep.ConformingIsAnswered | term-ime/integration/c1_ime_client.c:106-152 | a conforming client takes every reply it is brought; its call fails only with the connection |
| ImeService.RunsAreRunsOfNet | term-ime/integration/service.cpp:252-310 | every run of the server with its one session is a run of the connections with answers that session can give, so the lockstep results hold of it |
| ImeService.ClientsDoNotMix | term-ime/integration/service.cpp:133-310 | in every reachable state: without a client in focus the session is as new, in English; the client in focus, conforming or not, was answered exactly what a new session answers to its own requests, whatever earlier clients did |
| ImeService.FocusStartsNew | term-ime/integration/service.cpp:252-285 | a waiting client that gets the focus meets a new session |
| ImeService.ResponsesAreOwn | term-ime/integration/service.cpp:133-310 | the responses a conforming client has read are, one by one, what a new session answers to its own requests |
| PowerPolicy.PowerState.SetExternalPower | C1ancher/src/core/power_policy.c:124-150 | the stored state after a power sample: battery time starts at the first offline sample after power or no knowledge, which also restarts the lock and idle times; repeated samples do not move it |
| PowerPolicy.PowerState.Lock | C1ancher/src/core/power_policy.c:152-162 | locks exactly from the active state |
| PowerPolicy.PowerState.Unlock | C1ancher/src/core/power_policy.c:164-176 | unlocks exactly from the locked state |
| PowerPolicy.PowerState.Tick | C1ancher/src/core/power_policy.c:178-201 | the action and the state it leaves, in the order shutdown, lock, suspend; when each is due is stated by the rows Exactly of PowerSafety and PowerHistory |
| PowerPolicy.PowerState.Resume | C1ancher/src/core/power_policy.c:251-267 | the state after a wake-up |
| PowerPolicy.PowerState.TimeoutAt | C1ancher/src/core/power_policy.c:280-306 | the soonest of the running deadlines, cut to the int range |
| PowerSafety.TimeoutAgreesWithTick | C1ancher/src/core/power_policy.c:178-306 | timeout is 0 if and only if tick acts now; a positive one is quiet time and, below INT_MAX, ends with an action; a negative one means no action ever without an event |
| PowerSafety.RunsFromInitAreSafe | C1ancher/src/core/power_policy.c:32-201 | over every run: a shutdown only after the set time locked, 20 s of uninterrupted known-offline power and 60 s after the last one of the same lock; a suspend only without shutdown, after 20 s offline; each as far as the clock can tell |
| PowerSafety.ShutdownExactly | C1ancher/src/core/power_policy.c:43-61 | tick shuts down if and only if the policy is locked on known-offline battery with a shutdown time set, both distances passed as far as the clock can tell, and the retry time reached |
| PowerHistory.SuspendExactly | C1ancher/src/core/power_policy.c:65-83 | tick suspends if and only if the policy is locked with suspending allowed and asked for, by a time or by the lock, no shutdown time is set, the power is known to be off, the time locked and 20 s offline have passed and the retry time is reached |
| PowerHistory.LockExactly | C1ancher/src/core/power_policy.c:22-31 | tick locks if and only if the policy is active on known-offline battery with an idle time set and that time without activity has passed |
| PowerHistory.RunsFollowHistory | C1ancher/src/core/power_policy.c:85-306 | in every run from a new policy every answer and every action of tick is the one called for by what happened before: a description that keeps the times of events and no deadline |
| PowerSafety.ClockEnd | C1ancher/src/core/power_policy.c:6-9 | at the last value of the clock the distances are cut short: a shutdown right after the lock and another at once |
| Player.PlayerObject.Detach | App/music-player/player.go:163-188 | the current run is taken out and a new generation begins |
| Player.PlayerObject.Settle | App/music-player/player.go:190-208 | a run that exits unstopped while current gives its one terminal event, which EndsAreTold describes |
| Player.PlayerObject.SendLocked | App/music-player/player.go:240-257 | never waits, gives up only progress, and makes room only by dropping the oldest event still there, whatever the consumer reads meanwhile |
| PlayerRuns.TerminalEventsAreKept | App/music-player/player.go:106-257 | over every interleaving: a run that ends by itself sends exactly one terminal event and a stopped run none, what was sent is read, evicted or queued, no terminal event of the newest run is evicted, and the last step of a send has room |
| PlayerRuns.TrackedRunIsTold | App/music-player/main.go:150-262 | the run the interface follows is the newest, no event of an older run applies, and once it has ended by itself exactly one event saying so is still to come |
| PlayerRuns.EndsAreTold | App/music-player/player.go:190-208 | in every reachable state a terminal event sent or underway says completed if and only if its run exited cleanly, and failed if and only if it did not |
| PlayerRuns.PauseToggles | App/music-player/player.go:131-162 | only the end of a pause toggle of the current run turns its pause on or off, and every other run starts unpaused |
| PlayerRuns.StopMovesOn | App/music-player/player.go:163-188 | stopping a run moves the generation past every run there was, so none of their events applies |
| PlayerRuns.LaunchIsNewest | App/music-player/player.go:106-129 | a new run has a larger generation than every run before |
| PlayerRuns.EndReachesInterface | App/music-player/main.go:239-262 | from every reachable state in which the followed run has ended by itself, at most three steps of the send underway and at most 128 reads lead on to the next track if it exited cleanly, and to stopped if it failed |
| LineDrawing.Canvas.DrawLine | App/c1device/text.go:191-216 | for all end points the loop stops after as many moves as the longer side has, and exactly the pixels of the line turn black |
| LineDrawing.LineEnds | App/c1device/text.go:191-216 | the first pixel is the start and the last the end point |
| LineDrawing.MovesToNeighbour | App/c1device/text.go:191-216 | every move goes to one of the eight neighbours |
| LineDrawing.InsideBox | App/c1device/text.go:191-216 | no pixel leaves the box of the end points |
| FrameClock.Index | App/badapple/asset.go:91-106 | the frame shown is 0 before the start, the last one from the end on, else floor(at * num / (den * 10^9)); always a frame of the animation |
| FrameClock.SplitIsExact | App/badapple/asset.go:91-106 | splitting off whole seconds does not change the quotient |
| FrameClock.ClampNotNeeded | App/badapple/asset.go:88-106 | before the end of the animation the quotient is in range by itself |
| FrameClock.ShownFrom | App/badapple/asset.go:91-106 | frame k or a later one is shown exactly from k / fps on |
| FrameClock.SmallProducts | App/badapple/asset.go:88-106 | no product of the split computation leaves 64 bits |

## Findings

- A saved position cannot always be restored (App/book-reader/chapter_pages.go:85-116). When the first window of a
  chapter holds nothing but its heading, the position lies after its first byte, and the rest of the heading wraps to
  more lines than a page has, `readWindow` gets two pages where it needs one and fails. RestoresPosition proves this to
  be the only failure, HeadingThatCannotBeResumed gives a file.
- The distances of the power policy saturate at the end of the 64-bit clock (C1ancher/src/core/power_policy.c:6-9). At
  `INT64_MAX` a shutdown follows a lock at once. ShutdownExactly gives the condition, ClockEnd the state.
- A tie can be attacked again although the song is valid (Pinao/model.go:82-103, Pinao/ties.go:90-137). A loaded song
  may sound a note more than once in a cell, and a slot holds one copy only. All ties of a cell are held if and only if
  no note has more tied copies in it than copies in the cell before (TiesOverRun); SecondTieIsAttacked gives a song for
  either side. No key doubles a note: RunsKeepSound proves that a song without doubled notes stays without.

## Left out

- Device, file and process I/O, JSON, locking of files, and the atomic saving of caches: the logic on either side only.
- GB18030, UTF-16 and EPUB: the reader is modelled for UTF-8 text, as it is after normalization.
- The patterns of headings and volume titles and the numerals of volumes are predicates and functions of the title.
- The glyph advances of a face are a function of the rune. Rendering, labels, hints, notices, sparks and key
  highlights are not modelled.
- Paginate: page lines are sequences of runes, and invalid UTF-8 is an error, as decodeBytes makes it.
- Library behaviour (`utf8.FullRune`, `utf8.RuneStart`, `sort.Search`, `strings.TrimSuffix`) is modelled as documented.
- HeadingThatCannotBeResumed: its heading test trims spaces and accepts one title, as the pattern does for that line.
- Reader: opening a chapter also reveals it in the directory; that effect is part of DirectoryView, not of Reader.
- DirectoryView: which section an opening lands in is an input of the step.
- OpenText: the path without a cached index; the cached path is covered by ValidChapterIndex.
- Sequencer: the first page and the further pages of a song are one list; notices and drawing state are left out; kept
  slots are a set where the source has a bit mask.
- TiesSurviveEditing: says nothing after a key that stops the sequencer, or a tempo change later than the next cell,
  which starts the run of cells anew.
- Play: saving, drawing and sending the commands to the synthesizer are not part of the loop modelled.
- Export: what the synthesizer makes of the commands is floating-point signal processing and not modelled; writing is
  taken to succeed.
- Rime is an oracle: what it says while one request is handled is an input; its preedit and candidates are taken to be
  valid UTF-8 where the service does not check them.
- Session: the reset after a client is taken to succeed in selecting the schema; the server stops where it does not.
- Client, Server: what the kernel does with a packet is an input of the step; connecting and the checks of the socket
  file are left out.
- PowerState: calls with a null policy; the outcome of a suspend is reported only after tick asked for one, as the
  launcher does.
- PlayerObject: generations are unbounded; the lines of ffplay arrive parsed.
- DrawLine: coordinates are unbounded, so overflow at the ends of the int range is not modelled.
- Index: seeking and pausing of the playback clock.
