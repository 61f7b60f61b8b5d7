# A verified model of srt2dvbsub

srt2dvbsub reads SubRip files, lays their text out, renders each cue to a bitmap and
multiplexes the bitmaps as DVB subtitle packets into an MPEG transport stream.  This
project models the parts of it that carry state, branching or arithmetic of their own, and
proves what they promise.  `dafny verify dfyconfig.toml` checks everything.

Specification functions and the laws about them live beside methods that take the source's
own form: loops over cursors, arrays filled in place, classes whose methods change fields.
Every such method is proved to compute its specification function.

| file | part of the program |
|---|---|
| PoolJobs, PoolMachine, PoolFrames, PoolInvariant, PoolSafety | the render pool as a step machine over arbitrary interleavings |
| PoolSignals | the worker's late signal: exactly when every step of a run is safe |
| PoolLists | the pool's two linked lists, refining the sequences of the step machine |
| Prefetch | the demux thread as a client of the pool |
| IndexedImage, IndexedImageLoops | palette building and nearest-neighbour scaling |
| PaletteCache, AssComposite | colour cache, palette cache and tile compositing of the ASS renderer |
| Utf8, Tags, Wrap, WrapWords, WrapLoops, Qc | the text pipeline and the QC count |
| Overlap, SrtParser, ParserLoops | both SRT parsers, overlap correction, statistics |
| Timeline, Demux, Streams | PTS bumping, cue release, pass-through, stream takeover, PIDs |
| BufferPool, Subtitle | the exact-size buffer pool and make_subtitle |

## How the model reads the source

**Render pool.**  One step is one critical section, the renderer is an arbitrary
deterministic function, and a run is any interleaving of any number of workers and clients
with one shutdown.  Retrieval reads `done` without `done_mtx` (src/render_pool.c:676), so a
worker's publication is two steps: result and `done` become visible (371-373), then it
signals and unlocks (374-375), and a retrieval may come between.  A waiting caller cannot,
since it needs `done_mtx` to wake up.  A freed container is a job id outside the map of live
jobs.  A step is safe when every container it touches is live; a run goes on up to its first
unsafe step.  The claims are safety claims.

**Text.**  A C string is the sequence of its bytes before the terminator.  The UTF-8 test is
the code's structural one, which is looser than section 4 of RFC 3629.  `isspace` is that of
the C locale.  `\\hh` leaves an escape behind after the removal of `\h`; nothing here says
otherwise.

**Parsers.**  A file is the sequence of its fgets chunks, and the sscanf conversions are
parameters, so the results hold for every scanner.

**Cues and packets.**  Times are 90 kHz ticks.  An absent time stamp is `None`.  The encoder
is an arbitrary function of track and cue that says whether bytes came out.  The release
test does not add the start time of the input although the emitted PTS does, as in
src/srt2dvbsub.c:1888-1891.  The set of input streams is fixed and the subtitle time base is
1/90000.  PNG-only mode is an encoder that yields nothing, and no pass-through.

**Results about the code that its comments do not say.**

- A worker can signal a job that is already freed: once `done` is set, a retrieval may unlink
  and free the job before the worker's signal and unlock (`LateSignal`).  A run is safe
  throughout if and only if no retriever frees a job that is still being signalled
  (`MemorySafety`), and retrieval rules that out if and only if it never takes such a job,
  as it would by testing `done` under `done_mtx` (`GuardedRetrieval`).  Synchronous calls are
  safe in every run (`SyncNeverRushes`).
- The muxing parser does not repair text, and the QC walk steps by lead bytes alone.  It
  stays inside the text if and only if no byte it visits among the last three announces more
  than is left (`FitsIff`); a cue that is a lone three-byte lead makes it pass the terminator
  (`UnrepairedOverruns`).
- The buffer pool writes a pointer into each block it caches, also into blocks shorter than a
  pointer.  A failing make_subtitle can make it do so if and only if the bitmap is narrow: it
  has fewer than 8 pixels, or one colour and a palette buffer too short for it
  (`NarrowOverruns`).
- Wrapping leaves an empty first line if and only if the cue has no content or its first word
  is at least max_chars wide, so also in front of a word that fits exactly
  (`FirstLineEmptyIff`).
- Palette building commutes with nearest-neighbour scaling on every image exactly when
  neither side shrinks, not only for integer enlargement (`CommutesIffNotShrinking`).
- Shows are at most a millisecond late and clears on time, under every behaviour of the
  encoder, exactly when each cue lasts longer than the millisecond a touching predecessor
  costs it (`OnTimeIffRoomy`).  Overlap correction itself can leave a cue without length, and
  `CorrectSettles` says exactly when.
- `--pid` is documented and range-checked as 32-8186, but a single value is refused when the
  value plus the track count exceeds 8186, which also refuses the one start whose last id
  would be 8186 itself (src/srt2dvbsub.c:1343); the model follows the code
  (`SinglePidLimit`).
- A stream whose language the takeover filter rejects keeps no PID, because the `continue`
  at src/srt2dvbsub.c:1103 skips the mirroring of its id (`MirrorIds`).

## Model

| member | source | states |
|---|---|---|
| PoolInvariant.InitInv | src/render_pool.c:390-428 | a fresh pool satisfies the invariant on jobs, clients, workers and bitmaps |
| PoolInvariant.NeverUnsafe | src/render_pool.c:325-692 | under the invariant an enabled step touches live containers only, and a stolen result is there, if and only if it is not the signal of a freed job |
| PoolInvariant.StepInv | src/render_pool.c:325-692 | every safe step of every thread keeps the invariant |
| PoolFrames.ThreadsKept | src/render_pool.c:325-692 | a step moves one client or one worker at most |
| PoolFrames.JobsKept | src/render_pool.c:500-692 | a job keeps its arguments, gets its key only when it is enqueued, and goes only with its waiter, its retriever or shutdown |
| PoolInvariant.FreeAllJobs | src/render_pool.c:441-480 | both freeing passes of shutdown keep the ownership of containers consistent with waiting callers |
| PoolInvariant.DoomedHome | src/render_pool.c:251-266 | freeing containers frees exactly the bitmaps those containers hold |
| PoolSafety.RunInv | src/render_pool.c:325-692 | the invariant holds in every state of every run |
| PoolSafety.FreedOnce | src/render_pool.c:325-692 | in every state of every run each container and each bitmap was freed at most once, and nothing freed is listed or queued |
| PoolSafety.NothingLost | src/render_pool.c:237-275 | in every state of every run each container ever built is live or was freed exactly once, and a live one is in the keyed list or held by a client, never both |
| PoolSafety.ClosedForGood | src/render_pool.c:430-437 | once shutdown has begun no call enters the pool any more |
| PoolSignals.SafeIffSignalsLive | src/render_pool.c:371-375 | whatever thread moves next is safe if and only if every job still to be signalled is live |
| PoolSignals.SyncNeverRushes | src/render_pool.c:558-575 | in every run a synchronous caller frees its job safely and with no signal outstanding |
| PoolSignals.RushIsFatal | src/render_pool.c:681-685 | a retriever that frees a job still to be signalled leaves a worker whose next step is unsafe |
| PoolSignals.MemorySafety | src/render_pool.c:325-692 | in every state of a run all threads' next steps are safe if and only if no retriever of the run freed a job still to be signalled |
| PoolSignals.HastyIsFatal | src/render_pool.c:676-685 | a retrieval that takes such a job is two steps from an unsafe signal |
| PoolSignals.GuardedRetrieval | src/render_pool.c:676-685 | over a whole run no retriever holds such a job and all steps are safe if and only if no retrieval takes such a job |
| PoolSignals.HastyRun | src/render_pool.c:676-685 | any run in which such a retrieval is possible goes on to an unsafe signal |
| PoolSignals.LateSignal | src/render_pool.c:371-375 | for every renderer, key and arguments a run from a fresh pool to an unsafe signal |
| PoolSafety.OneOwner | src/render_pool.c:270-275 | in every state a bitmap is alive if and only if exactly one of a container, a worker or a caller holds it |
| PoolSafety.NoMarkedEntryLeft | src/render_pool.c:444-466 | after shutdown's queue pass every entry left in the keyed list is live and not marked freed |
| PoolSafety.FirstInFirstOut | src/render_pool.c:330-347 | in every state the jobs ever enqueued are those dequeued followed by those queued |
| PoolSafety.DrainedAtExit | src/render_pool.c:330-347 | if nothing is enqueued after running is cleared, then once all workers have exited the queue is empty and every enqueued job was published |
| PoolSafety.QueueBound | src/render_pool.c:599-658 | queued asynchronous jobs plus submitters between depth check and enqueue never exceed 1023 plus the number of client threads |
| PoolSafety.Admission | src/render_pool.c:599-610 | a submission that meets at most 1023 queued jobs is admitted with a job of its own; one that meets 1024 is turned away and changes nothing shared |
| PoolSafety.NewestFirst | src/render_pool.c:654-658 | a key submitted again stands for the job submitted last |
| PoolLists.RenderPool.Append | src/render_pool.c:550-552 | appending through head and tail pointers appends to the queue's sequence |
| PoolLists.RenderPool.EnqueueWaiter | src/render_pool.c:549-556 | the synchronous enqueue does to the lists what the step machine says |
| PoolLists.RenderPool.EnqueueKeyed | src/render_pool.c:648-658 | the asynchronous enqueue appends to the queue, pushes on the keyed list and stores the key |
| PoolLists.RenderPool.DepthBelowLimit | src/render_pool.c:599-610 | the counting walk admits exactly when fewer than 1024 jobs are queued |
| PoolLists.RenderPool.PopHead | src/render_pool.c:340-345 | a worker takes the first queued job, or nothing |
| PoolLists.RenderPool.RemoveFromAll | src/render_pool.c:237-246 | the unlink walk removes exactly the target |
| PoolLists.RenderPool.FindCell | src/render_pool.c:671-689 | the keyed walk finds the first entry with the key, and its predecessor |
| PoolLists.RenderPool.TryGet | src/render_pool.c:670-692 | retrieval answers -1, 0 or 1 by the first entry with the key, and unlinks it only when it is done |
| PoolLists.RenderPool.DrainQueue | src/render_pool.c:445-466 | the queue pass frees jobs without waiters, marks the others, and unlinks both kinds |
| PoolLists.RenderPool.FreeKeyed | src/render_pool.c:471-479 | the second pass frees exactly the keyed entries not marked freed |
| PoolLists.RenderPool.FreeEverything | src/render_pool.c:444-480 | the locked end of shutdown composes both passes |
| Prefetch.KeysStep | src/srt2dvbsub.c:1951-1969 | whatever thread moves, a job under a key carries the arguments of that key's cue |
| Prefetch.Delivers | src/srt2dvbsub.c:1934-1992 | the bitmap that a retrieval or a blocking render hands over is the rendering of the cue being served |
| Prefetch.NextGood | src/srt2dvbsub.c:1931-1995 | every move of the demux thread or of another thread keeps that |
| Prefetch.WindowKeys | src/srt2dvbsub.c:1951-1969 | the demux thread submits only the eight cues from the one it serves on, as far as the track has them, and stops only behind those |
| Prefetch.RunGood | src/srt2dvbsub.c:1931-1995 | from any such state every run keeps that |
| Prefetch.Transparent | src/srt2dvbsub.c:1931-1995 | over any run, with any schedule, refused submissions and duplicate keys, every bitmap used for a cue equals its direct rendering |
| IndexedImage.ExactIffFewColours | src/dvdbr2dvbsub.c:206-229 | looking the index plane up in the palette gives the image back if and only if it has at most 16 colours |
| IndexedImage.Grows | src/dvdbr2dvbsub.c:214-226 | scanning only appends to the palette, settles every colour seen and never exceeds 16 entries |
| IndexedImage.SrcFalls | src/dvdbr2dvbsub.c:241-245 | the coordinate sampled for i of m is the one c with c·m <= i·n < (c+1)·m |
| IndexedImage.ScaledFalls | src/dvdbr2dvbsub.c:236-267 | for any sizes each pixel shows the source pixel it falls on in both directions |
| IndexedImage.EnlargedBy | src/dvdbr2dvbsub.c:851-852 | enlarging by k turns every pixel into a k by k square: pixel (x, y) is source pixel (x/k, y/k) |
| IndexedImage.EnlargeCommutes | src/dvdbr2dvbsub.c:195-267 | indexing an enlargement gives the same palette, and the enlarged index plane |
| IndexedImage.ShrinkLoses | src/dvdbr2dvbsub.c:236-252 | for any shrinking there is an image whose palette changes |
| IndexedImage.CommutesIffNotShrinking | src/dvdbr2dvbsub.c:195-267 | palettes survive scaling on all images if and only if neither side shrinks |
| IndexedImageLoops.ColourBytes | src/dvdbr2dvbsub.c:209-213 | a packed colour gives back its red, green, blue and alpha bytes |
| IndexedImageLoops.PutColour | src/dvdbr2dvbsub.c:214-226 | the inner search and insert is one palette step and returns the colour's slot |
| IndexedImageLoops.RgbaToIndexed | src/dvdbr2dvbsub.c:195-233 | the pixel loops compute palette, colour count and index plane; unused slots stay 0 |
| IndexedImageLoops.RgbaResize | src/dvdbr2dvbsub.c:236-252 | the byte loops scale the colours of the plane: each of the four bytes of a pixel is that of the source pixel it falls on, read at its line size |
| IndexedImageLoops.IndexedResize | src/dvdbr2dvbsub.c:255-267 | the index loops scale the plane: each index is that of the source pixel it falls on |
| PaletteCache.DistanceIs | src/render_pango.c:287-293 | the distance of two packed colours is the Euclidean one of their red, green and blue bytes, whatever their alpha |
| PaletteCache.Nearest | src/render_pango.c:285-296 | the first slot at minimal squared RGB distance |
| PaletteCache.NearestUnique | src/render_pango.c:285-296 | that slot is determined by the palette and the colour |
| PaletteCache.NearestPaletteIndex | src/render_pango.c:285-296 | the scan finds it |
| PaletteCache.ColourCache.Slot | src/render_ass.c:688-707 | through hits, fills and evictions the 128-entry cache answers what the scan would |
| PaletteCache.ModeCache.Lookup | src/render_ass.c:609-623 | a hit returns the palette of the mode and moves the entry to the front, losing none; a miss changes nothing |
| PaletteCache.ModeCache.Insert | src/render_ass.c:639-648 | insertion pushes at the front and drops the entry past the fourth |
| PaletteCache.ModeCache.Get | src/render_ass.c:600-663 | through every eviction the palette handed out is the one of its mode |
| AssComposite.BoundingBox | src/render_ass.c:535-557 | the box is the union of the tiles that have an area, or empty without any |
| AssComposite.TilesInsideBox | src/render_ass.c:719-726 | every pixel of a valid tile lies inside the box |
| AssComposite.CovIs | src/render_ass.c:721 | a valid tile covers its own rectangle with its bytes, row yy from byte yy·stride on; there is no coverage outside it or from an invalid tile |
| AssComposite.PixelRule | src/render_ass.c:719-736 | each pixel has the index of the earliest valid tile with the greatest non-zero coverage there, 0 without any |
| AssComposite.BlendTile | src/render_ass.c:719-736 | the two coverage loops merge a tile by strictly greater coverage |
| AssComposite.DrawTiles | src/render_ass.c:674-737 | drawing the tiles in order fills the box by the pixel rule |
| AssComposite.RenderFrame | src/render_ass.c:512-742 | the whole frame: box, palette of the mode, pixel rule |
| AssComposite.RenderOneTile | src/render_ass.c:719-736 | the frame of a single tile is its own rectangle and has the tile's slot exactly where the bitmap byte is positive; nothing for a tile without bitmap, over ten million bytes or with a stride below its width |
| Utf8.ByMask | src/srt_parser.c:525-551 | lead and continuation bytes by their bit masks |
| Utf8.ValidIff | src/srt_parser.c:522-554 | text is valid if and only if it starts with a lead byte and the continuation bytes that one announces, and what follows is valid |
| Utf8.CountsLeads | src/srt_parser.c:96-126 | on valid text the character count is the number of bytes that are no continuation bytes |
| Utf8.ValidAppend | src/srt_parser.c:96-126 | behind valid text validity and the character count are those of the parts |
| Utf8.ValidCut | src/srt_parser.c:522-554 | valid text can be cut in front of any ASCII byte |
| Utf8.SanitizeRepairs | src/srt_parser.c:560-601 | repair keeps byte and character count and yields valid text, for all bytes |
| Utf8.SanitizeFixed | src/srt_parser.c:560-601 | repair is the identity if and only if the text is valid, hence idempotent |
| Utf8.SanitizeAt | src/srt_parser.c:570-590 | behind valid text a byte that starts no sequence becomes a question mark, and repair goes on right behind it |
| Utf8.CountCodepoints | src/srt_parser.c:96-126 | the pointer walk counts characters |
| Utf8.SanitizeInPlace | src/srt_parser.c:560-601 | the in-place loop repairs, and reports no error if and only if the text was valid |
| Tags.StripFront | src/srt_parser.c:1620-1656 | text in front of the first opener is copied |
| Tags.StripClosed | src/srt_parser.c:1620-1656 | `<` goes with everything up to the next `>`, `{` up to the next `}` |
| Tags.StripUnclosed | src/srt_parser.c:1620-1656 | an opener without its closer is text |
| Tags.StripTagsIdempotent | src/srt_parser.c:1620-1656 | stripping leaves no closed tag, is the identity if and only if there is none, and is idempotent |
| Tags.StripTagsValid | src/srt_parser.c:1620-1656 | on valid text stripping keeps validity, and its character count is the visible length |
| Tags.VisibleAtLeastStripped | src/srt_parser.c:134-167 | on all bytes the visible length is at least the character count of the stripped text |
| Tags.StrippingCanJoin | src/srt_parser.c:134-167 | the inequality can be strict |
| Tags.EditsIdle | src/srt_parser.c:768-788 | text without `\h` stays as it is |
| Tags.EditsFirst | src/srt_parser.c:768-788 | the first `\h` goes, or becomes a space, the text before it stays and the rest is edited on its own |
| Tags.RstripIs | src/srt_parser.c:453-459 | the trim takes exactly the CR and LF bytes at the end |
| Tags.EditsValid | src/srt_parser.c:768-788 | removing or replacing `\h` keeps validity |
| Tags.RstripValid | src/srt_parser.c:453-459 | the trailing trim keeps validity |
| Tags.StripTagsLoop | src/srt_parser.c:1620-1656 | the copying loop strips |
| Tags.MeasureVisible | src/srt_parser.c:134-167 | the walk measures the visible length |
| Tags.RemoveEscapes | src/srt_parser.c:782-788 | moving the tail left over each escape removes them as specified |
| Tags.ReplaceEscapes | src/srt_parser.c:768-776 | putting a space in the place of each escape replaces them as specified |
| Tags.TrimEnd | src/srt_parser.c:453-459 | the backward loop trims |
| Wrap.CollapseTidy | src/srt_parser.c:204-259 | after collapsing no byte of 9 to 13 but the newline is left, and no space stands in front of a space or a newline |
| Wrap.CollapseKeepsContent | src/srt_parser.c:204-259 | collapsing keeps every byte that is no whitespace, and validity |
| Wrap.TokenIsOneWord | src/srt_parser.c:305-322 | the token scan yields one unbroken word, non-empty, with its tags closed unless it ends the line |
| Wrap.VisibleAppend | src/srt_parser.c:134-167 | visible width adds up where no tag and no character straddles the seam |
| Wrap.PlaceOk | src/srt_parser.c:333-413 | placing a token keeps line_len the width of the current output line and lines the number of lines |
| Wrap.WrapFits | src/srt_parser.c:286-443 | for every cue: exact counters, at most two width-triggered breaks, each line before the third at most 67 (HD) or 37 characters wide or a single word |
| Wrap.NoNeedlessBreak | src/srt_parser.c:361-387 | a cue whose source lines are at most max_chars wide gets no width-triggered break, unless such a line is a single word of just that width |
| Wrap.SymbolIff | src/srt_parser.c:278-284 | for valid text a cue is a symbol if and only if, without its tags, it is one character of several bytes |
| Wrap.SymbolIdle | src/srt_parser.c:329-352 | on cues with one visible character per line the treatment of symbols changes nothing |
| Wrap.NormalizeKeepsContent | src/srt_parser.c:188-448 | the output without whitespace is the input without whitespace, and valid text stays valid |
| WrapWords.CollapseKeepsWords | src/srt_parser.c:204-259 | collapsing keeps the lines and, in each, the words |
| WrapWords.WordsKept | src/srt_parser.c:286-443 | wrapping keeps the sequence of visible words: none lost, split, reordered or run together |
| WrapWords.GroupsKept | src/srt_parser.c:286-443 | the output lines of a cue fall into consecutive groups, one per source line with content, each with that line's visible words in order, behind them at most one empty line |
| WrapWords.FirstLineEmptyIff | src/srt_parser.c:361-387 | the first output line is empty if and only if the cue has no content or its first word is at least max_chars wide |
| WrapLoops.CollapseWhitespace | src/srt_parser.c:204-259 | the loop with its last_space flag collapses |
| WrapLoops.ScanToken | src/srt_parser.c:311-320 | the loop with its two flags finds the token's end |
| WrapLoops.PlaceToken | src/srt_parser.c:331-413 | the three branches place a token as specified |
| WrapLoops.NormalizeCueText | src/srt_parser.c:188-448 | the nested loops compute the normalised text |
| Qc.ValidFits | src/qc.c:205-215 | on valid text stepping by the lead byte alone never passes the terminator |
| Qc.FitsIff | src/qc.c:205-215 | on all bytes the walk stays inside the text if and only if no byte it visits among the last three announces more than is left |
| Qc.LongestIs | src/qc.c:191-218 | the longest line is as long as one of the lines and no shorter than any |
| Qc.CountLines | src/qc.c:191-218 | on all bytes the walk answers if and only if it stays inside the text; on valid text it does, the longest line is the maximum character count over lines, and a trailing newline is no line |
| Qc.SanitizedTextIsSafe | src/srt_parser.c:1347-1374 | repaired text stays valid through normalisation, escape edits, trim and tag stripping, so the QC walk over the repairing parser's entries fits |
| Qc.UnrepairedOverruns | src/srt_parser.c:1147-1162 | the first parser repairs nothing: in every configuration its entry for a cue that is a lone lead byte makes the walk pass the terminator |
| Overlap.CorrectSettles | src/srt_parser.c:1394-1408 | each corrected cue starts at the later of its start and its predecessor's end, ends no earlier than before, at most i ms past the largest end so far, and has no length exactly when it overlapped and ended with its predecessor |
| Overlap.CorrectFixed | src/srt_parser.c:1111-1127 | the result is disjoint; correction changes nothing if and only if the list was, hence is idempotent |
| Overlap.FillTheTime | src/srt_parser.c:1410-1482 | durations and gaps add up to the time from the first start to the last end |
| Overlap.StatisticsBound | src/srt_parser.c:1410-1482 | minimum, average and maximum duration are ordered, gaps lie between min_gap and max_gap, and max_gap is a real gap although it starts at 0 |
| SrtParser.ParsedInOrder | src/srt_parser.c:985-1181 | what either parser returns is in order, disjoint and never ends before it starts |
| SrtParser.Lockstep | src/srt_parser.c:1201-1493 | without fallback timestamps, with text in every cue and valid text where it would be repaired, both parsers return the same list |
| SrtParser.StampFields | src/srt_parser.c:1040-1041 | the times of a stamp in range spell its own hours, minutes, seconds and milliseconds |
| SrtParser.CueIff | src/srt_parser.c:1033-1046 | a stamp makes a cue if and only if its minutes, seconds and milliseconds are in range and it ends later than it starts; behind a rejected one the next turn goes on with the next line |
| SrtParser.EmptyCue | src/srt_parser.c:1318-1330 | a cue without text is a cue to the first parser and none to the second |
| SrtParser.ReadsToEnd | src/srt_parser.c:1049-1057 | the end of the file ends a cue as a blank line does |
| SrtParser.LongLineSkipped | src/srt_parser.c:1049-1057 | a line that does not fit the 8192 bytes is left out, and reading goes on behind it |
| SrtParser.BomStripped | src/srt_parser.c:1012-1018 | a byte order mark goes, and nothing else does |
| SrtParser.TextByMode | src/srt_parser.c:1077-1105 | for libass the first `\h` becomes a space and nothing is laid out; otherwise the text is laid out to 67 characters for frames over 720 by 576 and 37 for others, and then the first `\h` goes |
| SrtParser.ReadsBack | src/srt_parser.c:1008-1057 | a file of well-formed blocks, with or without index lines, yields exactly its cues, in order, from either parser, with the times its stamps spell; fallback stamps count for the second parser only |
| SrtParser.ParsesBack | src/srt_parser.c:985-1181 | and if no cue overlaps the one before, those are the entries returned, with their times, text and alignment |
| SrtParser.AlignmentIs | src/srt_parser.c:1139-1145 | the alignment is the digit 1 to 9 behind the first `{\an`, or 2 without such a tag or digit |
| ParserLoops.ReadText | src/srt_parser.c:1049-1057 | the text loop joins lines up to a blank one, skipping those that no longer fit |
| ParserLoops.ReadCue | src/srt_parser.c:1033-1057 | range and order tests, then the text |
| ParserLoops.ReadTurn | src/srt_parser.c:1008-1057 | one turn of the main loop, blank lines, byte order mark and index line included |
| ParserLoops.MakeEntry | src/srt_parser.c:1347-1374 | the entry of an accepted cue: repair, normalisation or escape replacement, alignment |
| ParserLoops.Store | src/srt_parser.c:1107-1118 | storing a cue in place corrects its overlap |
| ParserLoops.ParseInternal | src/srt_parser.c:985-1181 | the first parser computes the corrected list |
| ParserLoops.CountCue | src/srt_parser.c:1410-1422 | the counters after one more cue |
| ParserLoops.DifferencesCount | src/srt_parser.c:1394-1408 | the overlap counter is the number of cues that correction changed |
| ParserLoops.ParseWithStats | src/srt_parser.c:1201-1493 | the second parser computes its list; total is valid plus skipped, overlaps counts the cues moved, every duration and gap lies between the extremes, the larger of which are attained, and the average is the sum of durations over the count |
| Timeline.StrictlyIncreasing | src/muxsub.c:250-257 | PTS strictly increase and never precede their request |
| Timeline.PeakForm | src/muxsub.c:250-257 | on the 90-tick grid the k-th PTS is the maximum over j of request j plus 90 per later packet |
| Timeline.PlayWrites | src/srt2dvbsub.c:2041-2131 | one packet per encode that yields bytes, in cue order, show before clear, each asked for at its cue's start or end |
| Timeline.PlayWritten | src/srt2dvbsub.c:2041-2131 | the show of a cue is written if and only if its own encode yields bytes, and so is the clear |
| Timeline.OnTimeIffRoomy | src/srt2dvbsub.c:2041-2131 | packets are on time for every encoder if and only if every cue has room |
| Timeline.TwoMillisecondsSuffice | src/srt2dvbsub.c:2041-2131 | corrected cues of at least 2 ms: shows at most 1 ms late, clears on time, whatever yields nothing |
| Demux.RunOk | src/srt2dvbsub.c:1831-2158 | after any packets a track has written exactly what playing its first cur_sub cues writes |
| Demux.SeenIsLargest | src/srt2dvbsub.c:1842-1867 | the time of a run is the largest PTS, or DTS without one, of the packets whose stream is in range and not taken over |
| Demux.CuesReleased | src/srt2dvbsub.c:1864-1891 | for sorted cues cur_sub is the number of cues with (start + delay)·90 at most that time; each was released once, in order, and shown and cleared as far as its encodes yield bytes |
| Demux.Requests | src/srt2dvbsub.c:2051-2104 | in every run each packet of a track asks for start time + 90·(cue start or end + delay) |
| Demux.PngOnlySilent | src/srt2dvbsub.c:2135-2158 | a run that writes PNG files only sends nothing |
| Demux.TrackOnTime | src/srt2dvbsub.c:2041-2131 | in every run a track's PTS strictly increase, have the maximum form, and are punctual when every cue has room |
| Demux.ParsedCuesOnTime | src/srt2dvbsub.c:1864-2131 | the same from the file on, for the cues a parser returns |
| Demux.RunRouted | src/srt2dvbsub.c:1849-1862 | exactly the packets with a valid index whose stream was not taken over pass through, in order, under their own index |
| Demux.CuesGoFirst | src/srt2dvbsub.c:1888-2158 | what was sent stays sent, and a packet that passes goes out behind the cues it makes due |
| Demux.SingleWriter | src/srt2dvbsub.c:2135-2158 | in every run the packets of an output stream all come from one input stream or all from one track |
| Demux.PacketLoop.EncodeAndWrite | src/muxsub.c:250-257 | last_pts and the packet handed to the muxer after one encode |
| Demux.PacketLoop.ReleaseTrack | src/srt2dvbsub.c:1888-2132 | the release loop of a track |
| Demux.PacketLoop.OnPacket | src/srt2dvbsub.c:1831-2158 | one turn of the packet loop, with the takeover test of the stream table |
| Demux.PacketLoop.Loop | src/srt2dvbsub.c:1831-2158 | the loop over any packets computes the run |
| Demux.AddTracks | src/srt2dvbsub.c:1480-1721 | each of the first eight tracks gets the first offered input stream of its language that no earlier track has, or else a new one; they all do, or the next would need an id past 8186 |
| Demux.Prepare | src/srt2dvbsub.c:1079-1721 | streams, ids and success as a function of the arguments: without `--pid` ids are mirrored, taken over or counted up from the largest; with it success depends exactly on the count and on clashes with streams that have no track |
| Demux.Mux | src/srt2dvbsub.c:3421-3423 | from mirroring to the end of input: the outcome of Prepare, the run of exactly the cues, delays, start time, mode and encoder given, requests as Requests states them, one writer per output stream, and positive ids apart whenever the input's are |
| Streams.MirrorIds | src/srt2dvbsub.c:1079-1125 | an output id is the input's exactly when ids are preserved, the id is positive and the filter did not pass the stream over; max_input_pid is the largest of these, or 31 |
| Streams.MirrorTargets | src/srt2dvbsub.c:1094-1117 | the targets are exactly the first 16 subtitle streams of an allowed language, in stream order, each with its id |
| Streams.TakeOverWired | src/srt2dvbsub.c:1661-1666 | taking a target over gives the track a stream no other track has |
| Streams.TakeOverNumbered | src/srt2dvbsub.c:1720-1721 | the target's id on that stream clashes with nothing |
| Streams.FreshNumbered | src/srt2dvbsub.c:1688-1699 | a fresh id is above every other and in 32..8186 |
| Streams.StreamTable.constructor | src/srt2dvbsub.c:1079-1125 | mirroring establishes the invariant: streams apart, positive ids apart, targets exactly the streams offered, every id the mirrored one |
| Streams.StreamTable.FindTarget | src/srt2dvbsub.c:297-310 | the first unused target of the language, if any |
| Streams.StreamTable.IsOverwriteStream | src/srt2dvbsub.c:338-349 | true exactly for the input streams some track has taken over |
| Streams.StreamTable.AddTrack | src/srt2dvbsub.c:1660-1721 | a track takes the first offered stream of its language that is free, with its id, or a fresh stream, with the next id if ids are preserved; refused only past 8186 |
| Streams.StreamTable.TakeOver | src/srt2dvbsub.c:1661-1721 | marks the target, uses its stream and id, keeps the invariant |
| Streams.StreamTable.AddFresh | src/srt2dvbsub.c:1681-1705 | the new stream, its id, and when it is refused |
| Streams.ParsePidList | src/utils.c:687-773 | accepts exactly non-empty lists of distinct numbers in 32..8186; the first bad token decides the code |
| Streams.AssignedIs | src/srt2dvbsub.c:1340-1364 | several values go to as many tracks, in order, and to no other number; a single value counts up from itself |
| Streams.AssignedOne | src/srt2dvbsub.c:1340-1364 | a list as long as there are tracks is taken as it is, unless it is 8186 alone |
| Streams.SinglePidLimit | src/srt2dvbsub.c:1341-1347 | the increment test refuses, besides starts that leave the range, exactly the start ending at 8186 |
| Streams.GiveApart | src/srt2dvbsub.c:1367-1403 | ids given without conflict keep all positive ids apart |
| Streams.StreamTable.FindConflict | src/srt2dvbsub.c:1367-1388 | whether a stream without a track has one of the ids |
| Streams.StreamTable.ApplyCustomPids | src/srt2dvbsub.c:1315-1409 | succeeds exactly when the count fits and nothing conflicts, then every track has its own id; otherwise no id changes; either way the wiring stays and ids that were apart stay apart |
| BufferPool.OneList | src/pool_alloc.c:95-102 | a cached block is in one list only |
| BufferPool.PopOk | src/pool_alloc.c:126-137 | popping keeps sizes unique, counts exact and at most 32, and the block is in no list |
| BufferPool.PushOk | src/pool_alloc.c:178-185 | pushing a block nobody caches keeps the same, whatever its size |
| BufferPool.Pool.FindBucket | src/pool_alloc.c:95-102 | the bucket of the size, if any |
| BufferPool.Pool.Alloc | src/pool_alloc.c:121-143 | the block last returned under the size, else a new one; zeroed, in nobody's hands before, all other blocks unchanged; exactly when it fails |
| BufferPool.Pool.Free | src/pool_alloc.c:158-190 | the block leaves its owner; cached exactly while its list is short and has or can get a bucket; its link overruns it exactly when a block shorter than a pointer is cached; nothing else changes |
| BufferPool.Pool.Destroy | src/pool_alloc.c:198-215 | frees every cached block and no other |
| Subtitle.Duration | src/dvb_sub.c:308-313 | the duration in range, clamped to 0 and UINT_MAX |
| Subtitle.PalettePlaneIs | src/dvb_sub.c:228-299 | the palette plane has four bytes for each declared colour, 16 colours by default and 256 at most, copied from the bitmap or zero |
| Subtitle.Maker.FreeSubAndRects | src/dvb_sub.c:98-120 | each plane goes back under the size it was allocated with, then the structures |
| Subtitle.Maker.MakePlane | src/dvb_sub.c:249-275 | the index plane, filled, or everything given back |
| Subtitle.Maker.MakePalette | src/dvb_sub.c:281-303 | the palette plane, filled, or everything given back |
| Subtitle.Maker.MakeSubtitle | src/dvb_sub.c:150-316 | succeeds exactly when its allocations and buffers allow; failure leaves every block and structure as before, success keeps exactly the two planes; only a narrow bitmap can make a link overrun a block |
| Subtitle.NarrowOverruns | src/dvb_sub.c:249-303 | from an empty pool, with all allocations granted except a palette behind a short plane, the clean-up overruns a block if and only if the bitmap is narrow |

## Left out

- FFmpeg, libass, Pango, Cairo, fontconfig and pthread internals: foreign code, present as arbitrary functions or outcomes.
- The blur, unsharp, dither and clean-up passes of src/render_pango.c: floating-point tuning without a crisp specification.
- Liveness of the render pool: a synchronous call that races with shutdown may wait for ever, and render_pool_init's failure path is not modelled.
- Out-of-memory paths outside the buffer pool and make_subtitle.
- Overflow of the machine integers in sizes and times: the model's integers are unbounded.
- The ASS index and coverage buffers are two-dimensional arrays in the model, so the row-major index arithmetic of src/render_ass.c:726 is not.
- Growing buffers (`realloc`) of the text code are sequences; their capacities are not modelled.
- The sscanf conversions, cue id renumbering, size validation and the warning counters of parse_srt_with_stats.
- Demux.PacketLoop.Loop: the tracks' cursors are a sequence of values in one object, so aliasing between track structures is not captured.
- Streams.StreamTable.ApplyCustomPids: a track without a stream, the code's last error case, cannot occur in a table whose tracks all have one.
- Subtitle.Maker.MakeSubtitle: the buffer lengths a bitmap carries are the lengths of its buffers, and the size overflow test is left out with machine integers.
- normalize_tags, srt_to_pango_markup, srt_html_to_ass: translation without a stated inverse.
- The growth of the per-track encode buffer in src/muxsub.c, which the fixed-size encoder call never uses.
- The command line, PNG output, progress, benchmarking, logging and batch encoding: easy or I/O.
