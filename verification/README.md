# A verified model of the camera application

This project models the stateful and arithmetic core of a WebRTC camera application for single-board computers and
proves what that core is meant to guarantee. Every file is one component:

| file | component |
|---|---|
| `PackedFrame.dfy`, `OsdDraw.dfy`, `YuyvClock.dfy` | the text overlay and the clock, drawn in place into packed 4:2:2 frames |
| `NaturalOrder.dfy`, `NaturalNumerals.dfy`, `StyleFile.dfy`, `OsdOverlay.dfy` | the overlay's file order, its style file, and what a rescan makes of a directory |
| `RecorderManager.dfy`, `RecordingContents.dfy`, `RawH264Recorder.dfy` | recording: what reaches the files and the encoder, anchoring, rotation, file lifetime, keyframe gates, the Annex-B scan |
| `RecordingNames.dfy`, `RecordingIndex.dfy`, `RecordingRotation.dfy` | names of recordings, the walk back over date and hour folders, oldest-first deletion |
| `RtcChannel.dfy` | streaming over a data channel with concurrent senders |
| `WebsocketService.dfy`, `ConnectionStages.dfy`, `UrlEncoding.dfy` | reconnecting with backoff and discovery, the order of the handshakes, percent-encoding |
| `MqttService.dfy` | MQTT topics and the client/peer index |
| `V4L2Codec.dfy`, `CodecOverlaps.dfy`, `JetsonScaler.dfy`, `ThreadSafeQueue.dfy` | hardware buffer pools shared by producers and a worker |
| `V4L2Capturer.dfy` | the life of a capture device and of its kernel buffers |
| `Base64.dfy` | Base64 with a 32-bit accumulator |
| `Arithmetic.dfy`, `Bytes.dfy`, `Decimals.dfy`, `Orders.dfy`, `Text.dfy`, `Wrappers.dfy` | what the others share |

Objects that change their fields are classes whose methods are proved equal to functions on an abstract state; the
properties over whole runs are then lemmas about these functions. Loops over buffers, strings and directories are
methods with invariants. Concurrency is modelled by atomic steps that may interleave in any order: the critical
sections of a mutex, single system calls, and completion handlers. C++ data races are not modelled, and where the source
does not make a larger group of steps atomic the model does not claim that they are.

System calls, the driver, the network, the muxer, the file system and clocks are parameters: their outcomes range over
everything the code distinguishes.

Some claims one might expect are false of the code. For each a lemma gives an input that shows it, and others the exact
condition under which the claim holds:

* The skipping scan for parameter sets inspects every NAL header exactly when no start code hides one
  (`InspectsAllExactlyWhenNothingHidden`); then it reports what a scan of every position reports. A type goes
  unreported exactly when every position announcing it is hidden (`ReportsExactlyTheOpenlyAnnounced`). A header of zero
  can make a start code hide the next one: `ZeroHeaderHidesSps` gives a buffer in which a parameter set is missed.
* A codec callback does not always get its own frame. With submissions that no worker turn interrupts it does for fewer
  than 8 output buffers (`EachCallbackGetsItsOwnFrame`), and `EightBuffersLoseACallback` shows that from 8 on a callback
  can be lost; every V4L2 codec of the source asks for 2 (`src/codecs/v4l2/v4l2_encoder.cpp:5`, `v4l2_decoder.cpp:5` and
  `v4l2_scaler.cpp:5`), so 8 is reached only through the `buffer_num` parameter. When a worker turn can come between
  the driver's accepting a frame and the queueing of its callback, that callback gets the frame of a later job, already
  with one buffer (`LateCallbackGetsALaterFrame`), and the callbacks match exactly as long as none runs after the worker
  once found the callback queue empty (`MatchesExactlyWhenNoneIsLate`).
* Closing a file writes its trailer whether or not its header was written (`StoppedAtOnceHasNoHeader`); the header is
  there exactly when a key packet has come while the file was open (`TrailerHasHeaderExactlyAfterKeyPacket`).
* `PrepareBuffer` keeps every output index exactly when there are at most 8 (`PreparedConserves`, `NineBuffersDropOne`).
* Recordings go in the order of date, hour and stem exactly when in every folder, wherever one stem continues another,
  a file with the shorter stem also comes first by its whole name (`InOrderExactlyWhenNamesFollowStems`). It does not
  when the continuation sorts before the extension, as `a-b.mp4` beside `a.mp4` (`HyphenGoesFirst`); stems of one length
  continue none.
* The loop that rotates until there is space ends by itself exactly when there is enough space after at most as many
  rotations as there are files and folders (`RoomWithinAllItems`); when other data fills the disk it spins on an empty
  tree until it is aborted (`EmptyTreeSpins`).
* A WebSocket target reads back exactly when the path has no '?' and the keys, which are not encoded, have neither '='
  nor '&' (`TargetReadsBack`, `SeparatorInKeyIsLost`).

## Model

| member | source | states |
|---|---|---|
| PackedFrame.Blend8 | src/capturer/osd_overlay.cpp:205-212 | A blended channel value lies between the old value and the target, so blending never overshoots a byte. |
| PackedFrame.BlendIsNearest | src/capturer/osd_overlay.cpp:205-212 | The blended value is the nearest integer to the exact mixture; full opacity gives the target and none the old value. |
| PackedFrame.PutOrBlendY | src/capturer/osd_overlay.cpp:251-278 | In either byte order exactly the addressed pixel's luma is blended and, on request, exactly its pair's two chroma bytes become 128; every other byte of the buffer is as before. |
| PackedFrame.MappedDetermines | src/capturer/osd_overlay.cpp:251-278 | A description per row and column leaves no byte of the buffer open. |
| PackedFrame.LitTwice | src/capturer/osd_overlay.cpp:280-303 | Painting pixel sets one after the other in one luma is painting their union, including the shared chroma. |
| OsdDraw.DrawGlyph | src/capturer/osd_overlay.cpp:280-303 | The scattered writes of a scaled glyph light exactly the pixels whose font cell is set, clipped to the frame. |
| OsdDraw.OneBitIsOneSquare | src/capturer/osd_overlay.cpp:280-303 | One set bit of a font is one scaled square at its column and row, in every place of a text where its character stands, and nothing else. |
| OsdDraw.FillRectBlack | src/capturer/osd_overlay.cpp:214-249 | Exactly the pair-aligned, clipped box becomes black or is blended towards black; nothing else changes. |
| OsdDraw.TextStaysInBox | src/capturer/osd_overlay.cpp:678-727 | Every pixel a text covers lies inside its box, at least the padding away from every edge. |
| OsdDraw.PlacedByAlignment | src/capturer/osd_overlay.cpp:701-713 | A box that fits stands exactly as far from the frame edge it is aligned to as the offset says, on both axes; one that does not fit stands at the left or upper edge. |
| OsdDraw.LeftMirrorsRight | src/capturer/osd_overlay.cpp:704-705 | Aligning a fitting box to the other side exchanges the gaps to its left and right and changes nothing else. |
| OsdDraw.TopMirrorsBottom | src/capturer/osd_overlay.cpp:706-707 | Aligning it to the other end exchanges the gaps above and below it and changes nothing else. |
| OsdDraw.BoxIsTight | src/capturer/osd_overlay.cpp:691-702 | A text of full glyphs reaches from the first column and row of its box to the last, or with a drawn box to ten pixels from each; its width is that from its first to its last cell. |
| OsdDraw.DrawLetters | src/capturer/osd_overlay.cpp:717-726 | The loop over characters, shadow before glyph, lights the text over the union of all shadows: no shadow ever covers a glyph drawn before it. |
| OsdDraw.DrawText | src/capturer/osd_overlay.cpp:678-727 | Pixel-exact: luma is 235 on the text, else 16 on the shadow, else the box value inside the box, else unchanged; chroma is 128 exactly in touched pairs, blended in box pairs, else unchanged; padding and bytes after the frame are untouched; an empty text changes nothing. |
| OsdDraw.DrawnInNumbers | src/capturer/osd_overlay.cpp:678-727 | Text has luma 235, its shadow one font pixel right and below 16, a black box 0, a half-transparent one half of what was there; ink and black boxes have neutral chroma. |
| OsdDraw.DrawnDetermines | src/capturer/osd_overlay.cpp:678-727 | The pixel description fixes every byte of the buffer. |
| OsdDraw.FormatDoesNotMatter | src/capturer/osd_overlay.cpp:678-727 | Equal pictures in YUYV and UYVY, with any strides, are equal pictures after drawing. |
| OsdDraw.DrawingAgainChangesNothing | src/capturer/osd_overlay.cpp:678-727 | Except for the semi-transparent box, drawing the same text twice is drawing it once. |
| YuyvClock.DrawClockText | src/capturer/yuyv_clock.cpp:217-227 | The loop over characters lights exactly the pixels of the text. |
| YuyvClock.ClockStaysInBox | src/capturer/yuyv_clock.cpp:265-274 | On frames of any width the visible text lies on the box, also where the box is pushed to the left edge. |
| YuyvClock.ClockTextReadsBack | src/capturer/yuyv_clock.cpp:230-244 | Hours, minutes, seconds and milliseconds stand in this order, with two, two, two and three digits between colons, and can be read back. |
| YuyvClock.ClockBoxIsCentred | src/capturer/yuyv_clock.cpp:265-274 | On a frame wide enough the gaps left and right of the box differ by the two paddings only, and a full text reaches to ten pixels from its edges. |
| YuyvClock.OverlayClock | src/capturer/yuyv_clock.cpp:246-278 | Pixel-exact: inside the box luma is 235 on the text and 0 elsewhere and chroma is 128; outside it nothing changes. |
| YuyvClock.ClockDetermines | src/capturer/yuyv_clock.cpp:246-278 | The picture fixes every byte of the buffer. |
| NaturalOrder.CompareNatural | src/capturer/osd_overlay.cpp:435-470 | The two-index comparison loop computes lexicographic order on tokens (byte or digit run). |
| NaturalOrder.TokenLessIsTotalOrder | src/capturer/osd_overlay.cpp:435-470 | Tokens are strictly and totally ordered. |
| NaturalOrder.SpellingOfTokens | src/capturer/osd_overlay.cpp:435-470 | Tokens spell the string they came from, so different strings have different tokens. |
| NaturalOrder.NaturalLessIsTotalOrder | src/capturer/osd_overlay.cpp:435-470 | The comparator is irreflexive, transitive and total on all byte strings, with no ties. |
| NaturalNumerals.NumbersDecide | src/capturer/osd_overlay.cpp:435-470 | Names that agree up to digit runs of different values compare by these values as numbers, whatever follows. |
| NaturalNumerals.BytesDecideElsewhere | src/capturer/osd_overlay.cpp:435-470 | Names that agree up to two different bytes, not both digits, compare by these bytes. |
| NaturalNumerals.PrefixComesFirst | src/capturer/osd_overlay.cpp:435-470 | A name comes before its continuations. |
| StyleFile.TrimSpaces | src/capturer/osd_overlay.cpp:338-345 | The two-ended loop removes exactly the leading and the trailing space. |
| StyleFile.ParseLine | src/capturer/osd_overlay.cpp:370-425 | One line has exactly the effect of the one setting it denotes, or none. |
| StyleFile.ParseText | src/capturer/osd_overlay.cpp:366-431 | The position loop applies all lines in order and clamps the offsets. |
| StyleFile.ParseStyleFile | src/capturer/osd_overlay.cpp:357-431 | A readable file is parsed into the style, an unreadable one leaves it alone and is reported. |
| StyleFile.OtherLinesKeep | src/capturer/osd_overlay.cpp:395-425 | Lines that set other parts of the style, or nothing, leave a part as it was. |
| StyleFile.CommentsMeanNothing | src/capturer/osd_overlay.cpp:377-383 | What follows a # has no influence on what a line sets. |
| StyleFile.NothingLinesChangeNothing | src/capturer/osd_overlay.cpp:357-431 | A line with an unknown key, a value its key does not know (a scale outside 1 to 16 too) or only a comment, put in anywhere, at the very beginning too, leaves the parsed style as it was. |
| StyleFile.SpellingDoesNotMatter | src/capturer/osd_overlay.cpp:370-388 | Space around and between key and value, a comment after them and the case of letters do not matter. |
| StyleFile.ValuesMean | src/capturer/osd_overlay.cpp:385-424 | What each keyword value sets, the alternative spellings up, down and semi too. |
| StyleFile.ReadsAtMost1023 | src/capturer/osd_overlay.cpp:357-366 | The parser reads the first 1023 bytes of a file. |
| StyleFile.NegativeOffsetIsNone | src/capturer/osd_overlay.cpp:395-431 | A negative offset is read as such and counts as none. |
| StyleFile.LastSettingWins | src/capturer/osd_overlay.cpp:366-425 | The last valid line that sets a part of the style decides it, whatever came before. |
| StyleFile.ParsingJoinedFiles | src/capturer/osd_overlay.cpp:357-431 | Parsing two texts joined by a line break is parsing one and then the other. |
| StyleFile.PrintedStyleReadsBack | src/capturer/osd_overlay.cpp:48-67 | A style with non-negative offsets and scale 1 to 16, printed in the default file's format, is read back exactly, over any previous style. |
| OsdOverlay.ListingOrderDoesNotMatter | src/capturer/osd_overlay.cpp:520-589 | Two listings of the same names, in any order, lead to the same text and the same style. |
| OsdOverlay.ComposedInOrder | src/capturer/osd_overlay.cpp:551-563 | The text of two groups of files is the text of the first, a separator, and the text of the second, or the one that is not empty. |
| OsdOverlay.TwoFilesInOrder | src/capturer/osd_overlay.cpp:520-569 | Of two listed text files the one first in natural order contributes the first part of the text; a style file contributes none, even if the pattern matches it. |
| OsdOverlay.FirstStyleFileDecides | src/capturer/osd_overlay.cpp:565-584 | The style is the default one overridden by the style file that is first in natural order. |
| OsdOverlay.FirstLineIs | src/capturer/osd_overlay.cpp:307-335 | A file contributes its first line of up to 255 bytes without the blanks at its end, whatever follows. |
| OsdOverlay.BlanksDoNotShow | src/capturer/osd_overlay.cpp:307-335 | Spaces, tabs and carriage returns at the end of the line do not show. |
| OsdOverlay.SortNames | src/capturer/osd_overlay.cpp:549-569 | The names come out sorted by the natural comparator and none is lost or invented. |
| OsdOverlay.OsdOverlay.Classify | src/capturer/osd_overlay.cpp:530-547 | Style files and text files are separated, each in listing order, and everything else is skipped. |
| OsdOverlay.OsdOverlay.ReadStyle | src/capturer/osd_overlay.cpp:565-584 | The style is the default one overridden by the first style file, if there is one and it can be read. |
| OsdOverlay.OsdOverlay.Compose | src/capturer/osd_overlay.cpp:551-563 | The text is the non-empty first lines of the files in order, with separators between them only. |
| OsdOverlay.OsdOverlay.Rescan | src/capturer/osd_overlay.cpp:520-589 | A rescan leaves the object in a state its listing determines; a missing directory clears the text and the style; a default style file is asked for exactly when none is listed. |
| OsdOverlay.OsdOverlay.Draw | src/capturer/osd_overlay.cpp:678-727 | The cached text is drawn pixel-exactly. |
| ThreadSafeQueues.ThreadSafeQueue.Push | src/common/thread_safe_queue.h:19-29 | A full queue rejects the element and stays as it is, otherwise it is appended. |
| ThreadSafeQueues.ThreadSafeQueue.Pop | src/common/thread_safe_queue.h:48-56 | First in, first out, or nothing from an empty queue. |
| ThreadSafeQueues.ThreadSafeQueue.Clear | src/common/thread_safe_queue.h:82-85 | Nothing is left. |
| RecorderManager.RecorderManager.Start | src/recorder/recorder_manager.cpp:261-309 | Opens the next container and clears the frame queue, or leaves everything closed when the container cannot be created. |
| RecorderManager.RecorderManager.Stop | src/recorder/recorder_manager.cpp:311-328 | Closes the open container, if any, once. |
| RecorderManager.RecorderManager.OnFrame | src/recorder/recorder_manager.cpp:147-203 | The callback on a captured frame, with auto-start, anchoring, rotation and gating, is the specified step for every combination of failures. |
| RecorderManager.RecorderManager.WriteIntoFile | src/recorder/recorder_manager.cpp:221-259 | A packet is written, held back until a key packet, or gives up a container whose header cannot be written. |
| RecorderManager.RecorderManager.OnBuffer | src/recorder/video_recorder.cpp:31-35 | A frame joins the encoder's queue unless that is full. |
| RecorderManager.RecorderManager.ConsumeBuffer | src/recorder/video_recorder.cpp:80-98 | The encoder takes the oldest queued frame. |
| RecorderManager.RecorderManager.StartRecording | src/rtc/conductor.cpp:460-481 | A start command on a running recorder changes nothing. |
| RecorderManager.RecorderManager.StopRecording | src/rtc/conductor.cpp:483-502 | A stop command on an idle recorder changes nothing. |
| RecorderManager.NextKeeps | src/recorder/recorder_manager.cpp:147-328 | Every handler, with any outcome, keeps the log of file events well formed and the keyframe gate closed until a keyframe. |
| RecorderManager.EveryRunIsWellFormed | src/recorder/recorder_manager.cpp:147-328 | Over every run of frames, packets and commands, with any failures, the log of file events stays well formed and the open file is its last one. |
| RecorderManager.FirstFrameAfterStartIsKey | src/recorder/recorder_manager.cpp:155-194 | In every run the first frame the encoder's queue accepts after a successful start is a keyframe. |
| RecorderManager.WellFormedMeans | src/recorder/recorder_manager.cpp:221-328 | At every moment of such a log at most one file is open; each file is opened, headed and closed at most once, and closed before the next opens; packets follow their header, and the first is a key packet. |
| RecorderManager.TrailerHasHeaderExactlyAfterKeyPacket | src/recorder/recorder_manager.cpp:221-328 | As long as a file is the open one, its header has been written if and only if a key packet has come since it was opened; so its trailer, which closing always writes, has a header exactly then. |
| RecorderManager.StoppedAtOnceHasNoHeader | src/recorder/recorder_manager.cpp:311-328 | A recording stopped before any packet leaves a file with a trailer and no header. |
| RecordingContents.EveryPacketIsWritten | src/recorder/recorder_manager.cpp:221-259 | As long as a file is the open one, the packets written into it are, one for one and in order, those the encoders handed over since it was opened, from the first key packet on. |
| RecordingContents.EveryFrameIsAccepted | src/recorder/recorder_manager.cpp:155-203 | From a start on, while nothing stops the recorder and the queue is long enough, the encoder is given exactly the captured frames from the first keyframe on, over all rotations. |
| RecordingContents.QueueHoldsTheNewest | src/recorder/recorder_manager.cpp:190-194 | In every run the encoder queue holds the frames accepted last, in order, so that none is encoded twice or out of order. |
| RecordingContents.AutoStartIsAStart | src/recorder/recorder_manager.cpp:155-161 | The keyframe that starts a recording in the background is recorded like any other. |
| RecordingContents.StartsExactlyWhenItCan | src/recorder/recorder_manager.cpp:155-161 | An idle recorder begins on a frame exactly in background mode, on a keyframe, when its file can be created; otherwise nothing is recorded. |
| RecordingContents.CommandsTakeEffect | src/recorder/recorder_manager.cpp:221-328 | A start command begins a recording into a new file, a stop ends it and closes every file, a failing header closes its file at once. |
| RecordingContents.IdleRecordsNothing | src/recorder/recorder_manager.cpp:155-203 | A recorder that is idle and not started records nothing, whatever comes. |
| RecordingContents.EachRotationMakesAFile | src/recorder/recorder_manager.cpp:170-185 | There are as many new files as there were rotations, and nothing else makes one. |
| RecordingContents.FailingRotationEnds | src/recorder/recorder_manager.cpp:170-185 | A rotation whose file cannot be created ends the recording. |
| RecorderManager.StepsStayOnSchedule | src/recorder/recorder_manager.cpp:163-185 | While frames, packets, encoder turns and ignored start commands interleave, the next file is due at file index times the duration after an unchanged anchor. |
| RecorderManager.RotationDoesNotDrift | src/recorder/recorder_manager.cpp:155-185 | From the anchoring keyframe on, whether recording was started by command or by that frame itself, and with anything but a stop interleaved: with keyframes at most g apart and g no longer than a file, rotation i falls within g after i durations, for every i, and no rotation is missed. |
| RawH264Recorder.RawH264Recorder.CheckNALUnits | src/recorder/raw_h264_recorder.cpp:40-72 | The loop with skips stays in bounds for all lengths and sets exactly the flags of the skipping scan. |
| RawH264Recorder.RawH264Recorder.Encode | src/recorder/raw_h264_recorder.cpp:26-38 | A frame is handed on exactly when recording has started by it. |
| RawH264Recorder.RawH264Recorder.ReleaseEncoder | src/recorder/raw_h264_recorder.cpp:20-24 | Everything seen so far is forgotten. |
| RawH264Recorder.SkippingScanIsSound | src/recorder/raw_h264_recorder.cpp:45-69 | The skipping scan reports only NAL units that a scan of every position finds. |
| RawH264Recorder.AnnouncesByStartCode | src/recorder/raw_h264_recorder.cpp:45-69 | A type is announced where the bytes 0 0 1 or 0 0 0 1 stand before a byte whose low five bits are the type. |
| RawH264Recorder.ReportsExactlyTheOpenlyAnnounced | src/recorder/raw_h264_recorder.cpp:45-69 | A NAL type is reported if and only if some position announces it whose header no start code that the scan visits hides. |
| RawH264Recorder.InspectsAllExactlyWhenNothingHidden | src/recorder/raw_h264_recorder.cpp:45-69 | The skips pass over no NAL header if and only if no start code has another one beginning at its own header byte within the range of the scan. |
| RawH264Recorder.NonZeroHeadersHideNothing | src/recorder/raw_h264_recorder.cpp:45-69 | Start codes with headers other than zero hide nothing. |
| RawH264Recorder.SkippingScanIsComplete | src/recorder/raw_h264_recorder.cpp:45-69 | It misses no type that is announced anywhere, provided no start code hides another. |
| RawH264Recorder.SkippingScanIsFullScan | src/recorder/raw_h264_recorder.cpp:45-69 | When no NAL header byte is zero the skipping scan is the scan of every position. |
| RawH264Recorder.ZeroHeaderHidesSps | src/recorder/raw_h264_recorder.cpp:45-69 | With a zero header byte a parameter set can be missed. |
| RawH264Recorder.EmittedFromFirstCompleteKeyframe | src/recorder/raw_h264_recorder.cpp:20-38 | Over any frames, one is emitted exactly when a keyframe up to it completed both parameter sets, and from then on all are, until the encoder is released. |
| RecordingNames.PrefixZeroOrder | src/common/utils.cpp:431-435 | Comparing zero-padded numbers as strings compares the numbers. |
| RecordingNames.PreviousDateIsPredecessor | src/common/utils.cpp:167-179 | The previous date is the latest of all earlier dates, over month ends and leap years. |
| RecordingNames.PreviousDateIsTheDayBefore | src/common/utils.cpp:167-179 | It lowers the day number, in closed form over the Gregorian calendar, by exactly one. |
| RecordingNames.DatesAreDays | src/common/utils.cpp:167-179 | The dates are in bijection with the day numbers from the first to the last, and in the same order. |
| RecordingNames.DateNameReadsBack | src/common/utils.h:70-81 | A date folder's name determines its date. |
| RecordingNames.DateNameOrder | src/common/utils.h:70-81 | Comparing date folders by name compares the dates. |
| RecordingNames.NamesAreChronological | src/common/utils.h:62-93 | File stems everywhere, and hour folders within a date, sort in order of time. |
| RecordingIndex.GetFiles | src/common/utils.cpp:130-142 | Exactly the files of the folder with the extension, once each, in any order. |
| RecordingIndex.FindLatestSubDir | src/common/utils.cpp:144-165 | The greatest folder that is named like a date or an hour, or nothing exactly when there is none. |
| RecordingIndex.DatesAndHoursAreRecognised | src/common/utils.cpp:144-165 | The date and hour folders of recordings are recognised as such, and no name of another length. |
| RecordingIndex.GetPreviousDate | src/common/utils.cpp:167-179 | The folder name of the predecessor date. |
| RecordingIndex.PreviousHour | src/common/utils.cpp:389-400 | The greatest hour folder before the given one, or nothing exactly when there is none. |
| RecordingIndex.AppendFolder | src/common/utils.cpp:374-385 | The older files of one folder, newest first, cut off at the number asked for. |
| RecordingIndex.StepBack | src/common/utils.cpp:387-417 | What is visited after a folder is what is visited from the next one on: the hour before, else the latest hour of the day before, else nothing. |
| RecordingIndex.WalkBack | src/common/utils.cpp:368-418 | From a folder under a date folder of any name, the walk terminates and takes the first so many files of what is listed from there. |
| RecordingIndex.FindOlderFiles | src/common/utils.cpp:343-421 | For every tree, file and number the result is a prefix, of the length asked for, of all older files in descending order; nothing for a file that does not exist; in the base directory a request for none is a request for all. |
| RecordingIndex.AllOlderOfDate | src/common/utils.cpp:343-421 | For a file under a calendar date, all older files are the flat listing. |
| RecordingIndex.AllOlderOfBase | src/common/utils.cpp:354-366 | For a file in the base directory they are exactly the older files beside it with its extension, newest first. |
| RecordingIndex.FlatListingIs | src/common/utils.cpp:343-421 | The flat listing holds exactly the older files with the extension in folders that an unbroken run of days reaches, once each and in descending order. |
| RecordingIndex.TakenAreTheNewest | src/common/utils.cpp:343-421 | When folder order agrees with modification times the result is newest first, and nothing left out is newer than anything in it. |
| RecordingRotation.RecordingStore.FindOldest | src/common/utils.cpp:41-59 | The loop finds the first name in name order, or none. |
| RecordingRotation.RecordingStore.RemoveMedia | src/common/utils.cpp:85-103 | A file, its counterpart and the folders left empty are removed, and nothing else. |
| RecordingRotation.RecordingStore.RotateFiles | src/common/utils.cpp:40-107 | From any tree: the oldest recording of the oldest hour goes with its counterpart; an hour folder without media or a date folder without hours goes whole. |
| RecordingRotation.RotationShrinks | src/common/utils.cpp:40-107 | A rotation adds nothing, and removes something whenever there is a folder. |
| RecordingRotation.NoEmptyFolderIsLeft | src/common/utils.cpp:85-103 | When a recording goes, the folders that this empties go with it. |
| RecordingRotation.RemovedIsOlderThanRemaining | src/common/utils.cpp:61-92 | Every media file that goes is older, by date, hour and stem, than every media file that stays, in trees whose names follow their stems. |
| RecordingRotation.OnlyTheCounterpartGoesAlong | src/common/utils.cpp:85-92 | All media files that one rotation removes have one folder and one stem. |
| RecordingRotation.DeletedInOrder | src/common/utils.cpp:40-107 | In trees whose names follow their stems, a media file that an earlier rotation deletes is older than one that a later rotation deletes. |
| RecordingRotation.InOrderExactlyWhenNamesFollowStems | src/common/utils.cpp:40-107 | Repeated rotations delete media in (date, hour, stem) order if and only if names follow stems in every folder. |
| RecordingRotation.HyphenGoesFirst | src/common/utils.cpp:40-107 | In a folder with a.mp4 and a-b.mp4 the order is broken. |
| RecordingRotation.EqualStemsAreOrdered | src/common/utils.h:70-81 | Names follow stems where all stems of a folder have one length, as recorded files have. |
| RecordingRotation.EverythingGoesInTheEnd | src/common/utils.cpp:40-107 | After k rotations the tree is empty or has lost at least k items. |
| RecordingRotation.EmptyAfterAllItems | src/common/utils.cpp:40-107 | After as many rotations as there are items the tree is empty. |
| RecordingRotation.RecordingStore.MakeRoom | src/recorder/recorder_manager.cpp:93-97 | The loop that rotates while space lacks stops after the fewest rotations that make room, or when it is aborted; given as many rounds as there are items it makes room whenever any number of rounds would. |
| RecordingRotation.RoomWithinAllItems | src/recorder/recorder_manager.cpp:93-97 | The loop ends by itself if and only if there is room after at most as many rotations as there are items, whatever the space test. |
| RecordingRotation.EmptyTreeSpins | src/recorder/recorder_manager.cpp:93-97 | With no recording left and still no room it never ends by itself. |
| RecordingRotation.OlderIsEarlier | src/common/utils.h:62-93 | For recorded files, older in this order means earlier in time. |
| Base64.ToBase64 | src/common/utils.cpp:109-128 | The bit-accumulator loop with its wrapping accumulator computes the 3-byte-group encoding of section 4 of RFC 4648, padding included. |
| Base64.WrapIsInvisible | src/common/utils.cpp:116-125 | The bits that 32 bits cannot hold never reach an emitted digit. |
| Base64.DecodedEncoded | src/common/utils.cpp:109-128 | Decoding recovers every byte string. |
| Base64.EncodedLength | src/common/utils.cpp:109-128 | The length is four for every three bytes begun. |
| Base64.TestVectors | src/common/utils.cpp:109-128 | The test vectors of section 10 of RFC 4648. |
| RtcChannel.RtcChannel.Enqueue | src/rtc/rtc_channel.cpp:148-157 | A packet joins the end of the queue. |
| RtcChannel.RtcChannel.TakeNext | src/rtc/rtc_channel.cpp:161-173 | The loop takes the oldest packet, and ends only when told to stop with nothing left. |
| RtcChannel.RtcChannel.Deliver | src/rtc/rtc_channel.cpp:175-187 | The packet in flight is sent, or the loop ends because the channel is no longer open. |
| RtcChannel.StoppedLoopHasSentAll | src/rtc/rtc_channel.cpp:163-170 | When the loop ends because it was told to stop, everything enqueued until then has been sent. |
| RtcChannel.StoppedLoopDeliversWholeStreams | src/rtc/rtc_channel.cpp:148-188 | In every run, a loop that was told to stop has delivered the whole payload of every stream that was completely enqueued. |
| RtcChannel.RtcChannel.SendMemory | src/rtc/rtc_channel.cpp:112-146 | The offset loop enqueues header, chunks and trailer of exactly this payload. |
| RtcChannel.RtcChannel.SendFile | src/rtc/rtc_channel.cpp:220-268 | The block-reading loop enqueues the same packets as the memory sender for the same bytes, and none for a file that is not open. |
| RtcChannel.ChunksAreContiguous | src/rtc/rtc_channel.cpp:124-137 | Offsets are contiguous, no chunk is empty or larger than 64 KiB, and only the last may be smaller. |
| RtcChannel.PacketsCarryPayload | src/rtc/rtc_channel.cpp:112-146 | The chunks of a stream concatenate to its payload, whose length the header names, and the trailer comes last. |
| RtcChannel.PacketsNameTheirStream | src/rtc/rtc_channel.cpp:112-146 | Every packet of a stream names its stream and the kind of its payload. |
| RtcChannel.EveryRunKeeps | src/rtc/rtc_channel.cpp:148-188 | In every interleaving what was enqueued is what was sent, then what is in flight, lost or queued, and each stream's packets are in order. |
| RtcChannel.ReceiverRecoversPayloads | src/rtc/rtc_channel.cpp:112-188 | For any number of senders with distinct stream ids and any interleaving: what was sent is a prefix of what was enqueued, what is collected of a stream is a prefix of its payload, and all of it once the trailer has come. |
| RtcChannel.OpenChannelLosesNothing | src/rtc/rtc_channel.cpp:159-188 | If the channel is open at every delivery, nothing is lost, and the loop ends only after it was told to stop. |
| RtcChannel.ClosedChannelSendsNoMore | src/rtc/rtc_channel.cpp:175-187 | After a delivery to a channel that is not open its packet is lost and nothing is sent any more, whatever comes. |
| RtcChannel.OpenChannelSendsEverything | src/rtc/rtc_channel.cpp:159-188 | From every reachable state of a loop that goes on, taking and sending until the queue is empty has sent everything enqueued, and every completely enqueued stream is collected whole. |
| RtcChannel.StoppedLoopDrainsAndEnds | src/rtc/rtc_channel.cpp:161-173 | Told to stop, the loop sends what is left and ends. |
| WebsocketService.WebsocketService.Connect | src/signaling/websocket_service.cpp:124-132 | Starts discovery or an attempt, whichever the configuration asks for. |
| WebsocketService.WebsocketService.StartDiscovery | src/signaling/websocket_service.cpp:150-186 | At most one discovery receive is started; a failing setup is a failure like any other. |
| WebsocketService.WebsocketService.OnDiscoveryReceive | src/signaling/websocket_service.cpp:205-233 | A beacon ends discovery and starts an attempt; anything else keeps listening; after discovery was stopped nothing happens. |
| WebsocketService.WebsocketService.Disconnect | src/signaling/websocket_service.cpp:235-257 | Stops for good: the timer is cancelled and discovery ends. |
| WebsocketService.WebsocketService.HandleFailure | src/signaling/websocket_service.cpp:259-270 | Only the first failure of a session schedules a reconnect, and none does after a disconnect. |
| WebsocketService.WebsocketService.ScheduleReconnect | src/signaling/websocket_service.cpp:272-317 | Tears the session down, chooses the delay and arms the timer. |
| WebsocketService.WebsocketService.OnReconnectTimer | src/signaling/websocket_service.cpp:304-316 | The timer clears the guard and connects, unless stopped. |
| WebsocketService.WebsocketService.OnResolve | src/signaling/websocket_service.cpp:319-334 | A resolved host is connected to, a failure handled. |
| WebsocketService.WebsocketService.OnConnect | src/signaling/websocket_service.cpp:336-389 | A connection goes on to the TLS or the WebSocket handshake, a failure is handled. |
| WebsocketService.WebsocketService.OnTlsHandshake | src/signaling/websocket_service.cpp:361-389 | A TLS session goes on to the WebSocket handshake, a failure is handled. |
| WebsocketService.WebsocketService.OnHandshake | src/signaling/websocket_service.cpp:391-405 | A handshake resets the backoff and starts reading. |
| WebsocketService.WebsocketService.OnRead | src/signaling/websocket_service.cpp:407-429 | A message is followed by the next read while the stream is open, a failure is handled. |
| WebsocketService.WebsocketService.OnWrite | src/signaling/websocket_service.cpp:575-603 | A failing write is handled like a failing read. |
| WebsocketService.DelayWithinThirtyPercent | src/signaling/websocket_service.cpp:294-302 | After k failures in a row the delay is within 30% of min(2^k, 8) seconds, for every k. |
| WebsocketService.NextKeeps | src/signaling/websocket_service.cpp:124-429 | Every handler keeps the invariant; a stopped service stays stopped and enters no connect. |
| WebsocketService.NeverStuckNeverDoubled | src/signaling/websocket_service.cpp:124-429 | In every reachable state that is not stopped exactly one of discovery receive, connection attempt, live session and armed timer exists, and every delay chosen so far kept its bound. |
| WebsocketService.NothingStartsAfterDisconnect | src/signaling/websocket_service.cpp:235-317 | Once stopping, whether by a call or by a leave message, neither Connect nor ResolveAndConnect is entered again and no timer is armed. |
| WebsocketService.StopsExactlyByDisconnecting | src/signaling/websocket_service.cpp:235-257 | The service begins to stop at exactly the disconnects, by call or by leave message, and these enter no connect. |
| ConnectionStages.StagesInOrder | src/signaling/websocket_service.cpp:124-405 | In every run a stage of an attempt is under way only when exactly the stages before it in the plan of the configuration have succeeded, in this order, since the attempt began. |
| ConnectionStages.NoSessionWithoutHandshakes | src/signaling/websocket_service.cpp:336-405 | With TLS no WebSocket handshake and no reading without a TLS handshake that succeeded after the connection was made; without TLS none is begun; no reading without a WebSocket handshake. |
| ConnectionStages.FailureArmsTimer | src/signaling/websocket_service.cpp:259-317 | Whatever fails on a live session or attempt leads to a reconnect unless the service is stopping. |
| ConnectionStages.LogTellsWhatHappened | src/signaling/websocket_service.cpp:259-405 | Exactly the successful handshakes reset the backoff, and a delay is chosen exactly when the timer is armed. |
| ConnectionStages.ReadingGoesOnWhileOpen | src/signaling/websocket_service.cpp:407-429 | A read that brought a message is followed by another exactly while the stream is open. |
| ConnectionStages.DelayIs | src/signaling/websocket_service.cpp:294-302 | The delay is the backoff of min(2^k, 8) seconds with the chosen percentage added. |
| UrlEncoding.UrlEncode | src/signaling/websocket_service.cpp:16-31 | The loop computes the percent-encoding of every byte string. |
| UrlEncoding.DecodedEncoded | src/signaling/websocket_service.cpp:16-31 | Percent-decoding recovers the value. |
| UrlEncoding.EncodedIsWellEncoded | src/signaling/websocket_service.cpp:22-29 | Only the unreserved characters of section 2.3 of RFC 3986 and the triplets of section 2.1 occur. |
| UrlEncoding.UnreservedStaysAsItIs | src/signaling/websocket_service.cpp:22-29 | Exactly the values of unreserved characters stay as they are. |
| UrlEncoding.TripletsAreUpperCase | src/signaling/websocket_service.cpp:22-29 | Triplets use upper-case digits. |
| UrlEncoding.BuildWebSocketTarget | src/signaling/websocket_service.cpp:33-49 | The loop puts the parameters behind the path with one '?' and '&' only between them, for any keys and values. |
| UrlEncoding.TargetReadsBack | src/signaling/websocket_service.cpp:16-49 | Splitting a target at '?', '&' and '=' and decoding returns the path and all parameters, for all values, if and only if the path has no '?' and the keys have neither '=' nor '&'. |
| UrlEncoding.SeparatorInKeyIsLost | src/signaling/websocket_service.cpp:33-49 | A target with the key a=b does not read back. |
| UrlEncoding.UnreservedKeysReadBack | src/signaling/websocket_service.cpp:33-49 | Keys of unreserved characters, as the service uses, read back. |
| MqttService.TopicReadsBack | src/signaling/mqtt_service.cpp:263-286 | For every uid, type and non-empty slash-free client the printed topic parses to this type and client. |
| MqttService.OnlyPrintedTopicsParse | src/signaling/mqtt_service.cpp:382-415 | A topic names a client only if it is the printed topic of that client, or continues it after a slash. |
| MqttService.MqttService.OnMessage | src/signaling/mqtt_service.cpp:200-261 | A message is handed to its client's peer, made first when there is none; malformed ones change nothing. |
| MqttService.MqttService.OnLocalSdp | src/signaling/mqtt_service.cpp:64-86 | An offer or answer is published for a known peer, anything else is not. |
| MqttService.MqttService.OnLocalIce | src/signaling/mqtt_service.cpp:88-107 | A candidate is published for a known peer. |
| MqttService.MqttService.RefreshPeerMap | src/signaling/mqtt_service.cpp:288-322 | The erasing walk forgets exactly the unconnected peers and their clients from the peer map and from both index maps, which stay consistent; the others keep their entries. |
| MqttService.IndexIsConsistent | src/signaling/mqtt_service.cpp:200-322 | In every reachable state the two maps are inverse to each other and cover exactly the peer map. |
| MqttService.RefreshRemovesUnconnected | src/signaling/mqtt_service.cpp:288-322 | Exactly the unconnected peers and their clients go, the others keep their entries. |
| MqttService.RepliesReachTheCreator | src/signaling/mqtt_service.cpp:64-107 | What a peer says is published once, under a topic that parses to its type and to the client the peer was made for; for a removed peer nothing is published. |
| MqttService.LocalsGoToTheirTopics | src/signaling/mqtt_service.cpp:64-107 | In every reachable state an offer, answer or candidate of a known peer is published once, on uid/offer, uid/answer or uid/ice with the client it was made for, and anything else nowhere. |
| MqttService.JunkChangesNothing | src/signaling/mqtt_service.cpp:200-231 | A message that cannot be read, or whose topic names no client, changes nothing. |
| MqttService.MessagesReachTheClientsPeer | src/signaling/mqtt_service.cpp:213-260 | A message on a printed topic reaches that client's peer, the known one or a new one made for it. |
| MqttService.WithPeerKeeps | src/signaling/signaling_service.h:22-41 | Adding a fresh peer to the peer map and to both maps keeps them consistent. |
| V4L2Codec.V4L2Codec.PrepareOutput | src/codecs/v4l2/v4l2_codec.cpp:71-74 | The loop offers all indices to the queue, which keeps the first eight. |
| V4L2Codec.V4L2Codec.EmplaceBuffer | src/codecs/v4l2/v4l2_codec.cpp:126-151 | An uninterrupted call is the sequence of its atomic steps, with or without a free index, with or without a failing ioctl. |
| V4L2Codec.V4L2Codec.CaptureBuffer | src/codecs/v4l2/v4l2_codec.cpp:153-226 | An uninterrupted iteration is the sequence of its atomic steps for every outcome of its ioctls. |
| V4L2Codec.V4L2Codec.RunTask | src/codecs/v4l2/v4l2_codec.cpp:209-217 | The first waiting callback, if any, runs on the captured frame, and the capture buffer is queued again. |
| V4L2Codec.CaptureDeliversOne | src/codecs/v4l2/v4l2_codec.cpp:153-226 | With an output, a frame, no abort and a waiting callback exactly one pair is delivered, the first callback with this frame; otherwise none, and the output is given back. |
| V4L2Codec.PreparedConserves | src/codecs/v4l2/v4l2_codec.cpp:71-74 | No index is rejected at preparation if and only if there are at most 8. |
| V4L2Codec.NineBuffersDropOne | src/codecs/v4l2/v4l2_codec.cpp:71-74 | Of nine buffers the last index is rejected. |
| V4L2Codec.NextConserves | src/codecs/v4l2/v4l2_codec.cpp:126-218 | Every atomic step of any thread keeps every usable index in exactly one place, and no push of an index is rejected. |
| V4L2Codec.EveryRunIsSafe | src/codecs/v4l2/v4l2_codec.cpp:126-218 | Under every interleaving and all failures the free, held and driver-owned indices are a partition, and callbacks run in the order they were accepted, at most once. |
| V4L2Codec.QueuedIsWhatTheDriverAccepted | src/codecs/v4l2/v4l2_codec.cpp:126-218 | In every run the queued jobs are those whose buffers the driver accepted and the captured frames those it handed out, in order. |
| V4L2Codec.EachCallbackGetsItsOwnFrame | src/codecs/v4l2/v4l2_codec.cpp:126-218 | With fewer than 8 buffers, uninterrupted submissions and a device that answers in order, no callback is lost and each gets the frame of its own job. |
| V4L2Codec.EightBuffersLoseACallback | src/codecs/v4l2/v4l2_codec.cpp:126-218 | From 8 buffers on such a run can lose a callback. |
| CodecOverlaps.LateCallbackGetsALaterFrame | src/codecs/v4l2/v4l2_codec.cpp:143-150 | With any number of buffers from one on and a device that answers in order: when the worker finishes a frame before its callback is queued, that callback gets the frame of a later job. |
| CodecOverlaps.MatchesExactlyWhenNoneIsLate | src/codecs/v4l2/v4l2_codec.cpp:126-218 | With fewer than 8 buffers, submissions that do not overlap each other and a device that answers in order, every callback so far got the frame of its own job if and only if none ran after the worker had found the callback queue empty. |
| JetsonScaler.JetsonScaler.Initialize | src/codecs/jetson/jetson_scaler.cpp:55-71 | The free queue holds exactly the buffers allocated before the first failure. |
| JetsonScaler.AllocatedBeforeFailure | src/codecs/jetson/jetson_scaler.cpp:55-71 | The buffers allocated are those before the first failure, or all. |
| JetsonScaler.JetsonScaler.EmplaceBuffer | src/codecs/jetson/jetson_scaler.cpp:83-116 | An uninterrupted call is the sequence of its atomic steps; after an abort it does nothing. |
| JetsonScaler.JetsonScaler.CaptureBuffer | src/codecs/jetson/jetson_scaler.cpp:118-122 | The worker takes the first task, if there is one. |
| JetsonScaler.JetsonScaler.FinishCallback | src/codecs/jetson/jetson_scaler.cpp:106-113 | A callback gives its buffer back at its end. |
| JetsonScaler.JetsonScaler.Destroy | src/codecs/jetson/jetson_scaler.cpp:22-40 | The two draining loops destroy the free buffers and then those of the waiting tasks. |
| JetsonScaler.NextKeeps | src/codecs/jetson/jetson_scaler.cpp:83-122 | Every step moves a buffer from one place to another, and no push into either queue is rejected. |
| JetsonScaler.EveryRunKeeps | src/codecs/jetson/jetson_scaler.cpp:83-122 | Under every interleaving the allocated buffers are partitioned among free queue, transforms, tasks and callback. |
| JetsonScaler.CallbacksGetImages | src/codecs/jetson/jetson_scaler.cpp:83-122 | In every run only buffers into which a transform succeeded reach a callback. |
| JetsonScaler.CallbacksKeepTheOrder | src/codecs/jetson/jetson_scaler.cpp:83-122 | In every run callbacks are started in the order in which their tasks were pushed, each once. |
| JetsonScaler.EveryTaskIsFinished | src/codecs/jetson/jetson_scaler.cpp:106-122 | One callback after the other finishes all waiting tasks and gives their buffers back in order. |
| JetsonScaler.EachFdIsDestroyedOnce | src/codecs/jetson/jetson_scaler.cpp:22-71 | After any run, also one after a partly failed initialization, the destructor destroys every allocated buffer exactly once and nothing else. |
| V4L2Capturer.V4L2Capturer.Create | src/capturer/v4l2_capturer.cpp:26-49 | A passive capturer touches nothing; an active one captures or the process has exited. |
| V4L2Capturer.V4L2Capturer.Initialize | src/capturer/v4l2_capturer.cpp:94-198 | Success leaves the device open, every recoverable failure leaves it closed. |
| V4L2Capturer.V4L2Capturer.InitializePatiently | src/capturer/v4l2_capturer.cpp:41-46 | After any number of recoverable failures the device is open, or the process has exited; the waits in between are one per failure, as listed. |
| V4L2Capturer.WaitsAre | src/capturer/v4l2_capturer.cpp:41-46 | Wait i is the i-th backoff, between 2 and 30 seconds, for every number of failures. |
| V4L2Capturer.BackoffDoublesUpToThirty | src/capturer/v4l2_capturer.cpp:41-46 | The backoff is 2, 4, 8, 16 and from then on 30 seconds. |
| V4L2Capturer.V4L2Capturer.AllocateBuffer | src/common/v4l2_utils.cpp:322-351 | Exactly the buffers before the first failure are mapped. |
| V4L2Capturer.V4L2Capturer.QueueBuffers | src/common/v4l2_utils.cpp:122-130 | The loop queues one buffer after the other up to the first that is refused. |
| V4L2Capturer.V4L2Capturer.StartStreaming | src/capturer/v4l2_capturer.cpp:633-656 | The worker starts only when all buffers were queued, otherwise the process exits. |
| V4L2Capturer.V4L2Capturer.StartCapture | src/capturer/v4l2_capturer.cpp:658-673 | A first start allocates and streams; a second changes nothing. |
| V4L2Capturer.V4L2Capturer.StopCapture | src/capturer/v4l2_capturer.cpp:675-698 | A pause takes all buffers back from the driver and keeps them mapped. |
| V4L2Capturer.V4L2Capturer.ResumeCapture | src/capturer/v4l2_capturer.cpp:700-732 | A resume allocates only on first activation and streams; a running capturer is left alone. |
| V4L2Capturer.V4L2Capturer.CaptureImage | src/capturer/v4l2_capturer.cpp:309-458 | Every path of an iteration: failures, corrupt frames, frames before the first keyframe, delivered frames. |
| V4L2Capturer.V4L2Capturer.HandleCaptureFailure | src/capturer/v4l2_capturer.cpp:460-480 | A gone device ends the process at once, a stuck one after 25 failures. |
| V4L2Capturer.V4L2Capturer.Destroy | src/capturer/v4l2_capturer.cpp:72-85 | Everything is unmapped and the device closed, if it was open; from any reachable state nothing stays mapped, queued or open. |
| V4L2Capturer.EveryRunKeeps | src/capturer/v4l2_capturer.cpp:633-732 | After active or passive creation and any steps: the worker runs iff capturing; an open device has all buffers mapped by one allocation; each buffer is queued or was refused while capturing, and none is queued otherwise. |
| V4L2Capturer.StreamingQueuesAll | src/capturer/v4l2_capturer.cpp:633-641 | From an empty queue all buffers are queued and the worker starts, unless the driver refuses one; then the process exits. |
| V4L2Capturer.ResumeFindsNothingQueued | src/capturer/v4l2_capturer.cpp:700-732 | Every resume of a run finds no buffer queued, and ends with all queued unless an allocation or the driver fails. |
| V4L2Capturer.EachFrameIsRequeuedOnce | src/capturer/v4l2_capturer.cpp:340-458 | Every path that dequeues a buffer queues this buffer again exactly once; the others queue nothing. |
| V4L2Capturer.AllQueuedBetweenIterations | src/capturer/v4l2_capturer.cpp:309-458 | If no queueing fails the driver owns all buffers between any two iterations. |
| V4L2Capturer.MappedUntilDestruction | src/capturer/v4l2_capturer.cpp:684-725 | Buffers are allocated at most once and stay mapped over every pause and resume. |
| V4L2Capturer.NothingBeforeAKeyframe | src/capturer/v4l2_capturer.cpp:411-421 | Of a hardware-decoded H.264 stream nothing is delivered unless a keyframe has come since the last pause. |
| V4L2Capturer.EveryGoodFrameIsDelivered | src/capturer/v4l2_capturer.cpp:309-458 | In every run each good frame is delivered, unless the stream is H.264 decoded in hardware and no keyframe has come since the last pause; nothing else is delivered. |
| V4L2Capturer.DestructionReleasesAll | src/capturer/v4l2_capturer.cpp:72-85 | After the destructor nothing is mapped, queued or open, from any reachable state. |
| V4L2Capturer.GivesUpAfterTwentyFive | src/capturer/v4l2_capturer.cpp:474-479 | The process gives up exactly after 25 failures without a frame or a pause in between. |
| V4L2Capturer.ExitsExactlyWhenGoneOrStuck | src/capturer/v4l2_capturer.cpp:460-480 | Over every run an iteration ends the process exactly when it fails and the device is gone, or it is the 25th failure in a row, not counting interruptions, since the last frame or pause. |
| V4L2Capturer.StopEndsCapturing | src/capturer/v4l2_capturer.cpp:675-698 | A stop always ends capturing and the worker; a passive capturer has touched nothing; an active one captures unless the process has exited. |

## Left out

- The fonts are parameters: nothing depends on the bitmaps. The clock stores glyph rows with the leftmost column in the highest bit, the overlay in the lowest; both are given leftmost column first.
- Overlay drawing on frames of odd width, where the box loop leaves the row; and overflow of `int` by extreme offsets or text lengths.
- The clock's blending glyph writers, which nothing calls with an alpha below 255, and reading the time of day.
- Creating the default style file, and the inotify loop that decides when to rescan.
- std::sort is modelled as an insertion sort; with a strict total order every sort gives the same result.
- Audio recording, preview images and stream parameters; packets are their key flag.
- Recording times are integers of microseconds where the source divides into a double; a rotation and a command from another thread are not interleaved.
- ParsingJoinedFiles: for texts without NUL of at most 1023 bytes together, because the parser reads no more of a file.
- NothingLinesChangeNothing: for a line without NUL and a file of at most 1023 bytes with it, because a longer file, or one with a NUL, is cut off elsewhere when a line is put in.
- FindOlderFiles: for a first date folder whose name is no calendar date, the date folder that the C library computes as the one before it is a parameter.
- A null or shorter-than-announced H.264 buffer.
- File system exceptions, files that change while they are listed, other kinds of directory entries, and dates before the year 1000.
- Time zones: the previous date is computed on the calendar.
- FindFilesFromDatetime and FindLatestCompleteFile, which use the same helpers.
- Files that shrink or grow while they are sent, and serialization of packets; stream ids are distinct by assumption.
- WebSocket messages other than leave, pings, and the delivery of queued writes over a reconnect. Operations of a torn-down session are assumed to complete before the backoff timer fires.
- TLS certificates and names: a failure to set the peer name is a failing connection.
- MQTT connection handling, JSON parsing, and peers whose creation fails: the source dereferences the null peer.
- Capture buffers of the codec, device events, and shutting down while a call of EmplaceBuffer is in progress.
- Failures of STREAMOFF, which the source ignores; frame contents and statistics of the capturer; pinning interrupts.
- HTTP signalling, the Unix socket server, plugins, libcamera, Argus, audio capture and option parsing.
