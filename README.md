# BespokeSynth sample player and grid controller, modelled in Dafny

This project models two modules of the BespokeSynth modular synthesiser.

**The sample player** (`Source/SamplePlayer.cpp`) plays a loaded sample from cue points:
- **Cue table.** A table of (start, length, speed) cue points indexed by MIDI pitch.
- **Transport.** A play/pause/stop state machine that drives the loaded `Sample`, an ADSR envelope and a per-channel declick carry.
- **Audio block.** Each block fills the work buffer, declicks it and mixes it into the target.
- **Background job.** A helper process searches for or downloads clips. Its result files are parsed and merged into a de-duplicated result list, and a one-shot callback runs when it exits.
- **Sample swap.** Installs a new sample and deletes the old one according to the ownership flag.
- **Saved state.** The cue section of the player's saved state.

**The grid controller** (`Source/GridController.cpp`) keeps a fixed-capacity table of control ids, input values and light values, indexed by column and row. It:
- fills the control ids from a row-major layout;
- routes input to the first cell that holds a control id;
- quantises light colours to the device's colour list;
- sends a light only when it changes or when the send is forced.

**Modules:**
- `Outcomes`: `Option` and `Result`.
- `CueTable`: the cue table as a value, and the C++ comparison of a signed pitch with an unsigned size.
- `Declick`: one declick step and its iteration, over reals.
- `SearchResults`: result file names (remove the `.info.json` suffix, split on `#`), and the merge into the result list.
- `Collaborators`: the opaque collaborators (`Audio`, the `Sample` object, envelope calls, the audio clock).
- `SavedState`: the token stream written by `SaveState` and read by `LoadState`.
- `SamplePlayerEngine`: the class `SamplePlayer`, whose fields are the player's member variables.
- `GridControl`: the class `GridController`, whose `array2` fields are `mControls`, `mInput` and `mLights`.

**How collaborators are modelled:**
- Outbound MIDI sends and listener notifications are an appended event log.
- Calls on the envelope are a log of `Cleared`, `Started` and `Stopped` entries.
- The global time, the sample rate and the block size are a `Clock` parameter.
- The helper process is the flags `hasProcess`/`jobKind`, a log of launched requests and a count of killed jobs.
- What the process leaves on disk (the listing of result files, the converted download) is passed to `Poll` as parameters.

## Model

| member | source | states |
|---|---|---|
| CueTable.UnsignedCompareIsRangeCheck | Source/SamplePlayer.cpp:647 | comparing an `int` pitch with the table's `size_t` size succeeds exactly when 0 <= pitch < size, so a negative pitch fails the test |
| CueTable.PlayInfoForPitch | Source/SamplePlayer.cpp:645-659 | an in-range pitch yields the stored cue; every other pitch, negative ones included, yields (0, 0, 1) |
| CueTable.WithCuePoint | Source/SamplePlayer.cpp:661-669 | only entry `pitch` changes, to the new cue; the length of the table never changes |
| CueTable.PlayInfoAfterSetCuePoint | Source/SamplePlayer.cpp:645-669 | after SetCuePoint(p), GetPlayInfoForPitch(q) returns the new cue when q == p and p is in range, and otherwise what it returned before |
| CueTable.SetCuePointOutOfRange | Source/SamplePlayer.cpp:663 | an out-of-range or negative pitch leaves the table unchanged |
| SamplePlayerEngine.SamplePlayer.SetCuePoint | Source/SamplePlayer.cpp:661-669 | the player's table becomes WithCuePoint of the old table |
| Declick.DecayStep | Source/SamplePlayer.cpp:282-284 | one step multiplies by 0.999 and snaps to zero inside ±0.0001; the magnitude never grows, 0 stays 0, and a nonzero result is at least 0.0001 in magnitude |
| Declick.DecayNeverGrows | Source/SamplePlayer.cpp:279-285 | after any number of steps the carry's magnitude is no larger than at the start |
| Declick.ZeroStaysZero | Source/SamplePlayer.cpp:283-284 | once the carry has snapped to 0 it stays 0 |
| Declick.DecayBound | Source/SamplePlayer.cpp:282-284 | after n steps, \|carry\| * (1 + n/1000) is at most the starting magnitude |
| Declick.ReachesZero | Source/SamplePlayer.cpp:279-285 | the carry is exactly 0 after 10^7 * \|c\| samples at most |
| SamplePlayerEngine.SamplePlayer.SwitchAndRamp | Source/SamplePlayer.cpp:335-339 | the carry of every active channel becomes that channel's last output sample; other slots are kept |
| SamplePlayerEngine.TriggerStopsOnlyForPositiveLength | Source/SamplePlayer.cpp:328-331 | a trigger stops the envelope exactly when the cue's length is positive, and then at time + length·1000 |
| SamplePlayerEngine.SamplePlayer.PlayCuePoint | Source/SamplePlayer.cpp:321-333 | seeks to the cue's start relative to the block time, plays at the cue's speed, records Clear, Start(time, velocity/127) and, for a positive length, Stop, then captures the carry |
| SamplePlayerEngine.SamplePlayer.PlayNote | Source/SamplePlayer.cpp:303-319 | a disabled player ignores the note; "select played" remembers the pitch; a note outside the frame is queued; a note-on with a sample triggers its cue |
| SamplePlayerEngine.SamplePlayer.ButtonClicked | Source/SamplePlayer.cpp:422-465 | with a sample: play restarts the envelope at the next block; pause stops in place; stop stops and rewinds; pause and stop capture the carry. The clip button and a filled result slot start a download (a result slot then clears the list). Play-cue triggers the active cue only when a sample is loaded |
| SamplePlayerEngine.SamplePlayer.StartDownload | Source/SamplePlayer.cpp:488-519 | stops playback and rewinds the sample; any running job is killed and a download job with its completion callback replaces it |
| SamplePlayerEngine.SamplePlayer.StartSearch | Source/SamplePlayer.cpp:537-559 | clears the results; any running job is killed and a search job with its completion callback replaces it |
| SamplePlayerEngine.SamplePlayer.UpdateSample | Source/SamplePlayer.cpp:393-420 | the new sample is installed, rewound, and given the player's loop and speed; volume 1, not playing, zoom reset, error cleared, loading flag set; the previous sample is deleted exactly when the NEW ownership flag is set |
| SamplePlayerEngine.SamplePlayer.InstallSample | Source/SamplePlayer.cpp:404-414 | the part of UpdateSample before the release: the new sample is rewound, takes the player's loop and speed, and is installed; volume, play flag, ownership flag, zoom and error string are reset |
| SamplePlayerEngine.SamplePlayer.RunCompletion | Source/SamplePlayer.cpp:521-535 | a finished download installs the converted sample under its title, owned; a missing file installs an empty owned sample and sets the error message; a finished search with no results sets "zero results found for " + term |
| SearchResults.RemoveSuffix | Source/SamplePlayer.cpp:177 | removing every occurrence of a suffix that cannot overlap itself, such as ".info.json", gives back any stem in which the suffix does not occur |
| SearchResults.JoinSplit | Source/SamplePlayer.cpp:178 | splitting on '#' loses nothing: joining the tokens with '#' gives the string back |
| SearchResults.SplitJoin | Source/SamplePlayer.cpp:178 | splitting tokens joined by '#' gives the tokens back, when no token contains '#' |
| SearchResults.SplitCount | Source/SamplePlayer.cpp:178-179 | splitting on '#' gives one more token than there are '#', so "at least three tokens" means "at least two '#'" |
| SearchResults.ConcatSplit | Source/SamplePlayer.cpp:192-194 | concatenating the split tokens is the string with every '#' removed |
| SearchResults.ParseResultFileName | Source/SamplePlayer.cpp:176-197 | a result exists exactly when the name without ".info.json" has at least two '#' (three tokens); its id and length text contain no '#' |
| SearchResults.ParsedNameDropsDelimiters | Source/SamplePlayer.cpp:192-195 | the parsed name contains no '#' |
| SearchResults.ParseWrittenName | Source/SamplePlayer.cpp:176-197 | a file named title#length#id.info.json, as the search writes it, parses back to the title without '#', that length text and that id, whenever ".info.json" does not occur in title#length#id (titles may contain '.') |
| SearchResults.ContainsId | Source/SamplePlayer.cpp:183-188 | the scan for an existing id answers exactly whether some result has that id |
| SearchResults.MergeExtends | Source/SamplePlayer.cpp:183-198 | existing results are never modified, removed or reordered; the list only grows |
| SearchResults.MergeKeepsIdsUnique | Source/SamplePlayer.cpp:183-198 | if no two results share an id before the merge, none do after it |
| SearchResults.MergeFindsEveryId | Source/SamplePlayer.cpp:174-201 | every id that parses from a listed file is in the list after the merge |
| SearchResults.MergeAddsOnlyParsed | Source/SamplePlayer.cpp:189-198 | every appended entry is the parse of some listed file |
| SearchResults.FirstOccurrenceWins | Source/SamplePlayer.cpp:183-198 | among files that bring the same new id, the first one's entry is the one kept |
| SamplePlayerEngine.SamplePlayer.MergeSearchResults | Source/SamplePlayer.cpp:174-201 | the loop leaves the result list equal to Merge of the old list and the listing |
| SamplePlayerEngine.SamplePlayer.TakeRecentPlayedCue | Source/SamplePlayer.cpp:216-226 | the recent-played cue is consumed (reset to -1) and becomes the active cue only when it indexes the table |
| SamplePlayerEngine.SamplePlayer.PollJob | Source/SamplePlayer.cpp:149-214 | while a search runs and the listing's size differs from the list's, the listing is merged; an exited process is dropped and its completion callback runs once |
| SamplePlayerEngine.SamplePlayer.FinishJob | Source/SamplePlayer.cpp:206-213 | an exited process is dropped and its completion callback runs; otherwise nothing changes |
| SamplePlayerEngine.SamplePlayer.Poll | Source/SamplePlayer.cpp:132-227 | PollJob then TakeRecentPlayedCue, with both contracts |
| SamplePlayerEngine.SamplePlayer.SetCuePointForPosition | Source/SamplePlayer.cpp:626-630 | the active cue starts at the position in seconds and takes the current speed; its length and every other cue are kept |
| SamplePlayerEngine.TruncateToInt | Source/SamplePlayer.cpp:602 | C++ `int(x)` truncates toward zero |
| SamplePlayerEngine.SamplePlayer.OnClicked | Source/SamplePlayer.cpp:586-608 | a left click in the waveform band with a sample and no results showing captures the carry, plays, restarts the envelope, seeks to the truncated position, starts a scrub and, if enabled, marks the active cue; every other click changes nothing in the transport |
| SamplePlayerEngine.SamplePlayer.MouseMoved | Source/SamplePlayer.cpp:610-624 | while scrubbing with a sample, a move captures the carry, seeks, restarts the envelope and, if enabled, marks the active cue; the play flag is untouched |
| SamplePlayerEngine.SamplePlayer.MouseReleased | Source/SamplePlayer.cpp:632-636 | the scrub ends |
| SamplePlayerEngine.SamplePlayer.AddCarry | Source/SamplePlayer.cpp:279-285 | sample i of a channel's row gains the carry after i decay steps; the carry ends after one step per sample |
| SamplePlayerEngine.SamplePlayer.MixRow | Source/SamplePlayer.cpp:287 | the channel's row is added into the target; other channels are kept |
| SamplePlayerEngine.SamplePlayer.DeclickChannel | Source/SamplePlayer.cpp:279-289 | one channel is declicked and mixed, and its last output sample is remembered; other channels are untouched |
| SamplePlayerEngine.SamplePlayer.DeclickBlock | Source/SamplePlayer.cpp:277-290 | the same for every active channel; inactive channels are untouched |
| SamplePlayerEngine.SamplePlayer.FillBlock | Source/SamplePlayer.cpp:262-275 | the active rows take the data the sample delivered, or silence |
| SamplePlayerEngine.SamplePlayer.Process | Source/SamplePlayer.cpp:229-291 | disabled, or without a target or sample, it changes nothing. Otherwise, when not playing or when the sample has no data, the block is silence plus the decaying carry, play becomes false and the envelope is stopped at `time`. The target gains the block, and carry and last output follow DecayN. While playing, the only change to the sample is its rate, which takes the player's speed |
| SamplePlayerEngine.SamplePlayer.SaveState | Source/SamplePlayer.cpp:990-1008 | writes the base state, revision 1, the has-sample flag and sample, the cue count, then each cue's start, length and speed in index order |
| SavedState.EncodeCuesAt | Source/SamplePlayer.cpp:1002-1007 | cue k's start, length and speed sit at positions 3k, 3k+1, 3k+2 of the cue section |
| SavedState.DecodeHeader | Source/SamplePlayer.cpp:1012-1025 | a decoded header never has a revision above 1 and never reads past the stream |
| SavedState.DecodeEncodedCues | Source/SamplePlayer.cpp:1001-1037 | the cue section written for a table reads back as that table, with the rest of the stream untouched |
| SavedState.SaveLoadRoundTrip | Source/SamplePlayer.cpp:990-1039 | decoding what SaveState writes, followed by anything, gives back the base state, revision 1, the sample, the cue table and the rest |
| SavedState.RejectsNewerRevision | Source/SamplePlayer.cpp:1014-1016 | a revision above 1 is rejected before anything else is read |
| SavedState.OldRevisionHasNoCues | Source/SamplePlayer.cpp:1027 | a revision-0 stream has no cue section: the table is left as it is and the rest follows the sample |
| SamplePlayerEngine.SamplePlayer.LoadState | Source/SamplePlayer.cpp:1010-1039 | the outcome is the decoder's remainder; a saved sample is installed as by UpdateSample(owned); the cue table becomes the decoded one when a cue section was read, and is otherwise kept |
| SamplePlayerEngine.SamplePlayer.ReadCueSection | Source/SamplePlayer.cpp:1029-1037 | the table is resized to the saved count and every cue is read in index order, matching DecodeCueSection |
| SamplePlayerEngine.SamplePlayer.ButtonClickedAsWritten | Source/SamplePlayer.cpp:422-465 | the handler as written: the same transport, clip and result-slot effects as ButtonClicked (both ensure OtherButtonHandled), and play-cue triggers the active cue whether or not a sample is loaded, so it can run only when play-cue comes with a sample |
| SamplePlayerEngine.PlayCueOnFreshPlayerAsWritten | Source/SamplePlayer.cpp:463-464 | a player fresh from its constructor has no sample, so the as-written play-cue branch has no sample to go through |
| GridControl.RowMajorIndexInRange | Source/GridController.cpp:274-275 | the row-major index col + row·cols of a cell inside the layout is inside the layout's control list |
| GridControl.RowMajorIndexInjective | Source/GridController.cpp:274-275 | different cells read different entries of the layout |
| GridControl.GridController.SetUp | Source/GridController.cpp:266-291 | rows and cols become the layout's; every cell in range takes layout.controls[col + row·cols] and the others are kept; the colour list is exactly [0, 127]; the message type is the layout's and the controller is the one given |
| GridControl.GridController.FillControls | Source/GridController.cpp:270-277 | the nested row/column loop writes exactly the cells of the layout |
| GridControl.NewForLayout | Source/GridController.cpp:266-291 | a controller built with zeroed tables and then set up from a layout has the layout's size, cells, message type and colours, every light in the layout off, no events sent, and 20 pixels per column and row |
| GridControl.GridController.FindControl | Source/GridController.cpp:121-136 | finds the first cell holding the control id, columns outer and rows inner, or reports that no cell in the layout holds it |
| GridControl.GridController.OnInput | Source/GridController.cpp:119-151 | only the first matching cell's input changes, listeners are told, and the history records whether any input is held; with no match nothing changes |
| GridControl.GridController.HasInput | Source/GridController.cpp:153-167 | true exactly when some cell inside cols×rows has input > 0 |
| GridControl.GridController.OnClicked | Source/GridController.cpp:169-179 | a click with y > 0 feeds input 1 to the clicked cell's control and remembers the cell; any other click changes nothing |
| GridControl.GridController.MouseReleased | Source/GridController.cpp:181-191 | input 0 goes to the same cell's control only if a click was fed in; the click flag always ends false |
| GridControl.QuantizeColor | Source/GridController.cpp:198-209 | the step-back-by-two loop computes QuantizedColorIndex |
| GridControl.QuantizedColorIndex | Source/GridController.cpp:198-209 | the index is in range, an index already in range is kept, a stepped index is never 0 and, with three or more colours, keeps its parity (dim or bright), so a non-off colour never becomes off |
| GridControl.GridController.RawColor | Source/GridController.cpp:198-209 | no colour list gives 0; with the installed colours, off gives 0 and every other colour gives 127 |
| GridControl.GridController.SetLight | Source/GridController.cpp:193-212 | a cell outside cols×rows is ignored; otherwise the quantised raw colour is set directly |
| GridControl.GridController.LightMessages | Source/GridController.cpp:221-227 | a light is sent as a note or a controller change on the current page, and only when a controller is attached |
| GridControl.GridController.SetLightDirect | Source/GridController.cpp:214-231 | an unforced write of the stored value changes and sends nothing; otherwise only that light changes, to `color`, and its message is sent |
| GridControl.GridController.ResetLights | Source/GridController.cpp:233-243 | every light inside cols×rows holds the off raw colour (colours[0], or 0 without colours); lights outside are kept; the new events are exactly ResetMessages of the grid before the call: column by column, row by row, the off value sent to the control of each cell whose light was not already off |
| GridControl.GridController.ResetMessagesSendOff | Source/GridController.cpp:233-243 | every message a reset sends is a note or a controller change carrying the off value |
| GridControl.GridController.ColumnResetsSendOff | Source/GridController.cpp:237-241 | every message the reset of one column sends is a note or a controller change carrying the off value |
| GridControl.GridController.DarkGridSendsNothing | Source/GridController.cpp:214-243 | resetting a layout whose lights are all off already sends nothing, because SetLight skips a light that already holds the colour |
| GridControl.GridController.DarkColumnSendsNothing | Source/GridController.cpp:214-241 | a column whose lights are all off already sends nothing |
| GridControl.GridController.LitCellsAreSent | Source/GridController.cpp:214-241 | with a controller attached and notes or controller changes chosen, a column sends exactly one message per light that was on |
| GridControl.GridController.ModuleDimensions | Source/GridController.cpp:260-264 | width and height are 20 pixels per column and per row |

## Left out

- Drawing and UI construction, and the zoom, scroll and spinner geometry. The mouse's play position (`GetPlayPositionForMouse`) is a parameter.
- The clipboard: the clip id comes with the download button.
- Logging of the process output. Killing, starting and deleting the helper process is the launch log and kill count.
- File system scans and deletes, `FileChooser`, `LoadFile`, `FilesDropped`, `FillData` and `Sample::Read`. The result listing and the converted download are parameters.
- The envelope's own behaviour and the note input buffer's release of queued notes. Calls on the envelope and sends to the `MidiController` are logged.
- The grid's `UIGrid` display is not modelled. `SetLight` does not call `SetVal` on it, and `SetUp` does not call `SetGrid`; neither call is logged.
- SamplePlayerEngine.SamplePlayer.Process: the play head's advance by `ConsumeData` is not modelled. The sample's `position` is the last position set, so it does not move while playing.
- SamplePlayerEngine.SamplePlayer.Process: the speed blend and clamp of the OSC wheel, volume² and the per-sample envelope gain are not modelled. The delivered data (`consumed`) stands for the gained block, and the model writes the player's speed to the sample's rate.
- SearchResults.ParseResultFileName: `ofToFloat` of the length text is not modelled. A result keeps the length as the text of the file name (`lengthText`).
- SearchResults.ParseWrittenName: a title, length or id that contains ".info.json" loses that text too, because the suffix is removed everywhere in the name. The round trip is stated only for names in which ".info.json" does not occur before the suffix.
- Floating point is modelled as `real`: no rounding of 0.999·c or of the cue arithmetic.
- `SetCuePointForX` with an active cue index outside the table is undefined behaviour in C++. The model leaves the table unchanged.
- SamplePlayerEngine.SamplePlayer.SetCuePointForPosition: requires a nonzero sample rate times rate ratio. A float division by zero (infinity) is not modelled.
- A negative saved cue count makes `resize` fail in C++. The model reports `NegativeCueCount` instead.
- `LoadState` reads the cue section through the stream. The model checks that every cue's tokens are floats before it resizes the table, and reports `Malformed` otherwise.
- Concurrency between the audio callback and the poll thread, `gTime` and `gSampleRate`: these are parameters (`Clock`, `time`).
- Patch-cable wiring and listener discovery. One `ButtonNotified` event stands for the notification of every listener.
- The grid's `mHistory` is the `InputRecorded` event. The cell under the mouse (`GetGridCellAt`) is a parameter.
- GridControl.GridController.SetLight: requires x, y >= 0. A negative index is out of bounds in C++.
- GridControl.GridController.SetLight: colour lists other than none or the two that SetUp installs are not modelled. A one-entry list makes the step-back loop run past zero.
- `OnControllerPageSelected`, `LoadLayout`, `SaveLayout` and the JSON layout files are not part of this model.
- `Source/Selector.h` holds declarations only.
- SamplePlayerEngine.SamplePlayer.StartDownload: `DownloadYoutube` keeps earlier search results. Only the result-slot branch of `ButtonClicked` clears them, after the download starts.

## Findings

| source | as written | input that shows it | evidently intended | confidence | as-written member | corrected member |
|---|---|---|---|---|---|---|
| Source/SamplePlayer.cpp:463-464 | the play-cue branch of `ButtonClicked` sits outside the `if (mSample)` guard and calls `PlayCuePoint`, which calls through `mSample` | clicking "play current cue point" before any sample is loaded (`mSample == nullptr`) | trigger the cue only when a sample is loaded, as every other transport button does | not executed | SamplePlayerEngine.PlayCueOnFreshPlayerAsWritten | SamplePlayerEngine.SamplePlayer.ButtonClicked |
