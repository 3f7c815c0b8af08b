/**
 * The sample player's control logic: the play/stop state machine, the
 * declick carry, the cue table as the player holds it, the background
 * search/download job, the sample swap and the cue section of the saved state.
 */
module SamplePlayerEngine {
  import opened Outcomes
  import opened CueTable
  import opened Declick
  import opened SearchResults
  import opened Collaborators
  import opened SavedState

  /** The buttons whose clicks the player handles; a download button carries the id taken from the clipboard. */
  datatype Button =
    | PlayButton
    | PauseButton
    | StopButton
    | DownloadClipButton(clipId: string)
    | SearchResultButton(slot: nat)
    | PlayCueButton

  datatype JobKind = NoJob | SearchJob | DownloadJob

  /** The one-shot callback run when the helper process is seen to have exited. */
  datatype Completion = NoCompletion | DownloadDone(title: string) | SearchDone(term: string)

  /** A helper process launch, reduced to what it was asked to do. */
  datatype JobRequest = SearchRequest(term: string) | DownloadRequest(locator: string)

  const WatchUrl := "https://www.youtube.com/watch?v="
  const DownloadFailedMessage := "couldn't download sample. do you have youtube-dl and ffmpeg installed?"
  const NoResultsMessage := "zero results found for "
  const DefaultHeight := 170
  /** The waveform area that starts a scrub lies strictly between these offsets from the top and the bottom. */
  const ScrubTop := 60
  const ScrubBottomMargin := 20

  /** The C++ conversion `int(x)` of a float: truncation toward zero. */
  function TruncateToInt(x: real): (n: int)
    ensures x >= 0.0 ==> n as real <= x < n as real + 1.0
    ensures x < 0.0 ==> n as real - 1.0 < x <= n as real
  {
    if x >= 0.0 then x.Floor else -((-x).Floor)
  }

  /** The envelope calls of a trigger: restart, start at `scale`, and a forced stop only for a positive length. */
  function TriggerCalls(time: real, scale: real, lengthSeconds: real): seq<EnvelopeCall>
  {
    [Cleared, Started(time, scale)] + (if lengthSeconds > 0.0 then [Stopped(time + lengthSeconds * 1000.0)] else [])
  }

  /** A trigger stops the envelope exactly when its cue has a positive length, at the cue's end. */
  lemma TriggerStopsOnlyForPositiveLength(time: real, scale: real, lengthSeconds: real)
    ensures Stopped(time + lengthSeconds * 1000.0) in TriggerCalls(time, scale, lengthSeconds) <==> lengthSeconds > 0.0
    ensures forall t :: Stopped(t) in TriggerCalls(time, scale, lengthSeconds) ==> t == time + lengthSeconds * 1000.0
  {
    var calls := TriggerCalls(time, scale, lengthSeconds);
    if lengthSeconds > 0.0 {
      assert calls == [Cleared, Started(time, scale), Stopped(time + lengthSeconds * 1000.0)];
    } else {
      assert calls == [Cleared, Started(time, scale)];
    }
  }

  /** The time in seconds of a play position, in samples of `audio` at the clock's sample rate. */
  function SecondsAt(position: real, clock: Clock, audio: Audio): real
    requires clock.sampleRate * audio.sampleRateRatio != 0.0
  {
    position / (clock.sampleRate * audio.sampleRateRatio)
  }

  /** The cue table after "click sets cue point": the cue at `index`, when there is one, starts at `startSeconds` and takes `speed`. */
  function MarkedCues(cues: seq<CuePoint>, index: int32, startSeconds: real, speed: real): (r: seq<CuePoint>)
    ensures |r| == |cues|
    ensures forall k :: 0 <= k < |cues| && k != index as int ==> r[k] == cues[k]
    ensures 0 <= index as int < |cues| ==> r[index] == CuePoint(startSeconds, cues[index].lengthSeconds, speed)
    ensures !(0 <= index as int < |cues|) ==> r == cues
  {
    if 0 <= index as int < |cues| then cues[index := CuePoint(startSeconds, cues[index].lengthSeconds, speed)] else cues
  }

  /** std::vector::resize on the cue table: the first `n` entries are kept and new ones are default cues. */
  function Resized(cues: seq<CuePoint>, n: nat): (r: seq<CuePoint>)
    ensures |r| == n
    ensures forall k :: 0 <= k < n && k < |cues| ==> r[k] == cues[k]
    ensures forall k :: |cues| <= k < n ==> r[k] == DefaultPlayInfo
  {
    if n <= |cues| then cues[..n] else cues + seq(n - |cues|, _ => DefaultPlayInfo)
  }

  /** What LoadState hands back: the tokens after the player's section, or why the section was refused. */
  function Remainder(d: Result<Decoded, LoadError>): Result<seq<Token>, LoadError>
  {
    match d
    case Ok(v) => Ok(v.rest)
    case Err(e) => Err(e)
  }

  /** As written, a player fresh from its constructor has no sample, so "play cue" would reach PlayCuePoint without one. */
  method PlayCueOnFreshPlayerAsWritten(cueCount: nat, slots: nat, channels: nat) returns (p: SamplePlayer)
    requires cueCount <= Int32Max && channels >= 1
    ensures p.Valid() && p.sample == null
    ensures !p.CanClickAsWritten(PlayCueButton)
  {
    p := new SamplePlayer(cueCount, slots, channels);
  }

  class SamplePlayer {
    var enabled: bool
    var volume: real
    var speed: real
    var loop: bool
    var play: bool
    var sample: Sample?
    var ownsSample: bool
    var zoomLevel: real
    var zoomOffset: real
    var height: int
    var errorString: string
    var isLoadingSample: bool
    var scrubbing: bool

    var cues: seq<CuePoint>
    var activeCueIndex: int32
    var setCuePointOnClick: bool
    var selectPlayedCuePoint: bool
    var recentPlayedCuePoint: int32

    /** The calls made on the ADSR envelope, oldest first. */
    var envelope: seq<EnvelopeCall>
    /** Notes handed to the note input buffer for a later block. */
    var queuedNotes: seq<NoteEvent>

    var searchResults: seq<SearchResult>
    /** How many search-result buttons the panel has. */
    const resultSlots: nat
    var jobKind: JobKind
    var hasProcess: bool
    var completion: Completion
    var launched: seq<JobRequest>
    var killedJobs: nat

    /** The last output sample and the declick carry, one slot per channel. */
    const lastOutput: array<real>
    const carry: array<real>
    var activeChannels: nat

    predicate Valid()
      reads this
    {
      && lastOutput != carry
      && lastOutput.Length == carry.Length
      && activeChannels <= carry.Length
      && |cues| <= Int32Max
      && UniqueIds(searchResults)
      && (play ==> sample != null)
    }

    /** The cue table the player starts with has `cueCount` default entries; the channel buffers hold `channels` slots, one of them active. */
    constructor (cueCount: nat, slots: nat, channels: nat)
      requires cueCount <= Int32Max && channels >= 1
      ensures Valid()
      ensures enabled && volume == 1.0 && speed == 1.0 && !loop && !play && sample == null && !ownsSample
      ensures zoomLevel == 1.0 && zoomOffset == 0.0 && height == DefaultHeight && errorString == ""
      ensures !isLoadingSample && !scrubbing
      ensures cues == seq(cueCount, _ => DefaultPlayInfo) && activeCueIndex == 0
      ensures !setCuePointOnClick && !selectPlayedCuePoint && recentPlayedCuePoint == -1
      ensures envelope == [] && queuedNotes == [] && searchResults == [] && resultSlots == slots
      ensures jobKind == NoJob && !hasProcess && completion == NoCompletion && launched == [] && killedJobs == 0
      ensures lastOutput.Length == channels && activeChannels == 1
      ensures forall ch :: 0 <= ch < channels ==> lastOutput[ch] == 0.0 && carry[ch] == 0.0
      ensures fresh(lastOutput) && fresh(carry)
    {
      enabled := true;
      volume := 1.0;
      speed := 1.0;
      loop := false;
      play := false;
      sample := null;
      ownsSample := false;
      zoomLevel := 1.0;
      zoomOffset := 0.0;
      height := DefaultHeight;
      errorString := "";
      isLoadingSample := false;
      scrubbing := false;
      cues := seq(cueCount, _ => DefaultPlayInfo);
      activeCueIndex := 0;
      setCuePointOnClick := false;
      selectPlayedCuePoint := false;
      recentPlayedCuePoint := -1;
      envelope := [];
      queuedNotes := [];
      searchResults := [];
      resultSlots := slots;
      jobKind := NoJob;
      hasProcess := false;
      completion := NoCompletion;
      launched := [];
      killedJobs := 0;
      lastOutput := new real[channels](_ => 0.0);
      carry := new real[channels](_ => 0.0);
      activeChannels := 1;
    }

    /** The current sample as a frame: nothing when no sample is loaded. */
    function SampleObject(): set<object>
      reads this
    {
      if sample == null then {} else {sample}
    }

    /** The declick carry of every active channel now holds that channel's last output sample; the other slots are kept. */
    twostate predicate Ramped()
      reads this, carry, lastOutput
    {
      forall ch :: 0 <= ch < carry.Length ==>
        carry[ch] == (if ch < activeChannels && ch < lastOutput.Length then lastOutput[ch] else old(carry[ch]))
    }

    /** The effect of PlayCuePoint(time, index, velocity) on the sample, the envelope and the carry. */
    twostate predicate Triggered(clock: Clock, time: real, index: int32, velocity: int)
      reads this, sample, carry, lastOutput
    {
      && |cues| <= Int32Max
      && sample != null
      && sample == old(sample)
      && var info := PlayInfoForPitch(cues, index);
      && sample.position == ((clock.now - time) / 1000.0 + info.startSeconds) * clock.sampleRate * sample.audio.sampleRateRatio
      && play
      && speed == info.speed
      && envelope == old(envelope) + TriggerCalls(time, velocity as real / 127.0, info.lengthSeconds)
      && sample.OnlyPositionChanged()
      && Ramped()
    }

    /** Nothing the transport owns has changed: play flag, speed, envelope, play position and carry. */
    twostate predicate TransportKept()
      reads this, sample, carry
    {
      && play == old(play)
      && speed == old(speed)
      && envelope == old(envelope)
      && sample == old(sample)
      && (old(sample) != null ==> sample.position == old(sample.position) && sample.OnlyPositionChanged())
      && carry[..] == old(carry[..])
    }

    /** SetCuePoint: store a cue at `pitch` when it is inside the table. */
    method SetCuePoint(pitch: int32, startSeconds: real, lengthSeconds: real, speed: real)
      requires Valid()
      modifies this`cues
      ensures Valid()
      ensures cues == WithCuePoint(old(cues), pitch, CuePoint(startSeconds, lengthSeconds, speed))
    {
      if AsSizeT(pitch) < |cues| {
        cues := cues[pitch := CuePoint(startSeconds, lengthSeconds, speed)];
      }
    }

    /** SwitchAndRamp: capture every active channel's last output sample as its declick carry. */
    method SwitchAndRamp()
      requires Valid()
      modifies carry
      ensures Ramped()
    {
      for ch := 0 to activeChannels
        invariant forall c :: 0 <= c < ch ==> carry[c] == lastOutput[c]
        invariant forall c :: ch <= c < carry.Length ==> carry[c] == old(carry[c])
      {
        carry[ch] := lastOutput[ch];
      }
    }

    /** PlayCuePoint: seek to the cue of `index`, play at its speed, restart the envelope and capture the carry. */
    method PlayCuePoint(clock: Clock, time: real, index: int32, velocity: int)
      requires Valid() && sample != null
      modifies this`play, this`speed, this`envelope, sample`position, carry
      ensures Valid()
      ensures Triggered(clock, time, index, velocity)
    {
      var info := PlayInfoForPitch(cues, index);
      sample.position := ((clock.now - time) / 1000.0 + info.startSeconds) * clock.sampleRate * sample.audio.sampleRateRatio;
      play := true;
      speed := info.speed;
      envelope := envelope + [Cleared];
      envelope := envelope + [Started(time, velocity as real / 127.0)];
      if info.lengthSeconds > 0.0 {
        envelope := envelope + [Stopped(time + info.lengthSeconds * 1000.0)];
      }
      SwitchAndRamp();
    }

    /** PlayNote: remember the pitch for "select played", queue a note outside this block, trigger a sounding note. */
    method PlayNote(clock: Clock, time: real, pitch: int32, velocity: int, withinFrame: bool)
      requires Valid()
      modifies this`recentPlayedCuePoint, this`queuedNotes, this`play, this`speed, this`envelope, SampleObject(), carry
      ensures Valid()
      ensures !enabled ==> recentPlayedCuePoint == old(recentPlayedCuePoint) && queuedNotes == old(queuedNotes) && TransportKept()
      ensures enabled ==> recentPlayedCuePoint == if selectPlayedCuePoint then pitch else old(recentPlayedCuePoint)
      ensures enabled && !withinFrame ==> queuedNotes == old(queuedNotes) + [NoteEvent(time, pitch, velocity)] && TransportKept()
      ensures enabled && withinFrame && velocity > 0 && sample != null ==> queuedNotes == old(queuedNotes) && Triggered(clock, time, pitch, velocity)
      ensures enabled && withinFrame && !(velocity > 0 && sample != null) ==> queuedNotes == old(queuedNotes) && TransportKept()
    {
      if !enabled {
        return;
      }
      if selectPlayedCuePoint {
        recentPlayedCuePoint := pitch;
      }
      if !withinFrame {
        queuedNotes := queuedNotes + [NoteEvent(time, pitch, velocity)];
        return;
      }
      if velocity > 0 && sample != null {
        PlayCuePoint(clock, time, pitch, velocity);
      }
    }
  
    /** The play flag is set and the envelope restarted at the next block, at full scale. */
    twostate predicate Restarted(clock: Clock)
      reads this
    {
      play && envelope == old(envelope) + [Cleared, Started(clock.NextBlockStart(), 1.0)]
    }

    /** The background job and the search results are as they were. */
    twostate predicate JobsKept()
      reads this
    {
      && searchResults == old(searchResults)
      && jobKind == old(jobKind)
      && hasProcess == old(hasProcess)
      && completion == old(completion)
      && launched == old(launched)
      && killedJobs == old(killedJobs)
    }

    /** A new helper process runs for `request`: any previous one was killed, and `done` will run when it exits. */
    twostate predicate JobLaunched(kind: JobKind, request: JobRequest, done: Completion)
      reads this
    {
      && jobKind == kind
      && completion == done
      && launched == old(launched) + [request]
      && killedJobs == old(killedJobs) + (if old(hasProcess) then 1 else 0)
      && hasProcess
    }

    /** DownloadYoutube's effect: playback stops, the sample is rewound and the download job replaces any running job. */
    twostate predicate DownloadStarted(locator: string, title: string)
      reads this, sample
    {
      && !play
      && sample == old(sample)
      && (old(sample) != null ==> sample.position == 0.0 && sample.OnlyPositionChanged())
      && JobLaunched(DownloadJob, DownloadRequest(locator), DownloadDone(title))
    }

    /** UpdateSample: install `s` rewound and set up with the player's loop and speed, reset the view, then delete the previous sample if the new ownership flag says so. */
    method UpdateSample(s: Sample, owns: bool)
      requires Valid()
      modifies this`sample, this`volume, this`play, this`ownsSample, this`zoomLevel, this`zoomOffset
      modifies this`errorString, this`isLoadingSample, s, SampleObject()
      ensures Valid()
      ensures sample == s
      ensures s.position == 0.0 && s.looping == loop && s.rate == speed
      ensures s.audio == old(s.audio) && s.name == old(s.name)
      ensures volume == 1.0 && !play && ownsSample == owns && zoomLevel == 1.0 && zoomOffset == 0.0
      ensures errorString == "" && isLoadingSample
      ensures old(sample) != null ==> old(sample).deleted == (owns || old(sample.deleted))
      ensures old(sample) != s ==> s.deleted == old(s.deleted)
      ensures old(sample) != null && old(sample) != s ==> old(sample).OnlyDeletedChanged()
    {
      var previous := sample;
      InstallSample(s, owns);
      if ownsSample && previous != null {
        previous.Delete();
      }
      isLoadingSample := true;
    }

    /** The part of UpdateSample before the old sample is released: `s` is set up and installed and the player's transient state is reset. */
    method InstallSample(s: Sample, owns: bool)
      requires Valid()
      modifies this`sample, this`volume, this`play, this`ownsSample, this`zoomLevel, this`zoomOffset
      modifies this`errorString, s
      ensures Valid()
      ensures sample == s
      ensures s.position == 0.0 && s.looping == loop && s.rate == speed
      ensures s.audio == old(s.audio) && s.name == old(s.name) && s.deleted == old(s.deleted)
      ensures volume == 1.0 && !play && ownsSample == owns && zoomLevel == 1.0 && zoomOffset == 0.0
      ensures errorString == ""
    {
      s.Rewind(loop, speed);
      sample := s;
      volume := 1.0;
      play := false;
      ownsSample := owns;
      zoomLevel := 1.0;
      zoomOffset := 0.0;
      errorString := "";
    }

    /** DownloadYoutube: stop, rewind, and replace any running job by a download of `locator` that will be titled `title`. */
    method StartDownload(locator: string, title: string)
      requires Valid()
      modifies this`play, SampleObject(), this`jobKind, this`completion, this`launched, this`killedJobs, this`hasProcess
      ensures Valid()
      ensures DownloadStarted(locator, title)
    {
      play := false;
      if sample != null {
        sample.position := 0.0;
      }
      jobKind := DownloadJob;
      completion := DownloadDone(title);
      if hasProcess {
        killedJobs := killedJobs + 1;
      }
      launched := launched + [DownloadRequest(locator)];
      hasProcess := true;
    }

    /** SearchYoutube: forget the previous results and replace any running job by a search for `term`. */
    method StartSearch(term: string)
      requires Valid()
      modifies this`searchResults, this`jobKind, this`completion, this`launched, this`killedJobs, this`hasProcess
      ensures Valid()
      ensures searchResults == []
      ensures JobLaunched(SearchJob, SearchRequest(term), SearchDone(term))
    {
      searchResults := [];
      jobKind := SearchJob;
      completion := SearchDone(term);
      if hasProcess {
        killedJobs := killedJobs + 1;
      }
      launched := launched + [SearchRequest(term)];
      hasProcess := true;
    }

    /** What a click does for every button but play-cue: the transport buttons act only with a sample, the clip button and a filled result slot start a download, and an empty slot does nothing. */
    twostate predicate OtherButtonHandled(button: Button, clock: Clock)
      reads this, sample, carry, lastOutput
    {
      && sample == old(sample)
      && (button == PlayButton && old(sample) != null ==>
        && Restarted(clock) && speed == old(speed) && sample.position == old(sample.position)
        && sample.OnlyPositionChanged() && carry[..] == old(carry[..]) && JobsKept())
      && (button == PauseButton && old(sample) != null ==>
        && !play && speed == old(speed) && envelope == old(envelope) && sample.position == old(sample.position)
        && sample.OnlyPositionChanged() && Ramped() && JobsKept())
      && (button == StopButton && old(sample) != null ==>
        && !play && speed == old(speed) && envelope == old(envelope) && sample.position == 0.0
        && sample.OnlyPositionChanged() && Ramped() && JobsKept())
      && ((button == PlayButton || button == PauseButton || button == StopButton) && old(sample) == null ==>
        TransportKept() && JobsKept())
      && (button.DownloadClipButton? ==>
        && DownloadStarted(WatchUrl + button.clipId, button.clipId)
        && speed == old(speed) && envelope == old(envelope) && carry[..] == old(carry[..])
        && searchResults == old(searchResults))
      && (button.SearchResultButton? && button.slot < resultSlots && button.slot < |old(searchResults)| ==>
        && DownloadStarted(WatchUrl + old(searchResults)[button.slot].id, old(searchResults)[button.slot].name)
        && speed == old(speed) && envelope == old(envelope) && carry[..] == old(carry[..])
        && searchResults == [])
      && (button.SearchResultButton? && !(button.slot < resultSlots && button.slot < |old(searchResults)|) ==>
        TransportKept() && JobsKept())
    }

    /** ButtonClicked, with the play-cue branch taken only when a sample is loaded. */
    method ButtonClicked(button: Button, clock: Clock)
      requires Valid()
      modifies this`play, this`speed, this`envelope, SampleObject(), carry
      modifies this`searchResults, this`jobKind, this`completion, this`launched, this`killedJobs, this`hasProcess
      ensures Valid()
      ensures OtherButtonHandled(button, clock)
      ensures button == PlayCueButton && old(sample) != null ==>
        Triggered(clock, clock.now, activeCueIndex, 127) && JobsKept()
      ensures button == PlayCueButton && old(sample) == null ==> TransportKept() && JobsKept()
    {
      if sample != null {
        if button == PlayButton {
          play := true;
          envelope := envelope + [Cleared];
          envelope := envelope + [Started(clock.NextBlockStart(), 1.0)];
        }
        if button == PauseButton {
          play := false;
          SwitchAndRamp();
        }
        if button == StopButton {
          play := false;
          sample.position := 0.0;
          SwitchAndRamp();
        }
      }
      if button.DownloadClipButton? {
        StartDownload(WatchUrl + button.clipId, button.clipId);
      }
      if button.SearchResultButton? && button.slot < resultSlots && button.slot < |searchResults| {
        var chosen := searchResults[button.slot];
        StartDownload(WatchUrl + chosen.id, chosen.name);
        searchResults := [];
      }
      if button == PlayCueButton && sample != null {
        PlayCuePoint(clock, clock.now, activeCueIndex, 127);
      }
    }

    /** What ButtonClicked needs of the player as the source writes it: its play-cue branch, outside the sample guard, calls PlayCuePoint, which goes through the sample. */
    predicate CanClickAsWritten(button: Button)
      reads this
    {
      button == PlayCueButton ==> sample != null
    }

    /** ButtonClicked exactly as the source writes it, with the play-cue branch after the sample guard; it can run only when CanClickAsWritten holds. */
    method ButtonClickedAsWritten(button: Button, clock: Clock)
      requires Valid() && CanClickAsWritten(button)
      modifies this`play, this`speed, this`envelope, SampleObject(), carry
      modifies this`searchResults, this`jobKind, this`completion, this`launched, this`killedJobs, this`hasProcess
      ensures Valid()
      ensures OtherButtonHandled(button, clock)
      ensures button == PlayCueButton ==> Triggered(clock, clock.now, activeCueIndex, 127) && JobsKept()
    {
      if sample != null {
        if button == PlayButton {
          play := true;
          envelope := envelope + [Cleared];
          envelope := envelope + [Started(clock.NextBlockStart(), 1.0)];
        }
        if button == PauseButton {
          play := false;
          SwitchAndRamp();
        }
        if button == StopButton {
          play := false;
          sample.position := 0.0;
          SwitchAndRamp();
        }
      }
      if button.DownloadClipButton? {
        StartDownload(WatchUrl + button.clipId, button.clipId);
      }
      if button.SearchResultButton? && button.slot < resultSlots && button.slot < |searchResults| {
        var chosen := searchResults[button.slot];
        StartDownload(WatchUrl + chosen.id, chosen.name);
        searchResults := [];
      }
      if button == PlayCueButton {
        PlayCuePoint(clock, clock.now, activeCueIndex, 127);
      }
    }

    /** SetCuePointForX: the active cue starts at the given play position and takes the current speed. */
    method SetCuePointForPosition(position: real, clock: Clock)
      requires Valid() && sample != null && clock.sampleRate * sample.audio.sampleRateRatio != 0.0
      modifies this`cues
      ensures Valid()
      ensures cues == old(MarkedCues(cues, activeCueIndex, SecondsAt(position, clock, sample.audio), speed))
    {
      if 0 <= activeCueIndex as int < |cues| {
        var start := SecondsAt(position, clock, sample.audio);
        cues := cues[activeCueIndex := CuePoint(start, cues[activeCueIndex].lengthSeconds, speed)];
      }
    }

    /** OnClicked: a left click in the waveform, with no search results showing, starts a scrub at the mouse's play position. */
    method OnClicked(y: int, right: bool, mousePosition: real, clock: Clock)
      requires Valid()
      requires sample != null && setCuePointOnClick ==> clock.sampleRate * sample.audio.sampleRateRatio != 0.0
      modifies this`play, this`envelope, this`scrubbing, this`cues, SampleObject(), carry
      ensures Valid()
      ensures sample == old(sample)
      ensures !right && |searchResults| == 0 && ScrubTop < y < height - ScrubBottomMargin && old(sample) != null ==>
        && Ramped() && Restarted(clock)
        && sample.position == TruncateToInt(mousePosition) as real && sample.OnlyPositionChanged()
        && scrubbing
        && cues == if setCuePointOnClick
                   then old(MarkedCues(cues, activeCueIndex, SecondsAt(mousePosition, clock, sample.audio), speed))
                   else old(cues)
      ensures !(!right && |searchResults| == 0 && ScrubTop < y < height - ScrubBottomMargin && old(sample) != null) ==>
        TransportKept() && scrubbing == old(scrubbing) && cues == old(cues)
    {
      if right {
        return;
      }
      if |searchResults| > 0 {
        return;
      }
      if ScrubTop < y < height - ScrubBottomMargin && sample != null {
        SwitchAndRamp();
        play := true;
        envelope := envelope + [Cleared];
        envelope := envelope + [Started(clock.NextBlockStart(), 1.0)];
        sample.position := TruncateToInt(mousePosition) as real;
        scrubbing := true;
        if setCuePointOnClick {
          SetCuePointForPosition(mousePosition, clock);
        }
      }
    }

    /** MouseMoved: while scrubbing, every move seeks to the mouse's play position and restarts the envelope; the play flag is left as it is. */
    method MouseMoved(mousePosition: real, clock: Clock)
      requires Valid()
      requires sample != null && setCuePointOnClick ==> clock.sampleRate * sample.audio.sampleRateRatio != 0.0
      modifies this`envelope, this`cues, SampleObject(), carry
      ensures Valid()
      ensures sample == old(sample)
      ensures scrubbing && old(sample) != null ==>
        && Ramped()
        && envelope == old(envelope) + [Cleared, Started(clock.NextBlockStart(), 1.0)]
        && sample.position == TruncateToInt(mousePosition) as real && sample.OnlyPositionChanged()
        && cues == if setCuePointOnClick
                   then old(MarkedCues(cues, activeCueIndex, SecondsAt(mousePosition, clock, sample.audio), speed))
                   else old(cues)
      ensures !(scrubbing && old(sample) != null) ==> TransportKept() && cues == old(cues)
    {
      if scrubbing && sample != null {
        SwitchAndRamp();
        sample.position := TruncateToInt(mousePosition) as real;
        envelope := envelope + [Cleared];
        envelope := envelope + [Started(clock.NextBlockStart(), 1.0)];
        if setCuePointOnClick {
          SetCuePointForPosition(mousePosition, clock);
        }
      }
    }

    /** MouseReleased: a scrub ends. */
    method MouseReleased()
      requires Valid()
      modifies this`scrubbing
      ensures Valid()
      ensures !scrubbing
    {
      scrubbing := false;
    }
  
    /** Declick one channel of the work block: add the carry to every sample, decaying it one step per sample, mix the row into the target and remember its last sample. */
    method DeclickChannel(ch: nat, work: array2<real>, target: array2<real>)
      requires Valid()
      requires ch < carry.Length && ch < work.Length0 && ch < target.Length0
      requires work != target && work.Length1 == target.Length1 >= 1
      modifies work, target, carry, lastOutput
      ensures forall i :: 0 <= i < work.Length1 ==> work[ch, i] == old(work[ch, i]) + DecayN(old(carry[ch]), i)
      ensures forall i :: 0 <= i < work.Length1 ==> target[ch, i] == old(target[ch, i]) + work[ch, i]
      ensures carry[ch] == DecayN(old(carry[ch]), work.Length1)
      ensures lastOutput[ch] == work[ch, work.Length1 - 1]
      ensures forall c, i :: 0 <= c < work.Length0 && 0 <= i < work.Length1 && c != ch ==> work[c, i] == old(work[c, i])
      ensures forall c, i :: 0 <= c < target.Length0 && 0 <= i < target.Length1 && c != ch ==> target[c, i] == old(target[c, i])
      ensures forall c :: 0 <= c < carry.Length && c != ch ==> carry[c] == old(carry[c]) && lastOutput[c] == old(lastOutput[c])
    {
      AddCarry(ch, work);
      MixRow(ch, work, target);
      lastOutput[ch] := work[ch, work.Length1 - 1];
    }

    /** Add the channel's carry to every sample of its row, decaying the carry one step per sample. */
    method AddCarry(ch: nat, work: array2<real>)
      requires ch < carry.Length && ch < work.Length0
      modifies work, carry
      ensures forall i :: 0 <= i < work.Length1 ==> work[ch, i] == old(work[ch, i]) + DecayN(old(carry[ch]), i)
      ensures carry[ch] == DecayN(old(carry[ch]), work.Length1)
      ensures forall c, i :: 0 <= c < work.Length0 && 0 <= i < work.Length1 && c != ch ==> work[c, i] == old(work[c, i])
      ensures forall c :: 0 <= c < carry.Length && c != ch ==> carry[c] == old(carry[c])
    {
      ghost var start := carry[ch];
      var value := carry[ch];
      for i := 0 to work.Length1
        invariant value == DecayN(start, i)
        invariant forall j :: 0 <= j < i ==> work[ch, j] == old(work[ch, j]) + DecayN(start, j)
        invariant forall j :: i <= j < work.Length1 ==> work[ch, j] == old(work[ch, j])
        invariant forall c, j :: 0 <= c < work.Length0 && 0 <= j < work.Length1 && c != ch ==> work[c, j] == old(work[c, j])
        invariant carry[..] == old(carry[..])
      {
        work[ch, i] := work[ch, i] + value;
        assert work[ch, i] == old(work[ch, i]) + DecayN(start, i);
        value := DecayStep(value);
      }
      carry[ch] := value;
    }

    /** Add the channel's row of the work block into the target (the bus is shared, so mixing adds). */
    method MixRow(ch: nat, work: array2<real>, target: array2<real>)
      requires ch < work.Length0 && ch < target.Length0
      requires work != target && work.Length1 == target.Length1
      modifies target
      ensures forall i :: 0 <= i < work.Length1 ==> target[ch, i] == old(target[ch, i]) + work[ch, i]
      ensures forall c, i :: 0 <= c < target.Length0 && 0 <= i < target.Length1 && c != ch ==> target[c, i] == old(target[c, i])
    {
      for i := 0 to work.Length1
        invariant forall j :: 0 <= j < i ==> target[ch, j] == old(target[ch, j]) + work[ch, j]
        invariant forall c, j :: 0 <= c < target.Length0 && 0 <= j < target.Length1 && (c != ch || j >= i) ==> target[c, j] == old(target[c, j])
      {
        target[ch, i] := target[ch, i] + work[ch, i];
      }
    }

    /** Declick the first `n` channels of the work block and mix them into the target. */
    method DeclickBlock(n: nat, work: array2<real>, target: array2<real>)
      requires Valid()
      requires n <= carry.Length && n <= work.Length0 && n <= target.Length0
      requires work != target && work.Length1 == target.Length1 >= 1
      modifies work, target, carry, lastOutput
      ensures forall c, i :: 0 <= c < work.Length0 && 0 <= i < work.Length1 ==>
        work[c, i] == old(work[c, i]) + (if c < n then DecayN(old(carry[c]), i) else 0.0)
      ensures forall c, i :: 0 <= c < target.Length0 && 0 <= i < target.Length1 ==>
        target[c, i] == old(target[c, i]) + (if c < n then work[c, i] else 0.0)
      ensures forall c :: 0 <= c < carry.Length ==>
        carry[c] == if c < n then DecayN(old(carry[c]), work.Length1) else old(carry[c])
      ensures forall c :: 0 <= c < carry.Length ==>
        lastOutput[c] == if c < n then work[c, work.Length1 - 1] else old(lastOutput[c])
    {
      for ch := 0 to n
        invariant forall c, i :: 0 <= c < work.Length0 && 0 <= i < work.Length1 ==>
          work[c, i] == old(work[c, i]) + (if c < ch then DecayN(old(carry[c]), i) else 0.0)
        invariant forall c, i :: 0 <= c < target.Length0 && 0 <= i < target.Length1 ==>
          target[c, i] == old(target[c, i]) + (if c < ch then work[c, i] else 0.0)
        invariant forall c :: 0 <= c < carry.Length ==>
          carry[c] == if c < ch then DecayN(old(carry[c]), work.Length1) else old(carry[c])
        invariant forall c :: 0 <= c < carry.Length ==>
          lastOutput[c] == if c < ch then work[c, work.Length1 - 1] else old(lastOutput[c])
      {
        DeclickChannel(ch, work, target);
      }
    }

    /** The first `channels` rows of the work block take the data the sample delivered. */
    method FillBlock(work: array2<real>, channels: nat, consumed: seq<seq<real>>)
      requires channels <= work.Length0 && |consumed| == channels
      requires forall ch :: 0 <= ch < channels ==> |consumed[ch]| == work.Length1
      modifies work
      ensures forall c, i :: 0 <= c < work.Length0 && 0 <= i < work.Length1 ==>
        work[c, i] == if c < channels then consumed[c][i] else old(work[c, i])
    {
      for ch := 0 to channels
        invariant forall c, i :: 0 <= c < work.Length0 && 0 <= i < work.Length1 ==>
          work[c, i] == if c < ch then consumed[c][i] else old(work[c, i])
      {
        for i := 0 to work.Length1
          invariant forall c, j :: 0 <= c < work.Length0 && 0 <= j < work.Length1 ==>
            work[c, j] == if c < ch || (c == ch && j < i) then consumed[c][j] else old(work[c, j])
        {
          work[ch, i] := consumed[ch][i];
        }
      }
    }

    /** Process: one audio block.  Without a target or a sample nothing happens; otherwise the block is the sample's data when it plays and delivers, silence (and a stop) when not, and every active channel is declicked and mixed into the target. */
    method Process(time: real, hasTarget: bool, hasData: bool, consumed: seq<seq<real>>, work: array2<real>, target: array2<real>)
      requires Valid()
      requires work != target
      requires enabled && hasTarget && sample != null ==>
        && sample.audio.numChannels <= carry.Length
        && sample.audio.numChannels <= work.Length0 && sample.audio.numChannels <= target.Length0
        && work.Length1 == target.Length1 >= 1
        && |consumed| == sample.audio.numChannels
        && forall ch :: 0 <= ch < |consumed| ==> |consumed[ch]| == work.Length1
      modifies this`play, this`envelope, this`activeChannels, SampleObject(), carry, lastOutput, work, target
      ensures Valid()
      ensures sample == old(sample)
      ensures !(old(enabled) && hasTarget && old(sample) != null) ==>
        && play == old(play) && envelope == old(envelope) && activeChannels == old(activeChannels)
        && (sample != null ==> sample.OnlyPositionChanged() && sample.position == old(sample.position))
        && carry[..] == old(carry[..]) && lastOutput[..] == old(lastOutput[..])
        && (forall c, i :: 0 <= c < work.Length0 && 0 <= i < work.Length1 ==> work[c, i] == old(work[c, i]))
        && (forall c, i :: 0 <= c < target.Length0 && 0 <= i < target.Length1 ==> target[c, i] == old(target[c, i]))
      ensures old(enabled) && hasTarget && old(sample) != null ==>
        var n := sample.audio.numChannels;
        var sounding := old(play) && hasData;
        && activeChannels == n
        && sample.rate == speed && sample.OnlyRateChanged()
        && play == sounding
        && envelope == old(envelope) + (if sounding then [] else [Stopped(time)])
        && (forall c, i :: 0 <= c < n && 0 <= i < work.Length1 ==>
              work[c, i] == (if sounding then consumed[c][i] else 0.0) + DecayN(old(carry[c]), i))
        && (forall c, i :: 0 <= c < n && 0 <= i < work.Length1 ==> target[c, i] == old(target[c, i]) + work[c, i])
        && (forall c :: 0 <= c < n ==> carry[c] == DecayN(old(carry[c]), work.Length1) && lastOutput[c] == work[c, work.Length1 - 1])
        && (forall c :: n <= c < carry.Length ==> carry[c] == old(carry[c]) && lastOutput[c] == old(lastOutput[c]))
        && (forall c, i :: n <= c < target.Length0 && 0 <= i < target.Length1 ==> target[c, i] == old(target[c, i]))
    {
      if !enabled || !hasTarget || sample == null {
        return;
      }
      var n := sample.audio.numChannels;
      sample.rate := speed;
      activeChannels := n;
      if play && hasData {
        FillBlock(work, n, consumed);
      } else {
        FillBlock(work, n, seq(n, _ => seq(work.Length1, _ => 0.0)));
        play := false;
        envelope := envelope + [Stopped(time)];
      }
      DeclickBlock(n, work, target);
    }
  
    /** Poll's scan of the result files: each file that parses and brings a new id is appended, in listing order. */
    method MergeSearchResults(files: seq<string>)
      requires Valid()
      modifies this`searchResults
      ensures Valid()
      ensures searchResults == Merge(old(searchResults), files)
    {
      for k := 0 to |files|
        invariant UniqueIds(searchResults)
        invariant Merge(searchResults, files[k..]) == Merge(old(searchResults), files)
      {
        ghost var before := searchResults;
        assert files[k..][0] == files[k] && files[k..][1..] == files[k + 1..];
        var parsed := ParseResultFileName(files[k]);
        if parsed.Some? {
          var found := ContainsId(searchResults, parsed.value.id);
          if !found {
            searchResults := searchResults + [parsed.value];
          }
        }
        assert searchResults == AddParsed(before, files[k]);
        assert Merge(before, [files[k]]) == AddParsed(before, files[k]) by {
          assert [files[k]][1..] == [];
        }
        MergeKeepsIdsUnique(before, [files[k]]);
      }
    }
  
    /** The loaded sample, the volume, the play flag, the ownership flag, the view and the loading flag are as they were. */
    twostate predicate SampleKept()
      reads this, sample
    {
      && sample == old(sample)
      && (old(sample) != null ==> sample.Kept())
      && volume == old(volume) && play == old(play) && ownsSample == old(ownsSample)
      && zoomLevel == old(zoomLevel) && zoomOffset == old(zoomOffset) && isLoadingSample == old(isLoadingSample)
    }

    /** UpdateSample(new Sample holding `audio`, true) has happened, and the error string then became `error`. */
    twostate predicate Swapped(audio: Audio, error: string, previous: Sample?)
      reads this, sample, previous
    {
      && sample != null && fresh(sample)
      && sample.audio == audio && sample.position == 0.0 && sample.looping == loop && sample.rate == speed && !sample.deleted
      && volume == 1.0 && !play && ownsSample && zoomLevel == 1.0 && zoomOffset == 0.0 && isLoadingSample
      && errorString == error
      && (previous != null ==> previous.deleted && previous.OnlyDeletedChanged())
    }

    /** The effect of the completion callback once the helper process has exited; `downloaded` is the converted file, if one was written. */
    twostate predicate Completed(downloaded: Option<Audio>, previous: Sample?)
      reads this, sample, previous
    {
      match completion
      case DownloadDone(title) =>
        if downloaded.Some? then Swapped(downloaded.value, "", previous) && sample.name == title
        else Swapped(EmptyAudio, DownloadFailedMessage, previous)
      case SearchDone(term) =>
        SampleKept() && errorString == if |searchResults| == 0 then NoResultsMessage + term else old(errorString)
      case NoCompletion =>
        SampleKept() && errorString == old(errorString)
    }

    /** Run the completion callback of the job whose process has exited. */
    method RunCompletion(downloaded: Option<Audio>)
      requires Valid()
      modifies this`sample, this`volume, this`play, this`ownsSample, this`zoomLevel, this`zoomOffset
      modifies this`errorString, this`isLoadingSample, SampleObject()
      ensures Valid()
      ensures Completed(downloaded, old(sample))
    {
      match completion
      case DownloadDone(title) =>
        if downloaded.Some? {
          var s := new Sample(downloaded.value);
          s.name := title;
          UpdateSample(s, true);
        } else {
          var s := new Sample(EmptyAudio);
          UpdateSample(s, true);
          errorString := DownloadFailedMessage;
        }
      case SearchDone(term) =>
        if |searchResults| == 0 {
          errorString := NoResultsMessage + term;
        }
      case NoCompletion =>
    }

    /** Poll's "select played" hand-off: the pitch last played becomes the active cue when it names one. */
    method TakeRecentPlayedCue()
      modifies this`recentPlayedCuePoint, this`activeCueIndex
      ensures recentPlayedCuePoint == -1
      ensures activeCueIndex ==
        if old(recentPlayedCuePoint) != -1 && 0 <= old(recentPlayedCuePoint) as int < |cues|
        then old(recentPlayedCuePoint) else old(activeCueIndex)
    {
      if recentPlayedCuePoint != -1 {
        var index := recentPlayedCuePoint;
        recentPlayedCuePoint := -1;
        if 0 <= index as int < |cues| {
          activeCueIndex := index;
        }
      }
    }

    /** Poll's handling of the helper process: merge newly listed result files while a search runs, and finish the job once the process has exited. */
    method PollJob(listing: Option<seq<string>>, exited: bool, downloaded: Option<Audio>)
      requires Valid()
      modifies this`searchResults, this`hasProcess
      modifies this`sample, this`volume, this`play, this`ownsSample, this`zoomLevel, this`zoomOffset
      modifies this`errorString, this`isLoadingSample, SampleObject()
      ensures Valid()
      ensures searchResults ==
        if old(hasProcess) && jobKind == SearchJob && listing.Some? && |listing.value| != |old(searchResults)|
        then Merge(old(searchResults), listing.value) else old(searchResults)
      ensures hasProcess == (old(hasProcess) && !exited)
      ensures old(hasProcess) && exited ==> Completed(downloaded, old(sample))
      ensures !(old(hasProcess) && exited) ==> SampleKept() && errorString == old(errorString)
    {
      if hasProcess && jobKind == SearchJob && listing.Some? && |listing.value| != |searchResults| {
        MergeSearchResults(listing.value);
      }
      FinishJob(exited, downloaded);
    }

    /** Poll's check for the end of the helper process: once it has exited it is dropped and its completion callback runs. */
    method FinishJob(exited: bool, downloaded: Option<Audio>)
      requires Valid()
      modifies this`hasProcess
      modifies this`sample, this`volume, this`play, this`ownsSample, this`zoomLevel, this`zoomOffset
      modifies this`errorString, this`isLoadingSample, SampleObject()
      ensures Valid()
      ensures hasProcess == (old(hasProcess) && !exited)
      ensures old(hasProcess) && exited ==> Completed(downloaded, old(sample))
      ensures !(old(hasProcess) && exited) ==> SampleKept() && errorString == old(errorString)
    {
      if hasProcess && exited {
        hasProcess := false;
        RunCompletion(downloaded);
      }
    }

    /** Poll: the helper process first, then the hand-off of the played cue. */
    method Poll(listing: Option<seq<string>>, exited: bool, downloaded: Option<Audio>)
      requires Valid()
      modifies this`searchResults, this`hasProcess, this`recentPlayedCuePoint, this`activeCueIndex
      modifies this`sample, this`volume, this`play, this`ownsSample, this`zoomLevel, this`zoomOffset
      modifies this`errorString, this`isLoadingSample, SampleObject()
      ensures Valid()
      ensures searchResults ==
        if old(hasProcess) && jobKind == SearchJob && listing.Some? && |listing.value| != |old(searchResults)|
        then Merge(old(searchResults), listing.value) else old(searchResults)
      ensures hasProcess == (old(hasProcess) && !exited)
      ensures old(hasProcess) && exited ==> Completed(downloaded, old(sample))
      ensures !(old(hasProcess) && exited) ==> SampleKept() && errorString == old(errorString)
      ensures recentPlayedCuePoint == -1
      ensures activeCueIndex ==
        if old(recentPlayedCuePoint) != -1 && 0 <= old(recentPlayedCuePoint) as int < |cues|
        then old(recentPlayedCuePoint) else old(activeCueIndex)
    {
      PollJob(listing, exited, downloaded);
      TakeRecentPlayedCue();
    }

    /** The sample section of the saved state: the loaded sample's audio, if any. */
    function SavedSample(): Option<Audio>
      reads this, sample
    {
      if sample == null then None else Some(sample.audio)
    }

    /** SaveState: the base state, the revision, the has-sample flag and sample, then the cue count and every cue in index order. */
    method SaveState(base: nat) returns (ts: seq<Token>)
      requires Valid()
      ensures ts == Encode(base, SavedSample(), cues)
    {
      ts := [ModuleBlob(base), Int(SaveStateRev)];
      var hasSample := sample != null;
      ts := ts + [Bool(hasSample)];
      if hasSample {
        ts := ts + [SampleBlob(sample.audio)];
      }
      ts := ts + [Int(|cues| as int32)];
      ghost var head := ts;
      for i := 0 to |cues|
        invariant ts == head + EncodeCues(cues[..i])
      {
        assert cues[..i + 1][..i] == cues[..i];
        ts := ts + [Float(cues[i].startSeconds)];
        ts := ts + [Float(cues[i].lengthSeconds)];
        ts := ts + [Float(cues[i].speed)];
      }
      assert cues[..|cues|] == cues;
    }

    /** LoadState: refuse a newer revision, install the saved sample, then (from revision 1) resize the cue table and read every cue. */
    method LoadState(ts: seq<Token>) returns (outcome: Result<seq<Token>, LoadError>)
      requires Valid()
      modifies this`cues, this`sample, this`volume, this`play, this`ownsSample, this`zoomLevel, this`zoomOffset
      modifies this`errorString, this`isLoadingSample, SampleObject()
      ensures Valid()
      ensures outcome == Remainder(Decode(ts))
      ensures DecodeHeader(ts).Ok? && DecodeHeader(ts).value.sample.Some? ==>
        Swapped(DecodeHeader(ts).value.sample.value, "", old(sample))
      ensures !(DecodeHeader(ts).Ok? && DecodeHeader(ts).value.sample.Some?) ==>
        SampleKept() && errorString == old(errorString)
      ensures cues == if Decode(ts).Ok? && Decode(ts).value.cues.Some? then Decode(ts).value.cues.value else old(cues)
    {
      var header := DecodeHeader(ts);
      if header.Err? {
        return Err(header.error);
      }
      var h := header.value;
      if h.sample.Some? {
        var s := new Sample(h.sample.value);
        UpdateSample(s, true);
      }
      if h.rev < 1 {
        return Ok(ts[h.next..]);
      }
      outcome := ReadCueSection(ts[h.next..]);
    }

    /** The cue section of LoadState: the count, a resize of the table to it, then every cue in index order. */
    method ReadCueSection(section: seq<Token>) returns (outcome: Result<seq<Token>, LoadError>)
      requires Valid()
      modifies this`cues
      ensures Valid()
      ensures outcome == match DecodeCueSection(section) case Ok(r) => Ok(r.1) case Err(e) => Err(e)
      ensures cues == if DecodeCueSection(section).Ok? then DecodeCueSection(section).value.0 else old(cues)
    {
      if |section| == 0 || !section[0].Int? {
        return Err(Malformed);
      }
      if section[0].i < 0 {
        return Err(NegativeCueCount(section[0].i));
      }
      var size := section[0].i as nat;
      var values := section[1..];
      if !FloatsUpTo(values, size) {
        return Err(Malformed);
      }
      cues := Resized(cues, size);
      for i := 0 to size
        invariant |cues| == size
        invariant forall k :: 0 <= k < i ==> cues[k] == CueAt(values, k)
      {
        cues := cues[i := CueAt(values, i)];
      }
      assert cues == seq(size, k => CueAt(values, k));
      return Ok(values[3 * size..]);
    }
  }
}
