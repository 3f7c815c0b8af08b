/**
 * The objects the sample player talks to but whose code is not part of this
 * model.  Each is reduced to the record of what the player asked of it.
 */
module Collaborators {
  import opened CueTable

  /** What decoding a file or a saved sample state yields; the decoding itself is opaque. */
  datatype Audio = Audio(contents: nat, numChannels: nat, sampleRateRatio: real)

  /** The audio of a `new Sample()` into which nothing has been read. */
  const EmptyAudio := Audio(0, 1, 1.0)

  /** The global transport values the engine reads: gTime, gBufferSize, gInvSampleRateMs and gSampleRate. */
  datatype Clock = Clock(now: real, bufferSize: nat, invSampleRateMs: real, sampleRate: real)
  {
    /** The time of the first sample of the next audio block: where button and scrub triggers start the envelope. */
    function NextBlockStart(): real
    {
      now + bufferSize as real * invSampleRateMs
    }
  }

  /** A call made on the ADSR envelope. */
  datatype EnvelopeCall = Cleared | Started(time: real, scale: real) | Stopped(time: real)

  /** A note handed to the note input buffer for release in a later audio block. */
  datatype NoteEvent = NoteEvent(time: real, pitch: int32, velocity: int)

  /** A sample buffer, reduced to the settings the player makes on it and whether it was deleted. */
  class Sample {
    var audio: Audio
    var name: string
    var position: real
    var rate: real
    var looping: bool
    var deleted: bool

    constructor (audio: Audio)
      ensures this.audio == audio && name == ""
      ensures position == 0.0 && rate == 1.0 && !looping && !deleted
    {
      this.audio := audio;
      name := "";
      position := 0.0;
      rate := 1.0;
      looping := false;
      deleted := false;
    }

    /** SetPlayPosition(0), SetLooping and SetRate, as a newly installed sample receives them. */
    method Rewind(looping: bool, rate: real)
      modifies this`position, this`looping, this`rate
      ensures position == 0.0 && this.looping == looping && this.rate == rate
    {
      position := 0.0;
      this.looping := looping;
      this.rate := rate;
    }

    /** `delete`, recorded as a flag. */
    method Delete()
      modifies this`deleted
      ensures deleted
    {
      deleted := true;
    }

    /** Nothing about the sample has changed. */
    twostate predicate Kept()
      reads this
    {
      audio == old(audio) && name == old(name) && position == old(position)
      && rate == old(rate) && looping == old(looping) && deleted == old(deleted)
    }

    /** Only the deleted flag may have changed. */
    twostate predicate OnlyDeletedChanged()
      reads this
    {
      audio == old(audio) && name == old(name) && position == old(position) && rate == old(rate) && looping == old(looping)
    }

    /** Only the playback rate may have changed. */
    twostate predicate OnlyRateChanged()
      reads this
    {
      audio == old(audio) && name == old(name) && position == old(position) && looping == old(looping) && deleted == old(deleted)
    }

    /** Only the play position may have changed. */
    twostate predicate OnlyPositionChanged()
      reads this
    {
      audio == old(audio) && name == old(name) && rate == old(rate) && looping == old(looping) && deleted == old(deleted)
    }
  }
}
