/**
 * The cue-point table of the sample player: a vector of (start, length, speed)
 * regions indexed by MIDI pitch.  Lookups and stores compare the signed pitch
 * against the vector's unsigned size, exactly as the C++ comparison does.
 */
module CueTable {

  /** A C++ `int`. */
  newtype int32 = x: int | -0x8000_0000 <= x < 0x8000_0000

  const Int32Max: int := 0x7FFF_FFFF

  /** A std::vector never holds more than PTRDIFF_MAX elements. */
  const MaxVectorLength: int := 0x7FFF_FFFF_FFFF_FFFF

  /** 2^64: the modulus of `size_t`. */
  const SizeTModulus: int := 0x1_0000_0000_0000_0000

  /** A cue point; a length of 0 means "play to the natural end". */
  datatype CuePoint = CuePoint(startSeconds: real, lengthSeconds: real, speed: real)

  /** What a pitch without a cue point plays: from the top, at unity speed, never force-stopped. */
  const DefaultPlayInfo := CuePoint(0.0, 0.0, 1.0)

  /** The value `pitch` takes when C++ converts it to `size_t` for `pitch < size()`. */
  function AsSizeT(pitch: int32): nat
  {
    if pitch < 0 then pitch as int + SizeTModulus else pitch as int
  }

  /** The unsigned comparison `pitch < size()` is the signed range check `0 <= pitch < size()`. */
  lemma UnsignedCompareIsRangeCheck(pitch: int32, size: nat)
    requires size <= MaxVectorLength
    ensures AsSizeT(pitch) < size <==> 0 <= pitch as int < size
  {
  }

  /** GetPlayInfoForPitch: the stored cue for a pitch inside the table, the default otherwise. */
  function PlayInfoForPitch(cues: seq<CuePoint>, pitch: int32): (info: CuePoint)
    requires |cues| <= MaxVectorLength
    ensures 0 <= pitch as int < |cues| ==> info == cues[pitch]
    ensures (pitch < 0 || pitch as int >= |cues|) ==> info == DefaultPlayInfo
  {
    var u := AsSizeT(pitch);
    if u < |cues| then cues[u] else DefaultPlayInfo
  }

  /** SetCuePoint on the table's value: overwrite entry `pitch` when it is inside the table. */
  function WithCuePoint(cues: seq<CuePoint>, pitch: int32, cue: CuePoint): (r: seq<CuePoint>)
    requires |cues| <= MaxVectorLength
    ensures |r| == |cues|
    ensures forall k :: 0 <= k < |cues| ==> r[k] == (if k == pitch as int then cue else cues[k])
  {
    var u := AsSizeT(pitch);
    if u < |cues| then cues[u := cue] else cues
  }

  /** Reading a pitch after storing a cue: the stored cue at that pitch when it is in range, the old answer everywhere else. */
  lemma PlayInfoAfterSetCuePoint(cues: seq<CuePoint>, p: int32, q: int32, cue: CuePoint)
    requires |cues| <= MaxVectorLength
    ensures PlayInfoForPitch(WithCuePoint(cues, p, cue), q)
         == if p == q && 0 <= p as int < |cues| then cue else PlayInfoForPitch(cues, q)
  {
  }

  /** A store at a pitch outside the table leaves the whole table as it was. */
  lemma SetCuePointOutOfRange(cues: seq<CuePoint>, pitch: int32, cue: CuePoint)
    requires |cues| <= MaxVectorLength
    requires pitch < 0 || pitch as int >= |cues|
    ensures WithCuePoint(cues, pitch, cue) == cues
  {
  }
}
