/**
 * The sample player's own section of a saved patch.  The stream is a token
 * sequence: the base module's state and the sample's state are single opaque
 * tokens, the rest is the revision, the has-sample flag and the cue table.
 */
module SavedState {
  import opened Outcomes
  import opened CueTable
  import opened Collaborators

  datatype Token =
    | Int(i: int32)
    | Bool(b: bool)
    | Float(f: real)
    | ModuleBlob(base: nat)
    | SampleBlob(audio: Audio)

  /** The revision this writer produces; readers accept it and every older one. */
  const SaveStateRev: int32 := 1

  datatype LoadError = Malformed | RevisionTooNew(rev: int32) | NegativeCueCount(count: int32)

  /** What a stream holds: the cue table is present only from revision 1 on. */
  datatype Decoded = Decoded(base: nat, rev: int32, sample: Option<Audio>, cues: Option<seq<CuePoint>>, rest: seq<Token>)

  function CueTokens(c: CuePoint): seq<Token>
  {
    [Float(c.startSeconds), Float(c.lengthSeconds), Float(c.speed)]
  }

  /** The cue section: start, length and speed of every cue, in index order. */
  function EncodeCues(cues: seq<CuePoint>): (ts: seq<Token>)
    ensures |ts| == 3 * |cues|
  {
    if cues == [] then [] else EncodeCues(cues[..|cues| - 1]) + CueTokens(cues[|cues| - 1])
  }

  /** SaveState's layout. */
  function Encode(base: nat, sample: Option<Audio>, cues: seq<CuePoint>): seq<Token>
    requires |cues| <= Int32Max
  {
    [ModuleBlob(base), Int(SaveStateRev), Bool(sample.Some?)]
    + (if sample.Some? then [SampleBlob(sample.value)] else [])
    + [Int(|cues| as int32)]
    + EncodeCues(cues)
  }

  function FloatAt(ts: seq<Token>, j: int): real
  {
    if 0 <= j < |ts| && ts[j].Float? then ts[j].f else 0.0
  }

  /** The cue read from the `k`-th triple of floats. */
  function CueAt(ts: seq<Token>, k: int): CuePoint
  {
    CuePoint(FloatAt(ts, 3 * k), FloatAt(ts, 3 * k + 1), FloatAt(ts, 3 * k + 2))
  }

  /** The stream begins with `count` triples of floats. */
  predicate FloatsUpTo(ts: seq<Token>, count: nat)
  {
    3 * count <= |ts| && forall j :: 0 <= j < 3 * count ==> ts[j].Float?
  }

  function DecodeCues(ts: seq<Token>, count: nat): Result<(seq<CuePoint>, seq<Token>), LoadError>
  {
    if FloatsUpTo(ts, count) then Ok((seq(count, k => CueAt(ts, k)), ts[3 * count..])) else Err(Malformed)
  }

  /** What precedes the cue section: the base state, the revision, the sample if any, and where the cue section starts. */
  datatype Header = Header(base: nat, rev: int32, sample: Option<Audio>, next: nat)

  /** LoadState's reading up to the cue section: base state, revision check, has-sample flag and sample. */
  function DecodeHeader(ts: seq<Token>): (r: Result<Header, LoadError>)
    ensures r.Ok? ==> r.value.next <= |ts| && r.value.rev <= SaveStateRev
  {
    if |ts| < 2 || !ts[0].ModuleBlob? || !ts[1].Int? then Err(Malformed)
    else if ts[1].i > SaveStateRev then Err(RevisionTooNew(ts[1].i))
    else if |ts| < 3 || !ts[2].Bool? then Err(Malformed)
    else if !ts[2].b then Ok(Header(ts[0].base, ts[1].i, None, 3))
    else if |ts| < 4 || !ts[3].SampleBlob? then Err(Malformed)
    else Ok(Header(ts[0].base, ts[1].i, Some(ts[3].audio), 4))
  }

  /** The cue section: a count that must not be negative, then that many triples of floats. */
  function DecodeCueSection(section: seq<Token>): Result<(seq<CuePoint>, seq<Token>), LoadError>
  {
    if |section| == 0 || !section[0].Int? then Err(Malformed)
    else if section[0].i < 0 then Err(NegativeCueCount(section[0].i))
    else DecodeCues(section[1..], section[0].i as nat)
  }

  /** LoadState's reading of the whole stream; the cue section is present from revision 1 on. */
  function Decode(ts: seq<Token>): Result<Decoded, LoadError>
  {
    match DecodeHeader(ts)
    case Err(e) => Err(e)
    case Ok(h) =>
      if h.rev < 1 then Ok(Decoded(h.base, h.rev, h.sample, None, ts[h.next..]))
      else
        match DecodeCueSection(ts[h.next..])
        case Err(e) => Err(e)
        case Ok((cues, rest)) => Ok(Decoded(h.base, h.rev, h.sample, Some(cues), rest))
  }

  /** Where each cue's three values sit in the cue section. */
  lemma {:induction false} EncodeCuesAt(cues: seq<CuePoint>, k: nat)
    requires k < |cues|
    ensures EncodeCues(cues)[3 * k] == Float(cues[k].startSeconds)
    ensures EncodeCues(cues)[3 * k + 1] == Float(cues[k].lengthSeconds)
    ensures EncodeCues(cues)[3 * k + 2] == Float(cues[k].speed)
  {
    var front := cues[..|cues| - 1];
    if k < |cues| - 1 {
      EncodeCuesAt(front, k);
    }
  }

  /** The cue section holds nothing but floats. */
  lemma {:induction false} EncodeCuesAllFloats(cues: seq<CuePoint>)
    ensures forall j :: 0 <= j < |EncodeCues(cues)| ==> EncodeCues(cues)[j].Float?
  {
    if cues != [] {
      EncodeCuesAllFloats(cues[..|cues| - 1]);
    }
  }

  /** A written cue section, whatever follows it, starts with the right number of floats. */
  lemma EncodedCuesAreFloats(cues: seq<CuePoint>, rest: seq<Token>)
    ensures FloatsUpTo(EncodeCues(cues) + rest, |cues|)
  {
    var written := EncodeCues(cues);
    EncodeCuesAllFloats(cues);
    forall j | 0 <= j < 3 * |cues|
      ensures (written + rest)[j].Float?
    {
      assert (written + rest)[j] == written[j];
    }
  }

  /** The `k`-th triple of a written cue section, whatever follows it, reads back as cue `k`. */
  lemma EncodedCueAt(cues: seq<CuePoint>, rest: seq<Token>, k: nat)
    requires k < |cues|
    ensures CueAt(EncodeCues(cues) + rest, k) == cues[k]
  {
    var written := EncodeCues(cues);
    var ts := written + rest;
    var j := 3 * k;
    EncodeCuesAt(cues, k);
    assert ts[j] == written[j] && ts[j + 1] == written[j + 1] && ts[j + 2] == written[j + 2];
  }

  /** Reading back a written cue section gives the same cues and leaves what follows. */
  lemma DecodeEncodedCues(cues: seq<CuePoint>, rest: seq<Token>)
    ensures DecodeCues(EncodeCues(cues) + rest, |cues|) == Ok((cues, rest))
  {
    var ts := EncodeCues(cues) + rest;
    EncodedCuesAreFloats(cues, rest);
    forall k | 0 <= k < |cues|
      ensures CueAt(ts, k) == cues[k]
    {
      EncodedCueAt(cues, rest, k);
    }
    assert seq(|cues|, k => CueAt(ts, k)) == cues;
    assert ts[3 * |cues|..] == rest;
  }

  /** Saving then loading at the current revision gives back the base state, the sample and every cue. */
  lemma SaveLoadRoundTrip(base: nat, sample: Option<Audio>, cues: seq<CuePoint>, rest: seq<Token>)
    requires |cues| <= Int32Max
    ensures Decode(Encode(base, sample, cues) + rest) == Ok(Decoded(base, SaveStateRev, sample, Some(cues), rest))
  {
    var head := [ModuleBlob(base), Int(SaveStateRev), Bool(sample.Some?)]
              + (if sample.Some? then [SampleBlob(sample.value)] else []);
    var at := |head|;
    var ts := Encode(base, sample, cues) + rest;
    assert ts == head + ([Int(|cues| as int32)] + (EncodeCues(cues) + rest));
    assert ts[at..] == [Int(|cues| as int32)] + (EncodeCues(cues) + rest);
    assert ts[at..][1..] == EncodeCues(cues) + rest;
    assert DecodeHeader(ts) == Ok(Header(base, SaveStateRev, sample, at));
    DecodeEncodedCues(cues, rest);
    assert DecodeCueSection(ts[at..]) == Ok((cues, rest));
  }

  /** A stream from a newer writer is refused before anything past the revision is read. */
  lemma RejectsNewerRevision(base: nat, rev: int32, tail: seq<Token>)
    requires rev > SaveStateRev
    ensures Decode([ModuleBlob(base), Int(rev)] + tail) == Err(RevisionTooNew(rev))
  {
  }

  /** A revision-0 stream has no cue section: the table is left alone and what follows is not consumed. */
  lemma OldRevisionHasNoCues(base: nat, sample: Option<Audio>, rest: seq<Token>)
    ensures Decode([ModuleBlob(base), Int(0), Bool(sample.Some?)]
                   + (if sample.Some? then [SampleBlob(sample.value)] else []) + rest)
         == Ok(Decoded(base, 0, sample, None, rest))
  {
    var head := [ModuleBlob(base), Int(0), Bool(sample.Some?)]
              + (if sample.Some? then [SampleBlob(sample.value)] else []);
    assert (head + rest)[|head|..] == rest;
  }
}
