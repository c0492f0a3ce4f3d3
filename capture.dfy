/**
 * Microphone capture of the conversational executable: the 48 kHz to
 * 16 kHz decimation fed to the recogniser, and the utterance segmenter of
 * `RecordLocalMicPcmDynamic`. The recorder, the raw-file reader and the
 * denoiser are not part of this model: each one-second chunk arrives as a
 * `Capture` that already carries the denoised samples, the denoiser's mean
 * voice-activity probability and the chunk's RMS level.
 */
module Capture {
  import opened Wrappers
  import Wav

  /** A 16-bit sample, as the recorder and the denoiser produce them. */
  type int16 = Wav.int16

  // ---------------------------------------------------------------------
  // DownsampleTo16k

  /** Keeps every third sample, starting with the first; a trailing group
      of one or two samples is dropped. */
  method DownsampleTo16k(pcm: seq<int16>) returns (out: seq<int16>)
    ensures |out| == |pcm| / 3
    ensures forall k :: 0 <= k < |out| ==> out[k] == pcm[3 * k]
  {
    if pcm == [] {
      return [];
    }
    out := [];
    var i := 0;
    while i + 2 < |pcm|
      invariant i == 3 * |out| && i <= |pcm|
      invariant forall k :: 0 <= k < |out| ==> out[k] == pcm[3 * k]
      decreases |pcm| - i
    {
      out := out + [pcm[i]];
      i := i + 3;
    }
  }

  // ---------------------------------------------------------------------
  // RecordLocalMicPcmDynamic

  const ChunkSeconds: int := 1
  const MaxRecordSeconds: int := 5
  const SilenceStopMs: int := 500
  const VadThresholdStart: real := 0.0
  const VadThresholdContinue: real := 0.0
  const RmsThreshold: int := 1200

  /** The number of chunks the segmenter reads at most. */
  const MaxChunks: nat := 5

  /** One capture round: the recorder or the raw reader failed, or a chunk
      came back from the denoiser. */
  datatype Capture =
    | Failed
    | Captured(denoised: seq<int16>, avgVad: real, rms: int)

  /** A chunk the segmenter goes on with: captured and not empty after
      denoising. */
  predicate Usable(c: Capture) {
    c.Captured? && c.denoised != []
  }

  /** A chunk loud enough to start an utterance. */
  predicate Loud(c: Capture) {
    Usable(c) && c.avgVad >= VadThresholdStart && c.rms >= RmsThreshold
  }

  /** A chunk quiet enough to count as silence once speech has started. */
  predicate Quiet(c: Capture) {
    Usable(c) && (c.avgVad < VadThresholdContinue || c.rms < RmsThreshold)
  }

  /** The first loud chunk at or after `i`, if one comes before a failed
      chunk and within the first `MaxChunks`. */
  function Onset(chunks: seq<Capture>, i: nat): (r: Option<nat>)
    requires |chunks| >= MaxChunks
    decreases MaxChunks - i
    ensures r.Some? ==> i <= r.value < MaxChunks && Loud(chunks[r.value])
  {
    if i >= MaxChunks then None
    else if !Usable(chunks[i]) then None
    else if Loud(chunks[i]) then Some(i)
    else Onset(chunks, i + 1)
  }

  /** Once speech has started, the index just past the last chunk kept,
      looking from `k` on: a failed chunk ends before itself, a quiet chunk
      ends after itself, and otherwise the time budget ends it. */
  function SpeechEnd(chunks: seq<Capture>, k: nat): (r: nat)
    requires |chunks| >= MaxChunks
    decreases MaxChunks - k
    ensures k <= MaxChunks ==> k <= r <= MaxChunks
  {
    if k >= MaxChunks then MaxChunks
    else if !Usable(chunks[k]) then k
    else if Quiet(chunks[k]) then k + 1
    else SpeechEnd(chunks, k + 1)
  }

  /** The samples a chunk contributes; a failed chunk has none. */
  function Pcm(c: Capture): seq<int16> {
    if c.Captured? then c.denoised else []
  }

  /** The samples of consecutive chunks, concatenated in order. */
  function Samples(cs: seq<Capture>): seq<int16>
  {
    if cs == [] then [] else Samples(cs[..|cs| - 1]) + Pcm(cs[|cs| - 1])
  }

  /** The utterance: nothing without an onset, otherwise every chunk from
      the onset up to the end of speech. */
  function Utterance(chunks: seq<Capture>): seq<int16>
    requires |chunks| >= MaxChunks
  {
    match Onset(chunks, 0)
    case None => []
    case Some(j) => Samples(chunks[j..SpeechEnd(chunks, j + 1)])
  }

  lemma SamplesSnoc(chunks: seq<Capture>, j: nat, i: nat)
    requires j <= i < |chunks|
    ensures Samples(chunks[j..i + 1]) == Samples(chunks[j..i]) + Pcm(chunks[i])
  {
    assert chunks[j..i + 1][..i - j] == chunks[j..i];
  }

  /** The segmenter before speech has started, at round `round`: nothing
      kept, and no loud chunk among the rounds already read. */
  predicate Waiting(chunks: seq<Capture>, round: nat, result: seq<int16>)
    requires |chunks| >= MaxChunks
  {
    result == [] && Onset(chunks, 0) == Onset(chunks, round)
  }

  /** The segmenter after speech started at `onset`: every chunk from the
      onset to `round` kept, and no chunk among them ended the speech. */
  predicate Speaking(chunks: seq<Capture>, onset: nat, round: nat, result: seq<int16>)
    requires |chunks| >= MaxChunks
  {
    Onset(chunks, 0) == Some(onset) && onset < round <= MaxChunks
    && result == Samples(chunks[onset..round])
    && SpeechEnd(chunks, onset + 1) == SpeechEnd(chunks, round)
  }

  /** A chunk neither failed nor loud leaves the segmenter waiting. */
  lemma WaitStep(chunks: seq<Capture>, round: nat)
    requires |chunks| >= MaxChunks && round < MaxChunks
    requires Waiting(chunks, round, []) && Usable(chunks[round]) && !Loud(chunks[round])
    ensures Waiting(chunks, round + 1, [])
  {
  }

  /** A loud chunk starts the utterance with its own samples. */
  lemma StartStep(chunks: seq<Capture>, round: nat)
    requires |chunks| >= MaxChunks && round < MaxChunks
    requires Waiting(chunks, round, []) && Loud(chunks[round])
    ensures Speaking(chunks, round, round + 1, chunks[round].denoised)
  {
    SamplesSnoc(chunks, round, round);
    assert chunks[round..round] == [];
  }

  /** A loud-enough chunk after the onset is kept and speech goes on. */
  lemma SpeakStep(chunks: seq<Capture>, onset: nat, round: nat, result: seq<int16>)
    requires |chunks| >= MaxChunks && round < MaxChunks
    requires Speaking(chunks, onset, round, result) && Usable(chunks[round]) && !Quiet(chunks[round])
    ensures Speaking(chunks, onset, round + 1, result + chunks[round].denoised)
  {
    SamplesSnoc(chunks, onset, round);
  }

  /** A quiet chunk after the onset is kept and ends the utterance. */
  lemma QuietStep(chunks: seq<Capture>, onset: nat, round: nat, result: seq<int16>)
    requires |chunks| >= MaxChunks && round < MaxChunks
    requires Speaking(chunks, onset, round, result) && Quiet(chunks[round])
    ensures result + chunks[round].denoised == Utterance(chunks)
  {
    SamplesSnoc(chunks, onset, round);
  }

  /** A failed or empty chunk, or the end of the time budget, ends the
      utterance with what was kept. */
  lemma SpeakingEnds(chunks: seq<Capture>, onset: nat, round: nat, result: seq<int16>)
    requires |chunks| >= MaxChunks && round <= MaxChunks
    requires Speaking(chunks, onset, round, result)
    requires round == MaxChunks || !Usable(chunks[round])
    ensures result == Utterance(chunks)
  {
  }

  /** Ending before any loud chunk gives nothing. */
  lemma WaitingEnds(chunks: seq<Capture>, round: nat)
    requires |chunks| >= MaxChunks && round <= MaxChunks
    requires Waiting(chunks, round, [])
    requires round == MaxChunks || !Usable(chunks[round])
    ensures Utterance(chunks) == []
  {
  }

  /** Reads chunks until the utterance is over; `chunks` holds what the
      recorder and the denoiser would deliver, one entry per round, and
      `round` is the position in that stream. */
  method RecordLocalMicPcmDynamic(chunks: seq<Capture>) returns (result: seq<int16>)
    requires |chunks| >= MaxChunks
    ensures result == Utterance(chunks)
  {
    result := [];
    var started := false;
    var silenceMs := 0;
    var capturedMs := 0;
    var round := 0;
    ghost var onset: nat := 0;
    while capturedMs < MaxRecordSeconds * 1000
      invariant 0 <= round <= MaxChunks && capturedMs == 1000 * round
      invariant !started ==> Waiting(chunks, round, result)
      invariant started ==> Speaking(chunks, onset, round, result)
      invariant silenceMs == 0
      decreases MaxRecordSeconds * 1000 - capturedMs
    {
      var chunk := chunks[round];
      if !chunk.Captured? || chunk.denoised == [] {
        break;
      }
      var rms := chunk.rms;
      if !started {
        if chunk.avgVad >= VadThresholdStart && rms >= RmsThreshold {
          StartStep(chunks, round);
          started := true;
          onset := round;
          result := result + chunk.denoised;
        } else {
          WaitStep(chunks, round);
        }
      } else {
        if chunk.avgVad < VadThresholdContinue || rms < RmsThreshold {
          QuietStep(chunks, onset, round, result);
          result := result + chunk.denoised;
          silenceMs := silenceMs + ChunkSeconds * 1000;
        } else {
          SpeakStep(chunks, onset, round, result);
          result := result + chunk.denoised;
          silenceMs := 0;
        }
        if silenceMs >= SilenceStopMs {
          return;
        }
      }
      capturedMs := capturedMs + ChunkSeconds * 1000;
      round := round + 1;
    }
    if !started {
      WaitingEnds(chunks, round);
      return [];
    }
    SpeakingEnds(chunks, onset, round, result);
  }

  /** The utterance is empty exactly when no loud chunk came first: a
      started utterance always holds the onset chunk's samples. */
  lemma UtteranceEmptyIffNoOnset(chunks: seq<Capture>)
    requires |chunks| >= MaxChunks
    ensures Utterance(chunks) == [] <==> Onset(chunks, 0).None?
  {
    if Onset(chunks, 0).Some? {
      var j := Onset(chunks, 0).value;
      var e := SpeechEnd(chunks, j + 1);
      UtteranceStartsAtOnset(chunks);
      assert chunks[j].denoised != [];
    }
  }

  /** A started utterance begins with the onset chunk, in order. */
  lemma UtteranceStartsAtOnset(chunks: seq<Capture>)
    requires |chunks| >= MaxChunks && Onset(chunks, 0).Some?
    ensures chunks[Onset(chunks, 0).value].denoised <= Utterance(chunks)
  {
    var j := Onset(chunks, 0).value;
    var e := SpeechEnd(chunks, j + 1);
    SamplesFront(chunks[j..e]);
  }

  /** The samples of chunks start with those of the first chunk. */
  lemma {:induction false} SamplesFront(cs: seq<Capture>)
    requires cs != []
    decreases |cs|
    ensures Samples(cs) == Pcm(cs[0]) + Samples(cs[1..])
  {
    if |cs| == 1 {
      assert cs[..0] == [] && cs[1..] == [];
    } else {
      var init := cs[..|cs| - 1];
      SamplesFront(init);
      assert cs[1..][..|cs| - 2] == init[1..];
      var a, b, c := Pcm(cs[0]), Samples(init[1..]), Pcm(cs[|cs| - 1]);
      assert a + b + c == a + (b + c);
    }
  }

  /** Without a chunk loud enough to start, nothing is returned, however
      much was captured. */
  lemma QuietInputGivesNothing(chunks: seq<Capture>)
    requires |chunks| >= MaxChunks
    requires forall i :: 0 <= i < MaxChunks ==> !Loud(chunks[i])
    ensures Utterance(chunks) == []
  {
    OnsetNeedsLoud(chunks, 0);
  }

  lemma {:induction false} OnsetNeedsLoud(chunks: seq<Capture>, i: nat)
    requires |chunks| >= MaxChunks
    requires forall k :: i <= k < MaxChunks ==> !Loud(chunks[k])
    decreases MaxChunks - i
    ensures Onset(chunks, i).None?
  {
    if i < MaxChunks && Usable(chunks[i]) {
      OnsetNeedsLoud(chunks, i + 1);
    }
  }

  /** The first quiet chunk after the onset is the last one kept: one
      one-second chunk of silence already exceeds the 500 ms stop rule. */
  lemma QuietChunkEndsSpeech(chunks: seq<Capture>, k: nat)
    requires |chunks| >= MaxChunks
    requires Onset(chunks, 0).Some? && Onset(chunks, 0).value < k < MaxChunks
    requires Quiet(chunks[k])
    requires forall m :: Onset(chunks, 0).value < m < k ==> Usable(chunks[m]) && !Quiet(chunks[m])
    ensures SpeechEnd(chunks, Onset(chunks, 0).value + 1) == k + 1
  {
    SpeechEndSkipsSpeech(chunks, Onset(chunks, 0).value + 1, k);
  }

  lemma {:induction false} SpeechEndSkipsSpeech(chunks: seq<Capture>, m: nat, k: nat)
    requires |chunks| >= MaxChunks && m <= k < MaxChunks
    requires forall n :: m <= n < k ==> Usable(chunks[n]) && !Quiet(chunks[n])
    decreases k - m
    ensures SpeechEnd(chunks, m) == SpeechEnd(chunks, k)
  {
    if m < k {
      SpeechEndSkipsSpeech(chunks, m + 1, k);
    }
  }

  /** At most `MaxChunks` rounds are read: nothing after them matters. */
  lemma UtteranceWithinBudget(chunks: seq<Capture>)
    requires |chunks| >= MaxChunks
    ensures Utterance(chunks) == Utterance(chunks[..MaxChunks])
  {
    var head := chunks[..MaxChunks];
    OnsetOnPrefix(chunks, 0);
    match Onset(chunks, 0)
    case None =>
    case Some(j) =>
      SpeechEndOnPrefix(chunks, j + 1);
      assert head[j..SpeechEnd(chunks, j + 1)] == chunks[j..SpeechEnd(chunks, j + 1)];
  }

  lemma {:induction false} OnsetOnPrefix(chunks: seq<Capture>, i: nat)
    requires |chunks| >= MaxChunks
    decreases MaxChunks - i
    ensures Onset(chunks[..MaxChunks], i) == Onset(chunks, i)
  {
    if i < MaxChunks {
      OnsetOnPrefix(chunks, i + 1);
    }
  }

  lemma {:induction false} SpeechEndOnPrefix(chunks: seq<Capture>, k: nat)
    requires |chunks| >= MaxChunks
    decreases MaxChunks - k
    ensures SpeechEnd(chunks[..MaxChunks], k) == SpeechEnd(chunks, k)
  {
    if k < MaxChunks {
      SpeechEndOnPrefix(chunks, k + 1);
    }
  }
}
