/**
 * The playback test's `main`: read a WAV file, accept only PCM, 16 kHz,
 * mono, 16-bit audio, then stream the sample bytes to the robot in chunks
 * of at most 96000 bytes until they are all sent or an interrupt is seen.
 * The robot client is modelled by the calls the main thread makes to it,
 * in order; the LED animation thread is not part of this model.
 */
module Playback {
  import opened Wrappers
  import opened Wav
  import opened WavReader

  /** Bytes per `PlayStream` call at most: three seconds of 16 kHz mono
      16-bit audio. */
  const ChunkSize: nat := 96000

  function Min(a: nat, b: nat): nat {
    if a <= b then a else b
  }

  /** `pcm` cut into consecutive chunks of `ChunkSize` bytes, the last one
      holding what is left. */
  function Partition(pcm: seq<byte>): seq<seq<byte>>
    decreases |pcm|
  {
    if pcm == [] then []
    else
      var n := Min(ChunkSize, |pcm|);
      [pcm[..n]] + Partition(pcm[n..])
  }

  /** The chunks joined back together. */
  function Concat(chunks: seq<seq<byte>>): seq<byte>
  {
    if chunks == [] then [] else chunks[0] + Concat(chunks[1..])
  }

  /** Every chunk is non-empty and at most `ChunkSize` bytes, every chunk
      but the last is full, and the chunks concatenate back to `pcm`. */
  lemma {:induction false} PartitionSpec(pcm: seq<byte>)
    decreases |pcm|
    ensures Concat(Partition(pcm)) == pcm
    ensures |Partition(pcm)| == (|pcm| + ChunkSize - 1) / ChunkSize
    ensures forall i :: 0 <= i < |Partition(pcm)| ==>
      0 < |Partition(pcm)[i]| <= ChunkSize
      && (i < |Partition(pcm)| - 1 ==> |Partition(pcm)[i]| == ChunkSize)
  {
    if pcm != [] {
      var n := Min(ChunkSize, |pcm|);
      PartitionSpec(pcm[n..]);
      assert pcm[..n] + pcm[n..] == pcm;
      var rest := Partition(pcm[n..]);
      assert Partition(pcm) == [pcm[..n]] + rest;
      assert Partition(pcm)[1..] == rest;
      forall i | 0 <= i < |Partition(pcm)|
        ensures 0 < |Partition(pcm)[i]| <= ChunkSize
        ensures i < |Partition(pcm)| - 1 ==> |Partition(pcm)[i]| == ChunkSize
      {
        if i > 0 {
          assert Partition(pcm)[i] == rest[i - 1];
        }
      }
    }
  }

  lemma {:induction false} ConcatSnoc(chunks: seq<seq<byte>>, c: seq<byte>)
    decreases |chunks|
    ensures Concat(chunks + [c]) == Concat(chunks) + c
  {
    if chunks == [] {
      assert [] + [c] == [c];
    } else {
      ConcatSnoc(chunks[1..], c);
      assert (chunks + [c])[1..] == chunks[1..] + [c];
    }
  }

  /** How many chunks go out when the interrupt is set after `stopAfter`
      of them (if ever) and there are `total` chunks. */
  function ChunksSent(total: nat, stopAfter: Option<nat>): (r: nat)
    ensures r <= total
    ensures stopAfter.None? ==> r == total
    ensures stopAfter.Some? ==> r == Min(total, stopAfter.value)
  {
    match stopAfter
    case None => total
    case Some(k) => Min(total, k)
  }

  /** The chunk taken at `offset` and the partition of what follows it. */
  lemma PartitionStep(pcm: seq<byte>, offset: nat)
    requires offset < |pcm|
    ensures var size := Min(ChunkSize, |pcm| - offset);
      Partition(pcm[offset..]) == [pcm[offset..offset + size]] + Partition(pcm[offset + size..])
  {
    var size := Min(ChunkSize, |pcm| - offset);
    assert pcm[offset..][..size] == pcm[offset..offset + size];
    assert pcm[offset..][size..] == pcm[offset + size..];
  }

  /** Sending the next chunk keeps the loop's invariant: the chunks sent
      and the partition of the rest make up the partition of `pcm`. */
  lemma TakeChunk(pcm: seq<byte>, sent: seq<seq<byte>>, offset: nat)
    requires offset < |pcm|
    requires Partition(pcm) == sent + Partition(pcm[offset..]) && Concat(sent) == pcm[..offset]
    ensures var size := Min(ChunkSize, |pcm| - offset);
      var next := sent + [pcm[offset..offset + size]];
      Partition(pcm) == next + Partition(pcm[offset + size..]) && Concat(next) == pcm[..offset + size]
  {
    var size := Min(ChunkSize, |pcm| - offset);
    var chunk := pcm[offset..offset + size];
    PartitionStep(pcm, offset);
    ConcatSnoc(sent, chunk);
    assert pcm[..offset] + chunk == pcm[..offset + size];
    assert sent + ([chunk] + Partition(pcm[offset + size..])) == sent + [chunk] + Partition(pcm[offset + size..]);
  }

  /** When the loop stops, the chunks sent are the first ones of the
      partition, as many as the interrupt allowed. */
  lemma LoopExit(pcm: seq<byte>, sent: seq<seq<byte>>, offset: nat, stopAfter: Option<nat>)
    requires offset <= |pcm| && Partition(pcm) == sent + Partition(pcm[offset..])
    requires stopAfter.Some? ==> |sent| <= stopAfter.value
    requires offset == |pcm| || (stopAfter.Some? && stopAfter.value <= |sent|)
    ensures sent == Partition(pcm)[..ChunksSent(|Partition(pcm)|, stopAfter)]
    ensures stopAfter.None? ==> offset == |pcm|
  {
    assert (sent + Partition(pcm[offset..]))[..|sent|] == sent;
    if offset == |pcm| {
      assert Partition(pcm[offset..]) == [];
    }
  }

  /** The playback loop. `stopAfter` is the number of chunks already sent
      when the interrupt handler sets the stop flag, if it ever does; the
      loop checks the flag before each chunk. */
  method PlayChunks(pcm: seq<byte>, stopAfter: Option<nat>) returns (sent: seq<seq<byte>>, offset: nat)
    ensures sent == Partition(pcm)[..ChunksSent(|Partition(pcm)|, stopAfter)]
    ensures offset <= |pcm| && Concat(sent) == pcm[..offset]
    ensures stopAfter.None? ==> offset == |pcm|
  {
    sent := [];
    offset := 0;
    while offset < |pcm|
      invariant offset <= |pcm|
      invariant Partition(pcm) == sent + Partition(pcm[offset..])
      invariant Concat(sent) == pcm[..offset]
      invariant stopAfter.Some? ==> |sent| <= stopAfter.value
      decreases |pcm| - offset
    {
      if stopAfter.Some? && stopAfter.value <= |sent| {
        break;
      }
      var remaining := |pcm| - offset;
      var size := Min(ChunkSize, remaining);
      var chunk := pcm[offset..offset + size];
      TakeChunk(pcm, sent, offset);
      sent := sent + [chunk];
      offset := offset + size;
    }
    LoopExit(pcm, sent, offset, stopAfter);
  }

  /** The chunks are sent in order and together are exactly the first
      `offset` bytes; without an interrupt they are all of `pcm`. */
  lemma PlayedInOrder(pcm: seq<byte>)
    ensures Concat(Partition(pcm)[..ChunksSent(|Partition(pcm)|, None)]) == pcm
  {
    PartitionSpec(pcm);
    assert Partition(pcm)[..|Partition(pcm)|] == Partition(pcm);
  }

  // ---------------------------------------------------------------------
  // main

  /** A call the main thread makes on the audio client. */
  datatype Call =
    | PlayStream(chunk: seq<byte>)
    | PlayStop
    | LedControl(r: nat, g: nat, b: nat)

  function PlayCalls(chunks: seq<seq<byte>>): (r: seq<Call>)
    ensures |r| == |chunks| && forall i :: 0 <= i < |r| ==> r[i] == PlayStream(chunks[i])
  {
    if chunks == [] then [] else [PlayStream(chunks[0])] + PlayCalls(chunks[1..])
  }

  /** `main` plays only PCM, 16 kHz, mono, 16-bit files. */
  predicate FormatSupported(f: Format) {
    f.audioFormat == 1 && f.sampleRate == 16000 && f.numChannels == 1 && f.bitsPerSample == 16
  }

  /** Whether the stop flag is set once the loop is over. */
  predicate Interrupted(sent: nat, stopAfter: Option<nat>) {
    stopAfter.Some? && stopAfter.value <= sent
  }

  /** Everything the main thread asks of the client after the file passed
      the checks: the chunks, the stop, then green, blue and off unless
      interrupted, then off. */
  function PlaybackCalls(pcm: seq<byte>, stopAfter: Option<nat>): seq<Call>
  {
    var n := ChunksSent(|Partition(pcm)|, stopAfter);
    PlayCalls(Partition(pcm)[..n]) + [PlayStop]
      + (if Interrupted(n, stopAfter) then [] else [LedControl(0, 255, 0), LedControl(0, 0, 255), LedControl(0, 0, 0)])
      + [LedControl(0, 0, 0)]
  }

  /** `main` of the playback test. `argc` counts the program name; `file`
      holds the bytes of the file named by the second argument. */
  method PlayTestMain(argc: nat, file: seq<byte>, stopAfter: Option<nat>) returns (code: int, calls: seq<Call>)
    ensures argc < 3 ==> code == 1 && calls == []
    ensures argc >= 3 ==>
      var p := ParseWav(file, Format(0, 0, 0, 0), []);
      && (!p.ok || !FormatSupported(p.format) ==> code == 1 && calls == [])
      && (p.ok && FormatSupported(p.format) ==> code == 0 && calls == PlaybackCalls(p.pcm, stopAfter))
  {
    if argc < 3 {
      return 1, [];
    }
    var info := new WavInfo();
    var ok := ReadWavFile(file, info);
    if !ok {
      return 1, [];
    }
    if info.audioFormat != 1 || info.sampleRate != 16000 || info.numChannels != 1 || info.bitsPerSample != 16 {
      return 1, [];
    }
    var sent, offset := PlayChunks(info.pcm, stopAfter);
    calls := PlayCalls(sent) + [PlayStop];
    if !Interrupted(|sent|, stopAfter) {
      calls := calls + [LedControl(0, 255, 0), LedControl(0, 0, 255), LedControl(0, 0, 0)];
    }
    calls := calls + [LedControl(0, 0, 0)];
    code := 0;
  }

  /** A file written by `WriteWav` is played in full when nobody
      interrupts: every sample byte goes out, in order. */
  lemma WrittenFilePlays(samples: seq<int16>)
    requires 36 + 2 * |samples| < Two32
    ensures var p := ParseWav(WavBytes(samples), Format(0, 0, 0, 0), []);
      p.ok && FormatSupported(p.format) && p.pcm == PcmBytes(samples)
      && Concat(Partition(p.pcm)[..ChunksSent(|Partition(p.pcm)|, None)]) == PcmBytes(samples)
  {
    WrittenFileParses(samples, [], Format(0, 0, 0, 0), []);
    assert WavBytes(samples) + [] == WavBytes(samples);
    PlayedInOrder(PcmBytes(samples));
  }
}
