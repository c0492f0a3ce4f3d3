/**
 * `ReadWavFile` of the playback test: a RIFF/WAVE reader that walks the
 * chunks of a file through an input stream, fills a `WavInfo` in place and
 * stops once it has seen both a "fmt " and a "data" chunk. The stream is
 * modelled with the standard library's rules: a read that finds fewer
 * bytes than asked stores the bytes it found and puts the stream in the
 * failed state, after which reads and skips do nothing; a skip stops
 * quietly at the end of the file.
 */
module WavReader {
  import opened Wav

  // ---------------------------------------------------------------------
  // The input stream

  /** What is left to read, and whether the stream has failed. */
  datatype Stream = Stream(rest: seq<byte>, fail: bool)

  /** `read(buf, n)`: the new stream and the bytes stored in `buf`. */
  function Read(s: Stream, n: nat): (r: (Stream, seq<byte>))
    ensures |r.0.rest| <= |s.rest| && |r.1| <= n
    ensures !r.0.fail ==> !s.fail && |r.1| == n && s.rest == r.1 + r.0.rest
    ensures s.fail ==> r == (s, [])
    ensures r.0.fail && !s.fail ==> |r.1| < n
  {
    if s.fail then (s, [])
    else if n <= |s.rest| then (Stream(s.rest[n..], false), s.rest[..n])
    else (Stream([], true), s.rest)
  }

  /** `ignore(n)`: skips up to `n` bytes. */
  function Ignore(s: Stream, n: nat): (r: Stream)
    ensures |r.rest| <= |s.rest| && r.fail == s.fail
    ensures !s.fail && n <= |s.rest| ==> r.rest == s.rest[n..]
  {
    if s.fail then s
    else if n <= |s.rest| then Stream(s.rest[n..], false)
    else Stream([], false)
  }

  /** A field of `width` bytes after a read that stored `got` in it: a
      complete read replaces it, a short one only its low bytes. */
  function Stored(previous: nat, got: seq<byte>, width: nat): nat
    requires |got| <= width
  {
    if |got| == width then LeValue(got)
    else LeValue(got) + HighPart(previous, |got|)
  }

  /** `x` with its low `k` bytes cleared. */
  function HighPart(x: nat, k: nat): nat
  {
    if k == 0 then x else 256 * HighPart(x / 256, k - 1)
  }

  /** Reads a little-endian field of `width` bytes over `previous`. */
  function ReadField(s: Stream, previous: nat, width: nat): (r: (Stream, nat))
    ensures |r.0.rest| <= |s.rest|
  {
    var got := Read(s, width);
    (got.0, Stored(previous, got.1, width))
  }

  /** A zero-initialised four-byte buffer after a read stored `got`. */
  function Buffer4(got: seq<byte>): seq<byte>
    requires |got| <= 4
  {
    got + seq(4 - |got|, _ => 0 as byte)
  }

  // ---------------------------------------------------------------------
  // The parse, as a function

  /** The format fields of `WavInfo`. */
  datatype Format = Format(audioFormat: nat, numChannels: nat, sampleRate: nat, bitsPerSample: nat)

  /** The "fmt " chunk body: six fields, two of them discarded, then the
      bytes beyond the 16 the fields take. */
  function ReadFmt(s: Stream, f: Format, size: nat): (r: (Stream, Format))
    ensures |r.0.rest| <= |s.rest|
  {
    var audioFormat := ReadField(s, f.audioFormat, 2);
    var numChannels := ReadField(audioFormat.0, f.numChannels, 2);
    var sampleRate := ReadField(numChannels.0, f.sampleRate, 4);
    var byteRate := Read(sampleRate.0, 4);
    var blockAlign := Read(byteRate.0, 2);
    var bitsPerSample := ReadField(blockAlign.0, f.bitsPerSample, 2);
    var end := if size > 16 then Ignore(bitsPerSample.0, size - 16) else bitsPerSample.0;
    (end, Format(audioFormat.1, numChannels.1, sampleRate.1, bitsPerSample.1))
  }

  /** `resize(n)`: keeps the first `n` bytes and pads with zeros. */
  function Resize(pcm: seq<byte>, n: nat): (r: seq<byte>)
    ensures |r| == n
  {
    if n <= |pcm| then pcm[..n] else pcm + seq(n - |pcm|, _ => 0 as byte)
  }

  /** The "data" chunk body: `pcm` is resized to the declared size and
      the bytes read are stored at its start. */
  function ReadData(s: Stream, pcm: seq<byte>, size: nat): (r: (Stream, seq<byte>))
    ensures |r.0.rest| <= |s.rest| && |r.1| == size
  {
    var got := Read(s, size);
    (got.0, got.1 + Resize(pcm, size)[|got.1|..])
  }

  /** The state of the chunk walk. */
  datatype Walker = Walker(s: Stream, format: Format, pcm: seq<byte>, fmtFound: bool, dataFound: bool)

  /** The chunk loop: runs while the stream is good and a chunk is missing. */
  function Walk(w: Walker): (r: Walker)
    decreases |w.s.rest|
    ensures r.fmtFound || !w.fmtFound
    ensures r.dataFound || !w.dataFound
  {
    if w.s.fail || (w.fmtFound && w.dataFound) then w
    else
      var id := Read(w.s, 4);
      var size := Read(id.0, 4);
      if size.0.fail then w.(s := size.0)
      else Walk(Chunk(size.0, id.1, LeValue(size.1), w))
  }

  /** One chunk whose header has been read: its body updates the walk. */
  function Chunk(s: Stream, id: seq<byte>, size: nat, w: Walker): (r: Walker)
    ensures |r.s.rest| <= |s.rest|
    ensures r.fmtFound == (w.fmtFound || id == FmtTag)
    ensures r.dataFound == (w.dataFound || (id != FmtTag && id == DataTag))
  {
    if id == FmtTag then
      var f := ReadFmt(s, w.format, size);
      Walker(f.0, f.1, w.pcm, true, w.dataFound)
    else if id == DataTag then
      var d := ReadData(s, w.pcm, size);
      Walker(d.0, w.format, d.1, w.fmtFound, true)
    else
      w.(s := Ignore(s, size))
  }

  /** What `ReadWavFile` returns and leaves in the `WavInfo`. */
  datatype Parsed = Parsed(ok: bool, format: Format, pcm: seq<byte>)

  /** The whole parse of `file` into a `WavInfo` holding `format0` and `pcm0`. */
  function ParseWav(file: seq<byte>, format0: Format, pcm0: seq<byte>): Parsed
  {
    var riff := Read(Stream(file, false), 4);
    var riffSize := Read(riff.0, 4);
    var wave := Read(riffSize.0, 4);
    if Buffer4(riff.1) != RiffTag || Buffer4(wave.1) != WaveTag then Parsed(false, format0, pcm0)
    else Outcome(Walk(Walker(wave.0, format0, pcm0, false, false)))
  }

  /** The walk succeeded when it found both chunks. */
  function Outcome(w: Walker): Parsed {
    Parsed(w.fmtFound && w.dataFound, w.format, w.pcm)
  }

  // ---------------------------------------------------------------------
  // ReadWavFile

  /** The decoded file: format fields and raw sample bytes. */
  class WavInfo {
    var audioFormat: nat
    var numChannels: nat
    var sampleRate: nat
    var bitsPerSample: nat
    var pcm: seq<byte>

    function Fields(): Format
      reads this
    {
      Format(audioFormat, numChannels, sampleRate, bitsPerSample)
    }

    constructor ()
      ensures Fields() == Format(0, 0, 0, 0) && pcm == []
    {
      audioFormat, numChannels, sampleRate, bitsPerSample := 0, 0, 0, 0;
      pcm := [];
    }
  }

  /** Checks the RIFF header, then walks the chunks, storing the format
      fields and the data bytes into `info` as they are read. Opening the
      file is not part of this model. */
  method ReadWavFile(file: seq<byte>, info: WavInfo) returns (ok: bool)
    modifies info
    ensures Parsed(ok, info.Fields(), info.pcm) == ParseWav(file, old(info.Fields()), old(info.pcm))
  {
    var riff := Read(Stream(file, false), 4);
    var riffSize := Read(riff.0, 4);
    var wave := Read(riffSize.0, 4);
    if Buffer4(riff.1) != RiffTag || Buffer4(wave.1) != WaveTag {
      return false;
    }
    var input := wave.0;
    var fmtFound := false;
    var dataFound := false;
    ghost var start := Walker(input, info.Fields(), info.pcm, false, false);
    while !input.fail && (!fmtFound || !dataFound)
      invariant Walk(Walker(input, info.Fields(), info.pcm, fmtFound, dataFound)) == Walk(start)
      decreases |input.rest|
    {
      ghost var before := Walker(input, info.Fields(), info.pcm, fmtFound, dataFound);
      var id := Read(input, 4);
      var size := Read(id.0, 4);
      input := size.0;
      if input.fail {
        assert Walk(before) == Walker(input, info.Fields(), info.pcm, fmtFound, dataFound);
        break;
      }
      var chunkSize := LeValue(size.1);
      ghost var after := Chunk(input, id.1, chunkSize, before);
      assert Walk(before) == Walk(after);
      input, fmtFound, dataFound := ReadChunkBody(input, id.1, chunkSize, info, fmtFound, dataFound);
    }
    if !fmtFound || !dataFound {
      return false;
    }
    return true;
  }

  /** The body of one chunk: the format fields, the sample bytes, or a skip. */
  method ReadChunkBody(input: Stream, id: seq<byte>, size: nat, info: WavInfo, fmtFound: bool, dataFound: bool)
    returns (next: Stream, fmtFound': bool, dataFound': bool)
    modifies info
    ensures Walker(next, info.Fields(), info.pcm, fmtFound', dataFound')
      == Chunk(input, id, size, Walker(input, old(info.Fields()), old(info.pcm), fmtFound, dataFound))
  {
    fmtFound', dataFound' := fmtFound, dataFound;
    if id == FmtTag {
      fmtFound' := true;
      var f := ReadFmt(input, info.Fields(), size);
      next := f.0;
      info.audioFormat, info.numChannels, info.sampleRate, info.bitsPerSample :=
        f.1.audioFormat, f.1.numChannels, f.1.sampleRate, f.1.bitsPerSample;
    } else if id == DataTag {
      dataFound' := true;
      var d := ReadData(input, info.pcm, size);
      next := d.0;
      info.pcm := d.1;
    } else {
      next := Ignore(input, size);
    }
  }

  // ---------------------------------------------------------------------
  // Properties of the parse

  /** A read of exactly the bytes in front. */
  lemma ReadPrefix(a: seq<byte>, b: seq<byte>, n: nat)
    requires n == |a|
    ensures Read(Stream(a + b, false), n) == (Stream(b, false), a)
  {
    assert (a + b)[..n] == a;
    assert (a + b)[n..] == b;
  }

  /** The format fields held in the sixteen bytes of a "fmt " body. */
  function FormatOf(fields: seq<byte>): Format
    requires |fields| == 16
  {
    Format(LeValue(fields[0..2]), LeValue(fields[2..4]), LeValue(fields[4..8]), LeValue(fields[14..16]))
  }

  /** A "fmt " body: the six fields are read, and any bytes beyond the
      sixteen are skipped. */
  lemma FmtBodyRead(fields: seq<byte>, extra: seq<byte>, rest: seq<byte>, f: Format)
    requires |fields| == 16
    ensures ReadFmt(Stream(fields + (extra + rest), false), f, 16 + |extra|) == (Stream(rest, false), FormatOf(fields))
  {
    var t := fields + (extra + rest);
    assert t[..2] == fields[0..2];
    assert t[2..][..2] == fields[2..4];
    assert t[2..][2..][..4] == fields[4..8];
    assert t[2..][2..][4..][4..][2..][..2] == fields[14..16];
    assert t[2..][2..][4..][4..][2..][2..] == extra + rest;
    assert (extra + rest)[|extra|..] == rest;
  }

  /** The body `WriteWav` writes holds PCM, mono, 16 kHz, 16 bits. */
  lemma FormatOfFmtFields()
    ensures FormatOf(FmtFields()) == Format(AudioFormatPcm, NumChannels, SampleRate, BitsPerSample)
  {
    var f1, f2, f3, f4, f5, f6 := Le16(AudioFormatPcm), Le16(NumChannels), Le32(SampleRate), Le32(ByteRate), Le16(BlockAlign), Le16(BitsPerSample);
    var t := FmtFields();
    assert t == f1 + (f2 + (f3 + (f4 + (f5 + f6))));
    assert t[0..2] == f1;
    assert t[2..4] == f2;
    assert t[4..8] == f3;
    assert t[14..16] == f6;
  }

  /** One step of the walk over a complete chunk header. */
  lemma WalkStep(w: Walker, id: seq<byte>, size: nat, rest: seq<byte>)
    requires |id| == 4 && size < Two32
    requires w.s == Stream(id + (Le32(size) + rest), false)
    requires !(w.fmtFound && w.dataFound)
    ensures Walk(w) == Walk(Chunk(Stream(rest, false), id, size, w))
  {
    ReadPrefix(id, Le32(size) + rest, 4);
    ReadPrefix(Le32(size), rest, 4);
  }

  /** A chunk that is neither "fmt " nor "data" is skipped by its declared
      size. */
  lemma UnknownChunkSkipped(id: seq<byte>, payload: seq<byte>, rest: seq<byte>, w: Walker)
    requires |id| == 4 && id != FmtTag && id != DataTag && |payload| < Two32
    requires w.s == Stream(id + (Le32(|payload|) + (payload + rest)), false)
    requires !(w.fmtFound && w.dataFound)
    ensures Walk(w) == Walk(w.(s := Stream(rest, false)))
  {
    WalkStep(w, id, |payload|, payload + rest);
    assert (payload + rest)[|payload|..] == rest;
  }

  /** A "fmt " chunk sets the format from its first sixteen bytes and
      skips the rest of its declared size. */
  lemma FmtChunkRead(fields: seq<byte>, extra: seq<byte>, rest: seq<byte>, w: Walker)
    requires |fields| == 16 && 16 + |extra| < Two32
    requires w.s == Stream(FmtTag + (Le32(16 + |extra|) + (fields + (extra + rest))), false)
    requires !(w.fmtFound && w.dataFound)
    ensures Walk(w) == Walk(Walker(Stream(rest, false), FormatOf(fields), w.pcm, true, w.dataFound))
  {
    WalkStep(w, FmtTag, 16 + |extra|, fields + (extra + rest));
    FmtBodyRead(fields, extra, rest, w.format);
  }

  /** A complete "data" body replaces the sample bytes, whatever they were. */
  lemma DataBodyRead(payload: seq<byte>, rest: seq<byte>, pcm: seq<byte>)
    ensures ReadData(Stream(payload + rest, false), pcm, |payload|) == (Stream(rest, false), payload)
  {
    ReadPrefix(payload, rest, |payload|);
    var tail := Resize(pcm, |payload|)[|payload|..];
    assert tail == [];
    assert payload + tail == payload;
  }

  /** A complete "data" chunk becomes the sample bytes. */
  lemma DataChunkRead(payload: seq<byte>, rest: seq<byte>, w: Walker)
    requires |payload| < Two32
    requires w.s == Stream(DataTag + (Le32(|payload|) + (payload + rest)), false)
    requires !(w.fmtFound && w.dataFound)
    ensures Walk(w) == Walk(Walker(Stream(rest, false), w.format, payload, w.fmtFound, true))
  {
    assert DataTag != FmtTag by {
      assert DataTag[0] != FmtTag[0];
    }
    WalkStep(w, DataTag, |payload|, payload + rest);
    DataBodyRead(payload, rest, w.pcm);
  }

  /** A "data" chunk cut short by the end of the file still gives
      `chunk_size` bytes: those present, then zeros. */
  lemma TruncatedDataZeroFilled(s: Stream, size: nat)
    requires !s.fail && |s.rest| < size
    ensures ReadData(s, [], size) == (Stream([], true), s.rest + seq(size - |s.rest|, _ => 0 as byte))
  {
    assert Resize([], size) == seq(size, _ => 0 as byte);
    assert Resize([], size)[|s.rest|..] == seq(size - |s.rest|, _ => 0 as byte);
  }

  /** Parsing fails, leaving the `WavInfo` as it was, unless the file
      starts with "RIFF", four bytes, then "WAVE". */
  lemma HeaderChecked(file: seq<byte>, f0: Format, p0: seq<byte>)
    ensures var good := |file| >= 12 && file[..4] == RiffTag && file[8..12] == WaveTag;
      && (ParseWav(file, f0, p0).ok ==> good)
      && (!good ==> ParseWav(file, f0, p0) == Parsed(false, f0, p0))
  {
    var riff := Read(Stream(file, false), 4);
    var riffSize := Read(riff.0, 4);
    var wave := Read(riffSize.0, 4);
    if |file| >= 12 {
      assert riff.1 == file[..4];
      assert riffSize.0.rest == file[8..];
      assert wave.1 == file[8..12];
      assert Buffer4(riff.1) == riff.1 && Buffer4(wave.1) == wave.1;
    } else {
      assert wave.0.fail;
      assert Buffer4(wave.1)[3] == 0 as byte;
      assert WaveTag[3] != 0 as byte;
    }
  }

  /** A good header hands the bytes after "WAVE" to the chunk walk. */
  lemma HeaderAccepted(file: seq<byte>, riffSize: seq<byte>, chunks: seq<byte>, f0: Format, p0: seq<byte>)
    requires |riffSize| == 4 && file == RiffTag + (riffSize + (WaveTag + chunks))
    ensures ParseWav(file, f0, p0)
      == Outcome(Walk(Walker(Stream(chunks, false), f0, p0, false, false)))
  {
    ReadPrefix(RiffTag, riffSize + (WaveTag + chunks), 4);
    ReadPrefix(riffSize, WaveTag + chunks, 4);
    ReadPrefix(WaveTag, chunks, 4);
  }

  lemma AppendNested(x1: seq<byte>, x2: seq<byte>, x3: seq<byte>, x4: seq<byte>, x5: seq<byte>,
                     x6: seq<byte>, x7: seq<byte>, x8: seq<byte>, x9: seq<byte>, more: seq<byte>)
    ensures x1 + (x2 + (x3 + (x4 + (x5 + (x6 + (x7 + (x8 + x9))))))) + more
         == x1 + (x2 + (x3 + (x4 + (x5 + (x6 + (x7 + (x8 + (x9 + more))))))))
  {
  }

  /** The "fmt " chunk `WriteWav` writes sets the supported format. */
  lemma WrittenFmtChunkRead(data: seq<byte>, f0: Format, p0: seq<byte>)
    ensures Walk(Walker(Stream(FmtTag + (Le32(FmtChunkSize) + (FmtFields() + data)), false), f0, p0, false, false))
      == Walk(Walker(Stream(data, false), Format(AudioFormatPcm, NumChannels, SampleRate, BitsPerSample), p0, true, false))
  {
    var none: seq<byte> := [];
    assert none + data == data;
    FmtChunkRead(FmtFields(), none, data, Walker(Stream(FmtTag + (Le32(16) + (FmtFields() + data)), false), f0, p0, false, false));
    FormatOfFmtFields();
  }

  /** After the format, the "data" chunk ends the walk with the samples. */
  lemma LastChunkRead(pcm: seq<byte>, more: seq<byte>, format: Format, p0: seq<byte>)
    requires |pcm| < Two32
    ensures Walk(Walker(Stream(DataTag + (Le32(|pcm|) + (pcm + more)), false), format, p0, true, false))
      == Walker(Stream(more, false), format, pcm, true, true)
  {
    DataChunkRead(pcm, more, Walker(Stream(DataTag + (Le32(|pcm|) + (pcm + more)), false), format, p0, true, false));
  }

  /** The chunks `WriteWav` writes after "WAVE" give the format and the
      samples, and the walk stops after them. */
  lemma WrittenChunksRead(pcm: seq<byte>, more: seq<byte>, f0: Format, p0: seq<byte>)
    requires |pcm| < Two32
    ensures Walk(Walker(Stream(FmtTag + (Le32(FmtChunkSize) + (FmtFields() + (DataTag + (Le32(|pcm|) + (pcm + more))))), false), f0, p0, false, false))
      == Walker(Stream(more, false), Format(AudioFormatPcm, NumChannels, SampleRate, BitsPerSample), pcm, true, true)
  {
    WrittenFmtChunkRead(DataTag + (Le32(|pcm|) + (pcm + more)), f0, p0);
    LastChunkRead(pcm, more, Format(AudioFormatPcm, NumChannels, SampleRate, BitsPerSample), p0);
  }

  /** A written file, and whatever follows it, split at the RIFF header. */
  lemma WrittenFileLayout(samples: seq<int16>, more: seq<byte>)
    requires 36 + 2 * |samples| < Two32
    ensures WavBytes(samples) + more == RiffTag + (Le32(RiffSize(samples)) + (WaveTag
      + (FmtTag + (Le32(FmtChunkSize) + (FmtFields() + (DataTag + (Le32(|PcmBytes(samples)|) + (PcmBytes(samples) + more))))))))
  {
    WavBytesLayout(samples);
    SizesWithoutWrap(samples);
    AllSamplesWritten(samples);
    AppendNested(RiffTag, Le32(RiffSize(samples)), WaveTag, FmtTag, Le32(FmtChunkSize),
      FmtFields(), DataTag, Le32(|PcmBytes(samples)|), PcmBytes(samples), more);
  }

  /** Round trip: a file `WriteWav` wrote parses back to PCM, mono,
      16 kHz, 16 bits and exactly the bytes of the samples, whatever
      follows it and whatever the `WavInfo` held before. */
  lemma WrittenFileParses(samples: seq<int16>, more: seq<byte>, f0: Format, p0: seq<byte>)
    requires 36 + 2 * |samples| < Two32
    ensures ParseWav(WavBytes(samples) + more, f0, p0)
      == Parsed(true, Format(AudioFormatPcm, NumChannels, SampleRate, BitsPerSample), PcmBytes(samples))
  {
    var pcm := PcmBytes(samples);
    var chunks := FmtTag + (Le32(FmtChunkSize) + (FmtFields() + (DataTag + (Le32(|pcm|) + (pcm + more)))));
    WrittenFileLayout(samples, more);
    HeaderAccepted(WavBytes(samples) + more, Le32(RiffSize(samples)), chunks, f0, p0);
    WrittenChunksRead(pcm, more, f0, p0);
  }
}
