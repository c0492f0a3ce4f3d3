/**
 * The canonical 44-byte RIFF/WAVE header (Microsoft RIFF WAVE format,
 * PCM "fmt " chunk of 16 bytes followed by the "data" chunk) that both
 * `WriteWav` copies write, and the little-endian codecs it is built from.
 * The host the programs run on is little-endian, so the raw memory writes
 * of the source are the little-endian encodings here.
 */
module Wav {
  newtype byte = x: int | 0 <= x < 256
  newtype int16 = x: int | -0x8000 <= x < 0x8000

  const Two16: nat := 0x1_0000
  const Two32: nat := 0x1_0000_0000

  // ---------------------------------------------------------------------
  // Little-endian integers

  /** The value of little-endian bytes. */
  function LeValue(bs: seq<byte>): nat
  {
    if bs == [] then 0 else bs[0] as nat + 256 * LeValue(bs[1..])
  }

  function Le16(x: nat): (r: seq<byte>)
    requires x < Two16
    ensures |r| == 2 && LeValue(r) == x
  {
    var r := [(x % 256) as byte, (x / 256) as byte];
    LeValuePair(r);
    r
  }

  function Le32(x: nat): (r: seq<byte>)
    requires x < Two32
    ensures |r| == 4 && LeValue(r) == x
  {
    var lo := Le16(x % Two16);
    var hi := Le16(x / Two16);
    LeAppend(lo, hi);
    lo + hi
  }

  lemma {:induction false} LeAppend(a: seq<byte>, b: seq<byte>)
    requires |a| == 2
    ensures LeValue(a + b) == LeValue(a) + Two16 * LeValue(b)
  {
    LeValuePair(a);
    assert (a + b)[0] == a[0];
    assert (a + b)[1..] == [a[1]] + b;
    assert ([a[1]] + b)[1..] == b;
    assert LeValue([a[1]] + b) == a[1] as nat + 256 * LeValue(b);
  }

  lemma LeValuePair(r: seq<byte>)
    requires |r| == 2
    ensures LeValue(r) == r[0] as nat + 256 * r[1] as nat
  {
    assert r[1..][1..] == [];
    assert LeValue(r[1..]) == r[1] as nat + 256 * LeValue(r[1..][1..]);
  }

  // ---------------------------------------------------------------------
  // Samples

  /** Two's complement of a sample, as the host stores it. */
  function SampleBytes(v: int16): (r: seq<byte>)
    ensures |r| == 2
  {
    Le16(if v < 0 then v as int + Two16 else v as int)
  }

  /** The sample stored in two little-endian bytes. */
  function SampleOf(lo: byte, hi: byte): int16
  {
    var u := lo as int + 256 * hi as int;
    if u >= 0x8000 then (u - Two16) as int16 else u as int16
  }

  /** The bytes of consecutive samples. */
  function PcmBytes(samples: seq<int16>): (r: seq<byte>)
    ensures |r| == 2 * |samples|
  {
    if samples == [] then [] else SampleBytes(samples[0]) + PcmBytes(samples[1..])
  }

  /** The samples stored in a byte buffer; an odd trailing byte is not a
      sample. */
  function Samples(bs: seq<byte>): (r: seq<int16>)
    ensures |r| == |bs| / 2
  {
    if |bs| < 2 then [] else [SampleOf(bs[0], bs[1])] + Samples(bs[2..])
  }

  lemma SampleRoundTrip(v: int16)
    ensures var b := SampleBytes(v); SampleOf(b[0], b[1]) == v
  {
  }

  /** Reading back the bytes of samples gives the samples. */
  lemma {:induction false} SamplesOfPcmBytes(samples: seq<int16>)
    ensures Samples(PcmBytes(samples)) == samples
  {
    if samples != [] {
      var b := SampleBytes(samples[0]);
      SampleRoundTrip(samples[0]);
      assert (b + PcmBytes(samples[1..]))[2..] == PcmBytes(samples[1..]);
      SamplesOfPcmBytes(samples[1..]);
    }
  }

  /** Samples of concatenated even-length buffers concatenate. */
  lemma {:induction false} SamplesAppend(a: seq<byte>, b: seq<byte>)
    requires |a| % 2 == 0
    ensures Samples(a + b) == Samples(a) + Samples(b)
  {
    if |a| >= 2 {
      assert (a + b)[2..] == a[2..] + b;
      SamplesAppend(a[2..], b);
    } else {
      assert a + b == b;
    }
  }

  // ---------------------------------------------------------------------
  // The header

  /** Four ASCII characters as bytes. */
  function Tag(s: string): (r: seq<byte>)
    requires |s| == 4 && forall i :: 0 <= i < 4 ==> s[i] as int < 256
    ensures |r| == 4 && forall i :: 0 <= i < 4 ==> r[i] as int == s[i] as int
  {
    [s[0] as int as byte, s[1] as int as byte, s[2] as int as byte, s[3] as int as byte]
  }

  const RiffTag: seq<byte> := Tag("RIFF")
  const WaveTag: seq<byte> := Tag("WAVE")
  const FmtTag: seq<byte> := Tag("fmt ")
  const DataTag: seq<byte> := Tag("data")

  const AudioFormatPcm: nat := 1
  const NumChannels: nat := 1
  const SampleRate: nat := 16000
  const BitsPerSample: nat := 16
  const FmtChunkSize: nat := 16
  const ByteRate: nat := SampleRate * NumChannels * BitsPerSample / 8
  const BlockAlign: nat := NumChannels * BitsPerSample / 8
  const HeaderSize: nat := 44

  /** `data_size`: the byte count of the samples, truncated to 32 bits. */
  function DataSize(samples: seq<int16>): nat
  {
    (2 * |samples|) % Two32
  }

  /** `riff_size`: 36 plus the data size, in 32-bit arithmetic. */
  function RiffSize(samples: seq<int16>): nat
  {
    (36 + DataSize(samples)) % Two32
  }

  /** The file `WriteWav` produces, field by field; of the samples,
      exactly `data_size` bytes are written. */
  function WavBytes(samples: seq<int16>): seq<byte>
  {
    RiffTag + Le32(RiffSize(samples)) + WaveTag
      + FmtTag + Le32(FmtChunkSize) + Le16(AudioFormatPcm) + Le16(NumChannels)
      + Le32(SampleRate) + Le32(ByteRate) + Le16(BlockAlign) + Le16(BitsPerSample)
      + DataTag + Le32(DataSize(samples)) + PcmBytes(samples)[..DataSize(samples)]
  }

  /** Writes the header fields in order, then the sample bytes. Opening the
      output file is not part of this model. */
  method WriteWav(samples: seq<int16>) returns (file: seq<byte>)
    ensures file == WavBytes(samples)
  {
    var dataSize := (2 * |samples|) % Two32;
    var riffSize := (36 + dataSize) % Two32;
    var audioFormat := 1;
    var numChannels := 1;
    var sampleRate := 16000;
    var bitsPerSample := 16;
    var byteRate := sampleRate * numChannels * bitsPerSample / 8;
    var blockAlign := numChannels * bitsPerSample / 8;
    file := RiffTag;
    file := file + Le32(riffSize);
    file := file + WaveTag;
    file := file + FmtTag;
    var fmtChunkSize := 16;
    file := file + Le32(fmtChunkSize);
    file := file + Le16(audioFormat);
    file := file + Le16(numChannels);
    file := file + Le32(sampleRate);
    file := file + Le32(byteRate);
    file := file + Le16(blockAlign);
    file := file + Le16(bitsPerSample);
    file := file + DataTag;
    file := file + Le32(dataSize);
    file := file + PcmBytes(samples)[..dataSize];
  }

  /** The sixteen bytes of the "fmt " chunk body. */
  function FmtFields(): (r: seq<byte>)
    ensures |r| == 16
  {
    Le16(AudioFormatPcm) + (Le16(NumChannels) + (Le32(SampleRate) + (Le32(ByteRate)
      + (Le16(BlockAlign) + Le16(BitsPerSample)))))
  }

  /** The file is the 44-byte header followed by the `data_size` sample
      bytes: "RIFF", the RIFF size, "WAVE", a 16-byte "fmt " chunk, then
      the "data" chunk header. */
  lemma WavBytesLayout(samples: seq<int16>)
    ensures WavBytes(samples) == RiffTag + (Le32(RiffSize(samples)) + (WaveTag
      + (FmtTag + (Le32(FmtChunkSize) + (FmtFields()
      + (DataTag + (Le32(DataSize(samples)) + PcmBytes(samples)[..DataSize(samples)])))))))
    ensures |WavBytes(samples)| == HeaderSize + DataSize(samples)
  {
    var riff, riffSize, wave, fmt, fmtSize := RiffTag, Le32(RiffSize(samples)), WaveTag, FmtTag, Le32(FmtChunkSize);
    var f1, f2, f3, f4, f5, f6 := Le16(AudioFormatPcm), Le16(NumChannels), Le32(SampleRate), Le32(ByteRate), Le16(BlockAlign), Le16(BitsPerSample);
    var data, dataSize, body := DataTag, Le32(DataSize(samples)), PcmBytes(samples)[..DataSize(samples)];
    var tail := data + (dataSize + body);
    calc {
      WavBytes(samples);
      riff + riffSize + wave + fmt + fmtSize + f1 + f2 + f3 + f4 + f5 + f6 + data + dataSize + body;
      { Assoc(riff + riffSize + wave + fmt + fmtSize + f1 + f2 + f3 + f4 + f5 + f6 + data, dataSize, body); }
      riff + riffSize + wave + fmt + fmtSize + f1 + f2 + f3 + f4 + f5 + f6 + data + (dataSize + body);
      { Assoc(riff + riffSize + wave + fmt + fmtSize + f1 + f2 + f3 + f4 + f5 + f6, data, dataSize + body); }
      riff + riffSize + wave + fmt + fmtSize + f1 + f2 + f3 + f4 + f5 + f6 + tail;
      { FieldsThen(f1, f2, f3, f4, f5, f6, riff + riffSize + wave + fmt + fmtSize, tail); }
      riff + riffSize + wave + fmt + fmtSize + (FmtFields() + tail);
      { Assoc(riff + riffSize + wave + fmt, fmtSize, FmtFields() + tail);
        Assoc(riff + riffSize + wave, fmt, fmtSize + (FmtFields() + tail));
        Assoc(riff + riffSize, wave, fmt + (fmtSize + (FmtFields() + tail)));
        Assoc(riff, riffSize, wave + (fmt + (fmtSize + (FmtFields() + tail)))); }
      riff + (riffSize + (wave + (fmt + (fmtSize + (FmtFields() + tail)))));
    }
  }

  lemma Assoc(x: seq<byte>, y: seq<byte>, z: seq<byte>)
    ensures x + y + z == x + (y + z)
  {
  }

  lemma FieldsThen(f1: seq<byte>, f2: seq<byte>, f3: seq<byte>, f4: seq<byte>, f5: seq<byte>, f6: seq<byte>,
                   head: seq<byte>, tail: seq<byte>)
    requires f1 + (f2 + (f3 + (f4 + (f5 + f6)))) == FmtFields()
    ensures head + f1 + f2 + f3 + f4 + f5 + f6 + tail == head + (FmtFields() + tail)
  {
    Assoc(head + f1 + f2 + f3 + f4 + f5, f6, tail);
    Assoc(head + f1 + f2 + f3 + f4, f5, f6 + tail);
    Assoc(head + f1 + f2 + f3, f4, f5 + (f6 + tail));
    Assoc(head + f1 + f2, f3, f4 + (f5 + (f6 + tail)));
    Assoc(head + f1, f2, f3 + (f4 + (f5 + (f6 + tail))));
    Assoc(head, f1, f2 + (f3 + (f4 + (f5 + (f6 + tail)))));
    Assoc(f5, f6, tail);
    Assoc(f4, f5 + f6, tail);
    Assoc(f3, f4 + (f5 + f6), tail);
    Assoc(f2, f3 + (f4 + (f5 + f6)), tail);
    Assoc(f1, f2 + (f3 + (f4 + (f5 + f6))), tail);
  }

  /** Below 4 GiB of samples nothing wraps: the RIFF size is `36 + 2n`,
      and (`AllSamplesWritten`) every sample byte is written. */
  lemma SizesWithoutWrap(samples: seq<int16>)
    requires 36 + 2 * |samples| < Two32
    ensures DataSize(samples) == 2 * |samples| && RiffSize(samples) == 36 + 2 * |samples|
  {
    var n := 2 * |samples|;
    SmallMod(n);
    SmallMod(36 + n);
  }

  lemma AllSamplesWritten(samples: seq<int16>)
    requires 36 + 2 * |samples| < Two32
    ensures PcmBytes(samples)[..DataSize(samples)] == PcmBytes(samples)
  {
    SizesWithoutWrap(samples);
    WholePrefix(PcmBytes(samples), DataSize(samples));
  }

  lemma WholePrefix(p: seq<byte>, n: nat)
    requires n == |p|
    ensures p[..n] == p
  {
  }

  lemma SmallMod(x: nat)
    requires x < Two32
    ensures x % Two32 == x
  {
  }
}
