/**
 * The microphone test: join the robot's audio multicast group, collect
 * 16-bit samples from the datagrams until five seconds of audio or ten
 * seconds of wall time have passed, then save them as a WAV file and play
 * them back. Sockets and the clock are inputs: `Setup` records which
 * socket calls succeed, and each `Rx` is one pass of the receive loop with
 * the clock reading taken at its start and what `recvfrom` delivered.
 */
module MicRecord {
  import opened Wrappers
  import opened Wav
  import opened WavReader

  const WavSeconds: nat := 5
  const MicSampleRate: nat := 16000
  const BytesPerSample: nat := 2

  /** Bytes of a full recording. */
  const WavLen: nat := MicSampleRate * BytesPerSample * WavSeconds

  /** Bytes of the receive buffer: 160 ms of audio. */
  const WavLenOnce: nat := MicSampleRate * BytesPerSample * 160 / 1000

  /** Wall time after which recording stops. */
  const TimeoutMs: int := 10000

  /** A full recording is five seconds of 16 kHz mono 16-bit audio, and the
      receive buffer holds 160 ms of it. */
  lemma BufferSizes()
    ensures WavLen == 160000 && WavLenOnce == 5120
    ensures WavLen == WavSeconds * MicSampleRate * BytesPerSample
    ensures WavLenOnce * 1000 == 160 * MicSampleRate * BytesPerSample
  {
  }

  // ---------------------------------------------------------------------
  // Socket setup

  /** The outcome of each socket call of the setup, in order. */
  datatype Setup = Setup(
    socketOk: bool,        // socket()
    bindOk: bool,          // bind() to port 5555
    groupParsed: bool,     // inet_pton() of the group address
    localIp: string,       // the interface's IPv4 address, or "" if none
    ifIndex: nat,          // if_nametoindex(), 0 when unknown
    multicastIfOk: bool,   // setsockopt(IP_MULTICAST_IF)
    joinOk: bool,          // setsockopt(IP_ADD_MEMBERSHIP)
    timeoutOk: bool)       // setsockopt(SO_RCVTIMEO)

  /** The setup reaches the receive loop: every step but the outgoing
      interface and the receive timeout, whose failures are only logged,
      must succeed. */
  predicate Joined(s: Setup) {
    s.socketOk && s.bindOk && s.groupParsed && s.localIp != [] && s.ifIndex != 0 && s.joinOk
  }

  // ---------------------------------------------------------------------
  // The receive loop

  /** One pass of the loop: the clock reading, then the datagram
      `recvfrom` returned, or `None` when it returned zero or less. */
  datatype Rx = Rx(nowMs: int, datagram: Option<seq<byte>>)

  /** The bytes a pass stores: a datagram longer than the buffer is cut to
      its size. */
  function Received(rx: Rx): (r: seq<byte>)
    ensures |r| <= WavLenOnce
  {
    match rx.datagram
    case None => []
    case Some(d) => if |d| <= WavLenOnce then d else d[..WavLenOnce]
  }

  /** The samples and the byte count collected from pass `i` on, having
      collected `total` bytes so far. */
  function Recording(rxs: seq<Rx>, i: nat, startMs: int, total: nat): (seq<int16>, nat)
    decreases |rxs| - i
  {
    if total >= WavLen || i >= |rxs| || rxs[i].nowMs - startMs >= TimeoutMs then ([], total)
    else
      var got := Received(rxs[i]);
      var rest := Recording(rxs, i + 1, startMs, total + |got|);
      (Samples(got) + rest.0, rest.1)
  }

  /** What the loop has collected after `i` passes: `pcm` and `total`
      are the part of the recording that precedes the rest from pass `i`. */
  predicate Collected(rxs: seq<Rx>, startMs: int, i: nat, pcm: seq<int16>, total: nat) {
    var rest := Recording(rxs, i, startMs, total);
    Recording(rxs, 0, startMs, 0) == (pcm + rest.0, rest.1)
  }

  /** `RecordMicPcm`. The last pass must be at least ten seconds after
      `startMs`, so that the loop ends within `rxs`. */
  method RecordMicPcm(setup: Setup, startMs: int, rxs: seq<Rx>) returns (pcm: seq<int16>, totalBytes: nat)
    requires |rxs| > 0 && rxs[|rxs| - 1].nowMs - startMs >= TimeoutMs
    ensures !Joined(setup) ==> pcm == [] && totalBytes == 0
    ensures Joined(setup) ==> (pcm, totalBytes) == Recording(rxs, 0, startMs, 0)
  {
    pcm, totalBytes := [], 0;
    if !setup.socketOk || !setup.bindOk || !setup.groupParsed || setup.localIp == [] || setup.ifIndex == 0 || !setup.joinOk {
      return;
    }
    var i := 0;
    Started(rxs, startMs);
    while totalBytes < WavLen
      invariant i < |rxs|
      invariant Collected(rxs, startMs, i, pcm, totalBytes)
      decreases |rxs| - i
    {
      if rxs[i].nowMs - startMs >= TimeoutMs {
        break;
      }
      var got := Received(rxs[i]);
      var len := |got|;
      Appended(rxs, startMs, i, pcm, totalBytes);
      if len > 0 {
        pcm := pcm + Samples(got);
        totalBytes := totalBytes + len;
      }
      i := i + 1;
    }
    Finished(rxs, startMs, i, pcm, totalBytes);
  }

  lemma Started(rxs: seq<Rx>, startMs: int)
    ensures Collected(rxs, startMs, 0, [], 0)
  {
    assert [] + Recording(rxs, 0, startMs, 0).0 == Recording(rxs, 0, startMs, 0).0;
  }

  /** One pass of the loop: its samples move from the part still to come
      to the part collected; an empty pass collects nothing. */
  lemma Appended(rxs: seq<Rx>, startMs: int, i: nat, pcm: seq<int16>, total: nat)
    requires i < |rxs| && total < WavLen && rxs[i].nowMs - startMs < TimeoutMs
    requires Collected(rxs, startMs, i, pcm, total)
    ensures var got := Received(rxs[i]);
      Collected(rxs, startMs, i + 1, if |got| > 0 then pcm + Samples(got) else pcm, total + |got|)
  {
    var got := Received(rxs[i]);
    var next := Recording(rxs, i + 1, startMs, total + |got|);
    assert pcm + (Samples(got) + next.0) == pcm + Samples(got) + next.0;
    if |got| == 0 {
      assert pcm + Samples(got) == pcm;
    }
  }

  /** When the loop stops, what was collected is the whole recording. */
  lemma Finished(rxs: seq<Rx>, startMs: int, i: nat, pcm: seq<int16>, total: nat)
    requires i < |rxs| && Collected(rxs, startMs, i, pcm, total)
    requires total >= WavLen || rxs[i].nowMs - startMs >= TimeoutMs
    ensures (pcm, total) == Recording(rxs, 0, startMs, 0)
  {
    assert pcm + [] == pcm;
  }

  /** The loop never overshoots by more than one buffer, and every two
      bytes received give one sample (an odd trailing byte is dropped). */
  lemma {:induction false} RecordingBounds(rxs: seq<Rx>, i: nat, startMs: int, total: nat)
    requires total < WavLen + WavLenOnce
    decreases |rxs| - i
    ensures var r := Recording(rxs, i, startMs, total);
      total <= r.1 < WavLen + WavLenOnce && 2 * |r.0| <= r.1 - total
  {
    if !(total >= WavLen || i >= |rxs| || rxs[i].nowMs - startMs >= TimeoutMs) {
      var got := Received(rxs[i]);
      RecordingBounds(rxs, i + 1, startMs, total + |got|);
    }
  }

  // ---------------------------------------------------------------------
  // main

  /** A call the test makes on the audio client once it is set up. */
  datatype ClientCall =
    | GetVolume
    | PlayStream(appName: string, streamId: string, pcm: seq<byte>)
    | PlayStop(streamId: string)

  /** What the test leaves behind: the exit code, the saved file (absent
      when nothing was recorded) and the client calls, in order. */
  datatype MicTest = MicTest(code: int, saved: Option<seq<byte>>, calls: seq<ClientCall>)

  /** `main` of the microphone test. `streamId` is the clock reading the
      source turns into the playback stream's id. */
  method MicTestMain(argc: nat, setup: Setup, startMs: int, rxs: seq<Rx>, streamId: string) returns (r: MicTest)
    requires |rxs| > 0 && rxs[|rxs| - 1].nowMs - startMs >= TimeoutMs
    ensures argc < 2 ==> r == MicTest(1, None, [])
    ensures argc >= 2 && (!Joined(setup) || Recording(rxs, 0, startMs, 0).0 == []) ==> r == MicTest(0, None, [GetVolume])
    ensures argc >= 2 && Joined(setup) && Recording(rxs, 0, startMs, 0).0 != [] ==>
      var pcm := Recording(rxs, 0, startMs, 0).0;
      r == MicTest(0, Some(WavBytes(pcm)), [GetVolume, PlayStream("mic_test", streamId, PcmBytes(pcm)), PlayStop(streamId)])
  {
    if argc < 2 {
      return MicTest(1, None, []);
    }
    var calls := [GetVolume];
    var pcm, totalBytes := RecordMicPcm(setup, startMs, rxs);
    if pcm == [] {
      return MicTest(0, None, calls);
    }
    var file := WriteWav(pcm);
    calls := calls + [PlayStream("mic_test", streamId, PcmBytes(pcm))];
    calls := calls + [PlayStop(streamId)];
    return MicTest(0, Some(file), calls);
  }

  /** The file the test saves reads back, through the playback test's
      reader, as exactly the recorded samples in a format it plays. */
  lemma SavedRecordingReadsBack(rxs: seq<Rx>, startMs: int)
    ensures var pcm := Recording(rxs, 0, startMs, 0).0;
      var p := ParseWav(WavBytes(pcm), Format(0, 0, 0, 0), []);
      p.ok && p.format == Format(1, 1, 16000, 16) && Samples(p.pcm) == pcm
  {
    var pcm := Recording(rxs, 0, startMs, 0).0;
    RecordingBounds(rxs, 0, startMs, 0);
    WrittenFileParses(pcm, [], Format(0, 0, 0, 0), []);
    assert WavBytes(pcm) + [] == WavBytes(pcm);
    SamplesOfPcmBytes(pcm);
  }
}
