# Voice, audio and mode tools of a humanoid robot, modelled in Dafny

The repository holds small command-line programs that drive a humanoid
robot's audio and locomotion clients. This project models the parts of
them that compute something:

- **The conversational executable** (`conversational/conv_main.cpp`):
  - the JSON string escaper and the chat message array writer;
  - the reply decoder that pulls the first `"content":` string out of a
    chat-service response;
  - the bounded conversation history (at most 10 messages, oldest evicted
    first);
  - transcript normalisation;
  - the 48 kHz to 16 kHz decimation;
  - the utterance segmenter, which waits for a loud chunk, keeps chunks
    from there on, and stops on a quiet chunk, a capture failure or after
    five chunks;
  - one round of the main loop: ignore, end, clear the history, or chat.
- **The arm-action executable** (`audio_control/asr_arm_action.cpp`):
  - `Normalize` (the same code as in the conversational executable,
    defined once in module `Text`);
  - `TrimPunctuation`;
  - the tiered voice-command matcher `ProcessCommandText`, as a function
    from a transcript to the decision it takes;
  - the 44-byte RIFF/WAVE writer `WriteWav`.
- **The playback test** (`audio_control/play_test.cpp`):
  - the chunk-walking RIFF reader `ReadWavFile`, which fills a `WavInfo`
    object in place through a stream with the standard library's
    short-read rules;
  - the format check;
  - the playback loop, which sends at most 96000 bytes per call and stops
    at an interrupt.
- **The microphone test** (`audio_control/mic_test.cpp`):
  - its size constants;
  - the setup failures that return no audio;
  - the receive loop over the datagrams and clock readings it sees;
  - saving and playing back what it recorded.
- **The mode tool** (`control/set_mode.cpp`):
  - the FSM id descriptions;
  - `main`'s argument handling. Help is checked first. Options then run
    left to right, and the first option that is unknown or makes no call
    decides the exit. `std::stoi` is modelled exactly.

Modules:

| module | file | covers |
|---|---|---|
| `Text` | text.dfy | `Normalize`, `TrimPunctuation` |
| `Command` | command.dfy | `ProcessCommandText` |
| `Json` | json.dfy | `EscapeJson`, `BuildMessagesJson`, `ExtractContentFromResponse` |
| `Conversation` | conversation.dfy | `AddToHistory`, the main loop's classification |
| `Capture` | capture.dfy | `DownsampleTo16k`, `RecordLocalMicPcmDynamic` |
| `Wav` | wav.dfy | `WriteWav` (both copies), little-endian fields, samples |
| `WavReader` | wav_reader.dfy | `ReadWavFile`, and the write-then-read round trip |
| `Playback` | playback.dfy | the playback test's `main` |
| `MicRecord` | mic.dfy | the microphone test's `RecordMicPcm` and `main` |
| `SetMode` | set_mode.dfy | `get_fsm_description`, `main` |

Modelling choices:

- Each `char` of a Dafny `string` stands for one byte of a C++
  `std::string`, and character classes are those of the "C" locale.
- Bytes are a `byte` newtype and samples an `int16` newtype.
- The host is little-endian, so the raw memory writes of the WAV writer
  are little-endian encodings.
- The 32-bit truncation of `data_size` and `riff_size` is written out.
- External engines become inputs:
  - the recogniser's transcript;
  - the chat service's reply;
  - the denoiser's samples, mean voice probability and RMS level per chunk;
  - the socket calls' results;
  - `recvfrom`'s datagrams and the clock readings;
  - the interrupt.
- Client calls made after the client is set up (arm actions, volume,
  playback, LEDs, locomotion) are recorded as values, in the order they
  are made. The setup calls themselves (`ChannelFactory::Init`,
  `client.Init`, `SetTimeout`) are not recorded.

Both halves of each pairing are modelled and connected by proofs. For
example:

- escaping then decoding gives the input back;
- a file written by `WriteWav` parses back to its samples and passes the
  playback format check;
- the playback chunks concatenate back to the samples;
- `Stoi` reads back every `int` written in decimal.

The methods that mirror the source's loops are each proved equal to a
specification function, and the properties are proved about those
functions.

Two behaviours of the source are kept as they are:

- `ReadWavFile` sets `pcm` from one "data" chunk. It accepts a "data" chunk cut short by the end of the file and pads it with zeros (`WavReader.TruncatedDataZeroFilled`).
- A free-form command such as "execute wave ." keeps the space before the final punctuation in the action name.

## Model

| member | source | states |
|---|---|---|
| Text.Lower | conversational/conv_main.cpp:289 | `tolower` in the C locale: the result is never an upper-case letter, is whitespace exactly when the input is, and only capitals change |
| Text.Normalize | conversational/conv_main.cpp:277-296 | the loop with the `last_space` flag computes `Normalized(input)`: runs of whitespace become one space, letters are lowercased, a trailing space is dropped |
| Text.ScanShape | conversational/conv_main.cpp:280-291 | at every step of the scan the output is lowercase, uses only ' ' as whitespace, does not start with a space, has no doubled space, and `last_space` says whether it ends in a space (or is empty) |
| Text.NormalizedIsNormalForm | conversational/conv_main.cpp:277-296 | the result has no leading or trailing space, no two consecutive spaces, no whitespace but ' ' and no upper-case letter |
| Text.ScanOfNormalForm | conversational/conv_main.cpp:280-291 | scanning text already in normal form copies it unchanged |
| Text.NormalizedFixesNormalForm | conversational/conv_main.cpp:277-296 | text in normal form is left unchanged |
| Text.NormalizeIdempotent | audio_control/asr_arm_action.cpp:57-76 | normalising twice gives the same as normalising once |
| Text.ScanKeepsLetters | conversational/conv_main.cpp:280-291 | the scan keeps every non-whitespace character, lowercased and in order |
| Text.NormalizeKeepsLetters | audio_control/asr_arm_action.cpp:57-76 | normalising removes only whitespace: the other characters survive, lowercased and in order |
| Text.TrimPunctuation | audio_control/asr_arm_action.cpp:78-90 | the loop that moves `end` backwards returns `PunctTrimmed(input)` |
| Text.PunctTrimmedSpec | audio_control/asr_arm_action.cpp:78-90 | the result is a prefix of the input that does not end in `. , ! ? ; :`, and every character removed is one of them: exactly the maximal trailing run goes |
| Text.TrimPunctuationIdempotent | audio_control/asr_arm_action.cpp:78-90 | trimming twice is the same as trimming once |
| Text.TrimKeepsInnerPunctuation | audio_control/asr_arm_action.cpp:80-88 | `"stop. now."` becomes `"stop. now"`: punctuation inside the text stays |
| Command.ProcessCommandText | audio_control/asr_arm_action.cpp:92-145 | without a client nothing is dispatched. An id dispatched is the hug id 19 or one of the table's values. The "i miss you" rule speaks exactly when there is an audio client, then sends id 19. A name passed through is non-empty, not a key of the table, and does not end in punctuation |
| Command.HugPhraseWins | audio_control/asr_arm_action.cpp:98-102 | "give me a hug" or "give me a hug please" sends id 19, whatever the table holds |
| Command.MissYouBeatsLaterRules | audio_control/asr_arm_action.cpp:103-112 | "i miss you" anywhere speaks and then sends id 19, ahead of the throw-money and execute rules |
| Command.FixedNameRules | audio_control/asr_arm_action.cpp:113-125 | the four throw-money phrases send "Throw_money"; otherwise the exact scratch-head phrases send "scratch_head" |
| Command.ExecuteRule | audio_control/asr_arm_action.cpp:126-144 | past the fixed phrases: without the "execute " prefix nothing happens; an empty name reports a missing name; a name in the table goes by its id, and any other name goes by name |
| Command.DecisionIgnoresSpacingAndCase | audio_control/asr_arm_action.cpp:96-97 | the decision for a transcript equals the decision for its normalised form |
| Json.HexDigit | conversational/conv_main.cpp:96-99 | `%x` digits are `0`-`9` or lowercase `a`-`f` |
| Json.EscapedAppend | conversational/conv_main.cpp:72-105 | escaping works character by character: the escape of a concatenation is the concatenation of the escapes |
| Json.EscapeJson | conversational/conv_main.cpp:69-107 | the loop over the input emits `Escaped(input)`: `"` and `\` get a backslash, `\b \f \n \r \t` their short escapes, other bytes below 0x20 become `\u00xx`, and every other byte passes through |
| Json.EscapedSnoc | conversational/conv_main.cpp:72-105 | one more input character appends its own escape |
| Json.EscapedHasNoControl | conversational/conv_main.cpp:95-102 | the output contains no byte below 0x20 |
| Json.EscapeCharThenBody | conversational/conv_main.cpp:73-104 | each character's escape, before a well-formed string body, gives a well-formed body |
| Json.EscapedIsJsonStringBody | conversational/conv_main.cpp:69-107 | the output is always a well-formed JSON string body (section 7 of RFC 8259): every `"` and `\` of the input comes out behind a backslash |
| Json.Find | conversational/conv_main.cpp:125 | `find` returns a position at or after the start where the marker occurs |
| Json.FindIsFirst | conversational/conv_main.cpp:124-128 | `find` returns the first occurrence, and nothing exactly when there is none |
| Json.SkipJsonSpace | conversational/conv_main.cpp:131-135 | the whitespace loop stops at the end or at a character that is not space, tab, newline or carriage return |
| Json.SkipJsonSpaceSkipsSpace | conversational/conv_main.cpp:131-135 | everything it passes over is whitespace |
| Json.DecodeStep | conversational/conv_main.cpp:151-189 | one step of the decoding loop: an escape with a following character decodes to one character and skips two, anything else is copied |
| Json.DecodeAdvance | conversational/conv_main.cpp:151-189 | a pass of the loop keeps "decoded so far, then decoding the rest" equal to the whole decoding |
| Json.DecodeQuoted | conversational/conv_main.cpp:149-191 | the loop returns `DecodeString` of the text after the opening quote: characters up to the first unescaped `"` or the end, with `\" \\ \n \r \t \b \f` decoded and any other escaped character kept as itself |
| Json.ExtractContentFromResponse | conversational/conv_main.cpp:123-192 | returns `ExtractedContent(json)`: the decoded string after the first `"content":` and its whitespace, or "" |
| Json.ExtractWithoutMarker | conversational/conv_main.cpp:124-128 | without a `"content":` marker the result is "" |
| Json.ExtractNotQuoted | conversational/conv_main.cpp:137-147 | when only whitespace follows the first marker, or the value starts with `n` (null), or the value does not start with a quote, the result is "" |
| Json.DecodeEscapedChar | conversational/conv_main.cpp:156-186 | the decoder turns the escaper's output for one character back into that character (for every character but the `\u00xx` ones) |
| Json.DecodeEscaped | conversational/conv_main.cpp:151-189 | decoding the escape of a string, followed by a closing quote, gives the string back |
| Json.ExtractAfterMarker | conversational/conv_main.cpp:123-149 | a response that starts with the marker and a quote is decoded from just after the quote |
| Json.ExtractAfterEscape | conversational/conv_main.cpp:123-192 | round trip: extracting from `"content":"` + EscapeJson(s) + `"` gives `s` back, for every `s` whose only control characters are `\b \f \n \r \t` |
| Json.JoinSnoc | conversational/conv_main.cpp:112-118 | appending one element to the list adds a separator and the element |
| Json.Objects | conversational/conv_main.cpp:116-117 | the i-th object is the i-th message written as `{"role":"…","content":"…"}`, with only the content escaped |
| Json.BuildMessagesJson | conversational/conv_main.cpp:109-121 | the stream writes produce `MessagesJson(messages)`: `[`, the objects separated by `,`, `]` |
| Json.JoinStep | conversational/conv_main.cpp:112-118 | a pass of the loop writes a comma unless it is the first, then the next object |
| Json.JoinElementAt | conversational/conv_main.cpp:112-118 | the i-th element stands at its offset in the joined text |
| Json.JoinSeparatorBefore | conversational/conv_main.cpp:113-115 | every element but the first comes right after a separator |
| Json.JoinEndsWithLast | conversational/conv_main.cpp:112-119 | the joined text ends with the last element |
| Json.EmptyMessagesJson | conversational/conv_main.cpp:111-119 | no messages give `[]` |
| Json.MessagesJsonBrackets | conversational/conv_main.cpp:111-119 | the array opens with `[` and closes with `]` |
| Json.ListElementAt | conversational/conv_main.cpp:116-117 | in the bracketed list, the i-th element stands at its offset |
| Json.ListCommaBefore | conversational/conv_main.cpp:113-115 | in the bracketed list, every element but the first is preceded by a comma: n elements, n-1 commas between them |
| Json.ListEnd | conversational/conv_main.cpp:118-119 | the last element is followed directly by `]` |
| Json.MessagesJsonLayout | conversational/conv_main.cpp:109-121 | the i-th message's object stands at its offset, in input order, after a comma unless it is the first, and the last is followed by `]` |
| Conversation.KeepLast | conversational/conv_main.cpp:272-274 | the window keeps the last `min(n, |s|)` entries of `s` |
| Conversation.History.constructor | conversational/conv_main.cpp:59 | the history starts empty |
| Conversation.History.AddToHistory | conversational/conv_main.cpp:269-275 | after the push and the front erasures the history is the last `min(10, old+1)` entries of the old history plus the new message, and holds at most 10 |
| Conversation.History.Clear | conversational/conv_main.cpp:631-634 | clearing empties the history |
| Conversation.AddOneMessage | conversational/conv_main.cpp:271-274 | adding one message keeps at most 10, ends with the new message, and evicts exactly the oldest one when the history was full |
| Conversation.KeepLastTwice | conversational/conv_main.cpp:642-643 | adding the user message and then the reply keeps the same window as adding both at once |
| Conversation.Classify | conversational/conv_main.cpp:618-637 | shorter than two characters is ignored; the exit words end the loop; the clear words clear the history; everything else is chat (each an if-and-only-if) |
| Conversation.HandleUtterance | conversational/conv_main.cpp:606-646 | one round: empty decimated audio and empty transcripts are skipped; clearing empties the history; a chat round records the user message and the reply within the 10-message bound; nothing else touches the history |
| Conversation.OutcomeIgnoresSpacing | conversational/conv_main.cpp:617-637 | a transcript and its normal form lead to the same outcome |
| Capture.DownsampleTo16k | conversational/conv_main.cpp:381-391 | returns `floor(n/3)` samples with `out[k] == in[3k]` (so empty gives empty) |
| Capture.Onset | conversational/conv_main.cpp:453-460 | the onset, when there is one, is a loud chunk within the first five |
| Capture.SpeechEnd | conversational/conv_main.cpp:461-474 | the end of speech lies between the onset and the five-chunk budget |
| Capture.SamplesSnoc | conversational/conv_main.cpp:458-463 | one more kept chunk appends its samples |
| Capture.WaitStep | conversational/conv_main.cpp:453-460 | a usable chunk that is not loud leaves the segmenter waiting, with nothing kept |
| Capture.StartStep | conversational/conv_main.cpp:454-460 | a loud chunk while waiting starts the utterance with its own samples |
| Capture.SpeakStep | conversational/conv_main.cpp:461-469 | after the onset, a chunk that is not quiet is kept and speech goes on |
| Capture.QuietStep | conversational/conv_main.cpp:462-473 | after the onset, a quiet chunk is kept and ends the utterance (1000 ms of silence reaches the 500 ms stop) |
| Capture.SpeakingEnds | conversational/conv_main.cpp:432-451 | a failed capture, an empty chunk or the end of the five-second budget ends a started utterance with what was kept |
| Capture.WaitingEnds | conversational/conv_main.cpp:478-480 | ending before any loud chunk returns nothing |
| Capture.RecordLocalMicPcmDynamic | conversational/conv_main.cpp:424-483 | the segmenter loop returns `Utterance(chunks)`: nothing without an onset, otherwise every chunk from the onset to the end of speech, in order |
| Capture.UtteranceEmptyIffNoOnset | conversational/conv_main.cpp:453-482 | the result is empty exactly when no loud chunk came first |
| Capture.UtteranceStartsAtOnset | conversational/conv_main.cpp:456-459 | a started utterance begins with the onset chunk's samples |
| Capture.SamplesFront | conversational/conv_main.cpp:458-463 | the samples of consecutive chunks begin with the first chunk's |
| Capture.QuietInputGivesNothing | conversational/conv_main.cpp:453-480 | if no chunk is loud (VAD at the start threshold and RMS at least 1200), nothing is returned |
| Capture.OnsetNeedsLoud | conversational/conv_main.cpp:453-460 | without a loud chunk there is no onset |
| Capture.QuietChunkEndsSpeech | conversational/conv_main.cpp:464-473 | the first quiet chunk after the onset is the last one kept |
| Capture.SpeechEndSkipsSpeech | conversational/conv_main.cpp:464-469 | loud-enough chunks do not end speech |
| Capture.UtteranceWithinBudget | conversational/conv_main.cpp:432 | at most five chunks are read: later ones never matter |
| Capture.OnsetOnPrefix | conversational/conv_main.cpp:432 | the onset depends only on the first five chunks |
| Capture.SpeechEndOnPrefix | conversational/conv_main.cpp:432-475 | the end of speech depends only on the first five chunks |
| Wav.Le16 | audio_control/asr_arm_action.cpp:205-206 | a 16-bit field is two bytes whose little-endian value is the field |
| Wav.Le32 | audio_control/asr_arm_action.cpp:200 | a 32-bit field is four bytes whose little-endian value is the field |
| Wav.LeAppend | audio_control/asr_arm_action.cpp:200 | two bytes followed by more bytes read as the two bytes' value plus 65536 times the value of the rest: a 32-bit field is its low half, then its high half |
| Wav.SampleBytes | audio_control/asr_arm_action.cpp:213 | a sample is stored as two bytes |
| Wav.PcmBytes | audio_control/asr_arm_action.cpp:213 | n samples take 2n bytes |
| Wav.Samples | audio_control/mic_test.cpp:179-181 | a buffer of `len` bytes holds `floor(len/2)` samples |
| Wav.SampleRoundTrip | audio_control/mic_test.cpp:180 | reading back a stored sample's two bytes gives the sample |
| Wav.SamplesOfPcmBytes | audio_control/mic_test.cpp:229-232 | reading back the bytes of samples gives the samples |
| Wav.SamplesAppend | audio_control/mic_test.cpp:181 | the samples of two even-length buffers are those of each, in order |
| Wav.Tag | audio_control/asr_arm_action.cpp:199 | a four-letter tag is written as its four bytes |
| Wav.WriteWav | audio_control/asr_arm_action.cpp:183-214 | the writes produce `WavBytes(samples)`: "RIFF", `36 + data_size`, "WAVE", "fmt ", 16, format 1, 1 channel, 16000 Hz, byte rate 32000, block align 2, 16 bits, "data", `data_size`, then `data_size` sample bytes (all sizes taken mod 2^32) |
| Wav.FmtFields | audio_control/asr_arm_action.cpp:205-210 | the "fmt " body is sixteen bytes |
| Wav.WavBytesLayout | audio_control/mic_test.cpp:85-99 | the file is a 44-byte header in field order, followed by the `data_size` sample bytes |
| Wav.SizesWithoutWrap | audio_control/mic_test.cpp:76-77 | below 4 GiB nothing wraps: `data_size` is 2n and `riff_size` is 36 + 2n |
| Wav.AllSamplesWritten | audio_control/mic_test.cpp:99 | below 4 GiB every sample byte is written |
| WavReader.Read | audio_control/play_test.cpp:106-108 | a read takes the bytes in front. A short read stores what was there and fails the stream. A failed stream reads nothing |
| WavReader.Ignore | audio_control/play_test.cpp:149 | `ignore(n)` skips up to `n` bytes and never fails the stream |
| WavReader.ReadField | audio_control/play_test.cpp:128-139 | reading a field never grows the input |
| WavReader.ReadFmt | audio_control/play_test.cpp:126-143 | reading the "fmt " body never grows the input |
| WavReader.Resize | audio_control/play_test.cpp:146 | `resize(n)` leaves exactly `n` bytes |
| WavReader.ReadData | audio_control/play_test.cpp:144-147 | the "data" body leaves exactly `chunk_size` bytes of samples |
| WavReader.Walk | audio_control/play_test.cpp:116-151 | once found, "fmt " and "data" stay found |
| WavReader.Chunk | audio_control/play_test.cpp:125-150 | a "fmt " chunk sets `fmt_found`; a "data" chunk sets `data_found`; the body never grows the input |
| WavReader.WavInfo.constructor | audio_control/play_test.cpp:24-30 | a fresh `WavInfo` has zero fields and no samples |
| WavReader.ReadWavFile | audio_control/play_test.cpp:96-159 | the result and the fields left in `info` are those of `ParseWav` on the file and the old fields |
| WavReader.ReadChunkBody | audio_control/play_test.cpp:125-150 | one chunk body updates the stream, `info` and the found flags as `Chunk` says |
| WavReader.ReadPrefix | audio_control/play_test.cpp:106 | reading exactly the bytes in front returns them and leaves the rest |
| WavReader.FmtBodyRead | audio_control/play_test.cpp:128-143 | a "fmt " body sets format, channels, rate and bits from its sixteen bytes and skips any extra bytes |
| WavReader.FormatOfFmtFields | audio_control/asr_arm_action.cpp:203-210 | the body the writer emits holds format 1, 1 channel, 16000 Hz, 16 bits |
| WavReader.WalkStep | audio_control/play_test.cpp:117-124 | a complete chunk header moves the walk on to that chunk |
| WavReader.UnknownChunkSkipped | audio_control/play_test.cpp:148-150 | an unrecognised chunk is skipped by its declared size |
| WavReader.FmtChunkRead | audio_control/play_test.cpp:126-143 | a "fmt " chunk sets the format and skips what its size declares beyond 16 bytes |
| WavReader.DataBodyRead | audio_control/play_test.cpp:146-147 | a complete "data" body replaces the sample bytes |
| WavReader.DataChunkRead | audio_control/play_test.cpp:144-147 | a complete "data" chunk becomes the samples |
| WavReader.TruncatedDataZeroFilled | audio_control/play_test.cpp:146-147 | a "data" chunk cut short by the end of the file still gives `chunk_size` bytes: those present, then zeros |
| WavReader.HeaderChecked | audio_control/play_test.cpp:103-112 | parsing fails, leaving `info` as it was, unless bytes 0-3 are "RIFF" and bytes 8-11 are "WAVE" |
| WavReader.HeaderAccepted | audio_control/play_test.cpp:103-116 | a good header hands the bytes after "WAVE" to the chunk walk |
| WavReader.WrittenFmtChunkRead | audio_control/play_test.cpp:126-143 | the written "fmt " chunk sets the supported format |
| WavReader.LastChunkRead | audio_control/play_test.cpp:116-151 | after the format, the "data" chunk gives the samples and the walk stops |
| WavReader.WrittenChunksRead | audio_control/play_test.cpp:116-151 | the written chunks give the format and the samples, and the walk stops after them |
| WavReader.WrittenFileLayout | audio_control/asr_arm_action.cpp:199-213 | a written file, below 4 GiB, is the RIFF header around the "fmt " and "data" chunks with every sample byte |
| WavReader.WrittenFileParses | audio_control/play_test.cpp:96-159 | round trip: any file `WriteWav` wrote, with anything after it, parses as PCM, mono, 16 kHz, 16 bits, with exactly the bytes of the samples |
| Playback.PartitionSpec | audio_control/play_test.cpp:202-217 | chunks are non-empty and at most 96000 bytes; every chunk but the last is full; there are `ceil(n/96000)` of them; they concatenate back to the samples |
| Playback.ConcatSnoc | audio_control/play_test.cpp:209-210 | sending one more chunk extends the bytes sent by that chunk |
| Playback.ChunksSent | audio_control/play_test.cpp:203-206 | without an interrupt every chunk goes; with one, only those before it |
| Playback.PartitionStep | audio_control/play_test.cpp:207-210 | the chunk at `offset` is `min(96000, remaining)` bytes, followed by the partition of the rest |
| Playback.TakeChunk | audio_control/play_test.cpp:207-216 | a pass of the loop keeps "chunks sent, then the partition of the rest" equal to the partition, and the bytes sent equal to the first `offset` bytes |
| Playback.LoopExit | audio_control/play_test.cpp:203-206 | when the loop stops, the chunks sent are the first ones of the partition; without an interrupt, `offset` reached the end |
| Playback.PlayChunks | audio_control/play_test.cpp:202-217 | the loop sends the first `ChunksSent` chunks of the partition in order, their bytes are the first `offset` bytes, and `offset` reaches the end without an interrupt |
| Playback.PlayedInOrder | audio_control/play_test.cpp:202-217 | without an interrupt, the chunks sent are all the samples in order |
| Playback.PlayCalls | audio_control/play_test.cpp:211 | one `PlayStream` call per chunk, in order |
| Playback.PlayTestMain | audio_control/play_test.cpp:162-235 | fewer than 3 arguments, an unreadable file or an unsupported format exits 1 with no client call. Otherwise it exits 0 after the chunks, the stop, the LED sequence (unless interrupted) and the final LED off |
| Playback.WrittenFilePlays | audio_control/play_test.cpp:181-217 | a file `WriteWav` wrote passes the format check and, without an interrupt, is played in full and in order |
| MicRecord.BufferSizes | audio_control/mic_test.cpp:27-32 | `kWavLen` is 160000 bytes (5 s, 16 kHz, 2 bytes) and `kWavLenOnce` is 5120 bytes (160 ms) |
| MicRecord.Received | audio_control/mic_test.cpp:176-177 | a datagram is cut to the 5120-byte buffer |
| MicRecord.RecordMicPcm | audio_control/mic_test.cpp:102-193 | a failed socket, bind, address parse, missing IPv4, unknown interface or failed join returns no samples. Otherwise the loop returns `Recording`: each positive receive appends `floor(len/2)` samples and adds `len` bytes, until 160000 bytes or 10 s |
| MicRecord.Started | audio_control/mic_test.cpp:166-169 | before the loop nothing is collected |
| MicRecord.Appended | audio_control/mic_test.cpp:176-188 | a pass with data moves its samples to the part collected; a pass without data collects nothing |
| MicRecord.Finished | audio_control/mic_test.cpp:170-175 | when the byte count or the clock stops the loop, what was collected is the whole recording |
| MicRecord.RecordingBounds | audio_control/mic_test.cpp:170-182 | the loop overshoots 160000 bytes by less than one buffer, and there are at most half as many samples as bytes |
| MicRecord.MicTestMain | audio_control/mic_test.cpp:196-240 | no interface exits 1 with no client call. Otherwise `GetVolume` is called first. With no audio, nothing is saved or played. With audio, the recording is saved as a WAV file, its bytes go out in one `PlayStream("mic_test", stream_id, …)`, and `PlayStop(stream_id)` follows |
| MicRecord.SavedRecordingReadsBack | audio_control/mic_test.cpp:220-226 | the saved file reads back, through the playback test's reader, as the recorded samples in the supported format |
| SetMode.FsmDescription | control/set_mode.cpp:8-20 | exactly the ids 0, 1, 2, 3, 4, 500, 501 and 801 have a description; every other id is "Unknown" |
| SetMode.SkipSpace | control/set_mode.cpp:106 | `stoi` drops leading whitespace: the rest is a suffix that does not start with whitespace |
| SetMode.DigitCount | control/set_mode.cpp:106 | the digits counted are all digits, and the next character is not one |
| SetMode.Stoi | control/set_mode.cpp:106 | a converted id fits in 32 bits |
| SetMode.DigitsValueAppend | control/set_mode.cpp:106 | one more digit multiplies the value by ten and adds the digit |
| SetMode.Decimal | control/set_mode.cpp:108 | the decimal digits of `n` are digits whose value is `n` |
| SetMode.DigitCountAll | control/set_mode.cpp:106 | a string of digits is counted in full |
| SetMode.StoiReadsDecimal | control/set_mode.cpp:106 | `stoi` reads back every 32-bit `int` written in decimal |
| SetMode.ValueStep | control/set_mode.cpp:105-194 | only a velocity whose text does not start with a number is turned away; an FSM id that does not convert and a height that does not convert throw instead |
| SetMode.Act | control/set_mode.cpp:99-194 | an option that passes a test is turned away only when it is a velocity without a number |
| SetMode.DispatchFirst | control/set_mode.cpp:99-194 | the first test an option passes decides what it does |
| SetMode.DispatchNone | control/set_mode.cpp:195-199 | an option that passes no test is turned away |
| SetMode.FirstMatch | control/set_mode.cpp:99-199 | finds the first test an option passes, or reports that it passes none |
| SetMode.TestsShape | control/set_mode.cpp:99-194 | the velocity test is the only one whose option can be turned away, and no earlier test can pass a `--velocity=` option |
| SetMode.VelocityFirst | control/set_mode.cpp:171 | a `--velocity=` option reaches the velocity test |
| SetMode.OptionRejected | control/set_mode.cpp:171-199 | an option is turned away exactly when it is unknown, or a velocity whose text does not start with a number |
| SetMode.StepsOf | control/set_mode.cpp:96-97 | one step per option |
| SetMode.StepsOfAt | control/set_mode.cpp:96-97 | the step of each option is what that option does |
| SetMode.StepsOfPrefix | control/set_mode.cpp:96-97 | the steps of the first `k` options are the first `k` steps |
| SetMode.RunSteps | control/set_mode.cpp:96-200 | the loop makes at most one call per option, and one for each option when it runs to the end |
| SetMode.SetModeMain | control/set_mode.cpp:62-208 | `main` ends as `SetMode(argv)` says. Fewer than 2 arguments: help, exit 1. A help flag anywhere: help, exit 0, no call. No option: exit 1. Otherwise the option loop decides |
| SetMode.HelpRequested | control/set_mode.cpp:69-74 | the scan finds a help flag exactly when one of the arguments is `--help` or `-h` |
| SetMode.RunOptions | control/set_mode.cpp:92-207 | the option loop, with `command_executed`, ends as `Ending(RunSteps(...))` says, so the "No command executed" exit is never taken |
| SetMode.NextStep | control/set_mode.cpp:96-200 | each pass adds one option's step, and an option that makes no call decides the whole loop |
| SetMode.CallsOf | control/set_mode.cpp:99-194 | when every option makes a call, the calls are those of the options, one each and in order |
| SetMode.AllStepsRun | control/set_mode.cpp:96-200 | options that all make a call run to the end, making their calls in order |
| SetMode.StoppedStaysStopped | control/set_mode.cpp:178-199 | after an early exit, later options change nothing |
| SetMode.FirstFailureStops | control/set_mode.cpp:96-200 | the first option that makes no call stops the loop, after the calls of the options before it |
| SetMode.EndingOfRun | control/set_mode.cpp:202-207 | the loop exits 0 exactly when every option makes a call, and then it has made them all, in order |
| SetMode.FirstFailureEnds | control/set_mode.cpp:195-199 | the first option that is turned away exits 1 after the calls of the options before it; one that throws ends the tool |
| SetMode.StepsOfOptions | control/set_mode.cpp:96-97 | the options after the interface give one step each |
| SetMode.SuccessIffAllRun | control/set_mode.cpp:62-207 | with an interface, options and no help flag, the tool exits 0 exactly when every option makes its call |

## Left out

- Opening files (`ifstream`, `ofstream`), `arecord`, `ReadRawPcm`, `popen`, sockets and `GetInterfaceIpv4` are left out. Their results are inputs. A file that fails to open is not modelled.
- Threads are left out: the capture thread, the sample queue and its mutex and condition variable, the LED animation worker and its atomics, and the signal handler. The interrupt is an input, given as the number of chunks sent before it.
- Whisper, RNNoise and the chat service (`CallOpenAI`) are left out. Their outputs are inputs to a round, and `SpeakResponse` is not part of this model.
- `ComputeRms`, `ComputeIntensity` and the denoiser's floating-point arithmetic are left out. RMS levels and voice probabilities are given per chunk.
- Allocation failure (`bad_alloc` from `resize` or `reserve`) is left out.
- SetMode.ValueStep: the float conversions of `sscanf` and `std::stof` are modelled only by whether they convert a first number. Velocities and heights are kept as their text.
- SetMode.ValueStep: `std::stof`'s out-of-range exception is not modelled, nor the hexadecimal and `nan(...)` forms.
- SetMode.RunOptions: what the client answers is not modelled, including the FSM id `GetFsmId` reports. Only the calls made are recorded.
- The printed messages (usage text, logs, `print_help`) are not modelled; `SetMode.Outcome` records only whether help was shown.
- Command.ProcessCommandText: the matcher returns the decision instead of calling the client, and the two-second pause before the hug is not modelled.
- The main loop of the conversational executable is modelled one round at a time (`Conversation.HandleUtterance`). The endless loop and the environment-variable setup before it are not modelled.
- MicRecord.RecordMicPcm: assumes every `recvfrom` returns and that the clock reaches the ten-second bound within the passes given. When `SO_RCVTIMEO` fails, the source only logs it, and with no traffic `recvfrom` then blocks for ever; that case is not modelled.
- MicRecord.MicTestMain: the volume `GetVolume` reports and the wait for Enter (`getline`) are not modelled; only the call is recorded. The sleeps between calls in all the tools are not modelled either.
- Playback.PlayTestMain: the `PlayStream` calls are recorded with their chunk only. The app name "play_test" and the clock-based stream id are not modelled.
