/**
 * The conversation state of the conversational executable: the bounded
 * message history (`AddToHistory`) and one round of the main loop, which
 * decimates a captured utterance, classifies the normalised transcript and
 * either ignores it, ends the conversation, clears the history or records
 * the exchange. The recogniser's transcript and the chat service's reply
 * are inputs to a round.
 */
module Conversation {
  import opened Json
  import Text
  import Capture
  import Wav

  /** The most messages the history keeps. */
  const MaxContextMessages: nat := 10

  /** The last `n` entries of `s`, or all of `s` when it is shorter. */
  function KeepLast<T>(s: seq<T>, n: nat): (r: seq<T>)
    ensures |r| == if |s| < n then |s| else n
    ensures r == s[|s| - |r|..]
  {
    if |s| <= n then s else s[|s| - n..]
  }

  /** The conversation history, oldest message first. */
  class History {
    var messages: seq<ChatMessage>

    ghost predicate Valid()
      reads this
    {
      |messages| <= MaxContextMessages
    }

    constructor ()
      ensures messages == [] && Valid()
    {
      messages := [];
    }

    /** Appends a message, then drops messages from the front until at
        most `MaxContextMessages` are left. */
    method AddToHistory(role: string, content: string)
      modifies this
      ensures Valid()
      ensures messages == KeepLast(old(messages) + [ChatMessage(role, content)], MaxContextMessages)
    {
      messages := messages + [ChatMessage(role, content)];
      ghost var full := messages;
      while |messages| > MaxContextMessages
        invariant |messages| >= MaxContextMessages || messages == full
        invariant messages == full[|full| - |messages|..]
        decreases |messages|
      {
        messages := messages[1..];
      }
    }

    /** Forgets every message. */
    method Clear()
      modifies this
      ensures Valid() && messages == []
    {
      messages := [];
    }
  }

  /** Adding one message keeps the history bounded, ends it with the new
      message, and evicts the oldest message exactly when it was full. */
  lemma {:induction false} AddOneMessage(h: seq<ChatMessage>, m: ChatMessage)
    requires |h| <= MaxContextMessages
    ensures var r := KeepLast(h + [m], MaxContextMessages);
      && |r| <= MaxContextMessages && r[|r| - 1] == m
      && (|h| < MaxContextMessages ==> r == h + [m])
      && (|h| == MaxContextMessages ==> r == h[1..] + [m])
  {
    if |h| == MaxContextMessages {
      assert (h + [m])[1..] == h[1..] + [m];
    }
  }

  /** Two single additions keep the same window as adding both at once. */
  lemma {:induction false} KeepLastTwice<T>(s: seq<T>, a: T, b: T, n: nat)
    requires n >= 1
    ensures KeepLast(KeepLast(s + [a], n) + [b], n) == KeepLast(s + [a, b], n)
  {
    var t := KeepLast(s + [a], n);
    var full := s + [a, b];
    assert s + [a] == full[..|full| - 1];
    assert t + [b] == full[|full| - 1 - |t|..];
  }

  // ---------------------------------------------------------------------
  // The main loop

  /** What a normalised transcript asks for. */
  datatype Verdict = TooShort | Goodbye | ClearHistory | Chat

  const ExitWords: set<string> := {"goodbye", "bye", "exit", "quit"}
  const ClearWords: set<string> := {"clear history", "reset conversation", "start over"}

  /** Classifies a normalised transcript; the length test comes first. */
  function Classify(normalized: string): (v: Verdict)
    ensures v == TooShort <==> |normalized| < 2
    ensures v == Goodbye <==> normalized in ExitWords
    ensures v == ClearHistory <==> normalized in ClearWords
    ensures v == Chat <==> |normalized| >= 2 && normalized !in ExitWords + ClearWords
  {
    if |normalized| < 2 then TooShort
    else if normalized in ExitWords then Goodbye
    else if normalized in ClearWords then ClearHistory
    else Chat
  }

  /** The outcome of one round of the main loop. */
  datatype Outcome =
    | NoAudio        // the decimated utterance is empty
    | NoSpeech       // the recogniser returned nothing
    | Ignored        // the normalised transcript is shorter than two characters
    | Ended          // an exit word: the loop stops
    | Cleared        // a clear word: the history is emptied
    | Answered       // the exchange is recorded

  /** The outcome a round has, from the utterance and the transcript. */
  function RoundOutcome(pcm: seq<Wav.int16>, transcript: string): Outcome
  {
    if |pcm| / 3 == 0 then NoAudio
    else if transcript == [] then NoSpeech
    else match Classify(Text.Normalized(transcript))
      case TooShort => Ignored
      case Goodbye => Ended
      case ClearHistory => Cleared
      case Chat => Answered
  }

  /** One round: `transcript` is what the recogniser made of the
      decimated utterance and `reply` what the chat service answered. */
  method HandleUtterance(history: History, pcm: seq<Wav.int16>, transcript: string, reply: string)
    returns (outcome: Outcome)
    requires history.Valid()
    modifies history
    ensures history.Valid()
    ensures outcome == RoundOutcome(pcm, transcript)
    ensures outcome == Cleared ==> history.messages == []
    ensures outcome == Answered ==>
      history.messages == KeepLast(old(history.messages) + [ChatMessage("user", transcript), ChatMessage("assistant", reply)], MaxContextMessages)
    ensures outcome != Cleared && outcome != Answered ==> history.messages == old(history.messages)
  {
    var whisperPcm := Capture.DownsampleTo16k(pcm);
    if whisperPcm == [] {
      return NoAudio;
    }
    if transcript == [] {
      return NoSpeech;
    }
    var normalized := Text.Normalize(transcript);
    var verdict := Classify(normalized);
    if verdict == TooShort {
      return Ignored;
    }
    if verdict == Goodbye {
      return Ended;
    }
    if verdict == ClearHistory {
      history.Clear();
      return Cleared;
    }
    history.AddToHistory("user", transcript);
    history.AddToHistory("assistant", reply);
    KeepLastTwice(old(history.messages), ChatMessage("user", transcript), ChatMessage("assistant", reply), MaxContextMessages);
    return Answered;
  }

  /** A transcript is ignored, ends the loop or clears the history the
      same way whatever its spacing: only its normal form is looked at. */
  lemma OutcomeIgnoresSpacing(pcm: seq<Wav.int16>, transcript: string)
    requires transcript != [] && Text.Normalized(transcript) != []
    ensures RoundOutcome(pcm, Text.Normalized(transcript)) == RoundOutcome(pcm, transcript)
  {
    Text.NormalizeIdempotent(transcript);
  }
}
