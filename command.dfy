/**
 * The voice-command matcher of the arm-action executable
 * (`ProcessCommandText`).  The source's only effects are single calls on
 * the arm-action and audio clients; here the matcher is a function from a
 * transcript to the `Decision` it takes, and the client's name-to-id table
 * `action_map` is a parameter.
 */
module Command {
  import opened Wrappers
  import opened Text

  /** `kPrefix`: the literal that introduces a free-form command. */
  const Prefix: string := "execute "
  /** The arm action id the source uses for a hug. */
  const HugId: int := 19
  /** What the audio client says before the hug after "i miss you". */
  const HugPrompt: string := "Come here to give you a hug."

  /** What one call of the matcher does. */
  datatype Decision =
    | NoAction                                       // nothing matched, or no client
    | MissingActionName                              // "execute " with nothing after it
    | ById(id: int)                                  // ExecuteAction(id)
    | ByName(name: string)                           // ExecuteAction(name)
    | SpeakThenById(speech: Option<string>, id: int) // TTS (if an audio client exists), a pause, then ExecuteAction(id)
  {
    /** Whether an arm action is dispatched. */
    predicate Dispatches() {
      ById? || ByName? || SpeakThenById?
    }
  }

  /** The text the matcher compares: normalised, trailing punctuation removed. */
  function Cleaned(text: string): string {
    PunctTrimmed(Normalized(text))
  }

  predicate IsHugPhrase(t: string) {
    t == "give me a hug" || t == "give me a hug please"
  }

  predicate MentionsThrowMoney(t: string) {
    Contains(t, "throw money") || Contains(t, "throw the money")
    || Contains(t, "trow money") || Contains(t, "trow the money")
  }

  predicate IsScratchHead(t: string) {
    t == "scratch head" || t == "scratch my head"
  }

  /**
   * The tiered matcher, first match wins: exact hug phrase, "i miss you",
   * throw-money phrases, exact scratch-head phrase, then "execute <name>"
   * looked up in `actionMap` or passed through by name.
   */
  function ProcessCommandText(hasClient: bool, hasAudioClient: bool, actionMap: map<string, int>, text: string): (d: Decision)
    ensures d.Dispatches() ==> hasClient
    ensures d.ById? ==> d.id == HugId || d.id in actionMap.Values
    ensures d.SpeakThenById? ==> d.id == HugId && (d.speech.Some? <==> hasAudioClient)
    ensures d.ByName? && d.name != "Throw_money" && d.name != "scratch_head" ==>
              d.name != [] && d.name !in actionMap && !IsTrailingPunct(d.name[|d.name| - 1])
  {
    if !hasClient then NoAction
    else
      var normalized := Cleaned(text);
      if IsHugPhrase(normalized) then ById(HugId)
      else if Contains(normalized, "i miss you") then
        SpeakThenById(if hasAudioClient then Some(HugPrompt) else None, HugId)
      else if MentionsThrowMoney(normalized) then ByName("Throw_money")
      else if IsScratchHead(normalized) then ByName("scratch_head")
      else if !(Prefix <= normalized) then NoAction
      else
        var actionName := PunctTrimmed(normalized[|Prefix|..]);
        PunctTrimmedSpec(normalized[|Prefix|..]);
        if actionName == [] then MissingActionName
        else if actionName in actionMap then ById(actionMap[actionName])
        else ByName(actionName)
  }

  /** The hug phrase beats every later rule, whatever the table holds. */
  lemma HugPhraseWins(hasAudioClient: bool, actionMap: map<string, int>, text: string)
    requires IsHugPhrase(Cleaned(text))
    ensures ProcessCommandText(true, hasAudioClient, actionMap, text) == ById(HugId)
  {
  }

  /** "i miss you" anywhere beats the throw-money and execute rules. */
  lemma MissYouBeatsLaterRules(hasAudioClient: bool, actionMap: map<string, int>, text: string)
    requires !IsHugPhrase(Cleaned(text)) && Contains(Cleaned(text), "i miss you")
    ensures ProcessCommandText(true, hasAudioClient, actionMap, text)
            == SpeakThenById(if hasAudioClient then Some(HugPrompt) else None, HugId)
  {
  }

  /** The throw-money phrases and the scratch-head phrases dispatch by name. */
  lemma FixedNameRules(hasAudioClient: bool, actionMap: map<string, int>, text: string)
    requires !IsHugPhrase(Cleaned(text)) && !Contains(Cleaned(text), "i miss you")
    ensures MentionsThrowMoney(Cleaned(text)) ==>
              ProcessCommandText(true, hasAudioClient, actionMap, text) == ByName("Throw_money")
    ensures !MentionsThrowMoney(Cleaned(text)) && IsScratchHead(Cleaned(text)) ==>
              ProcessCommandText(true, hasAudioClient, actionMap, text) == ByName("scratch_head")
  {
  }

  /** Past the fixed phrases, only text starting with "execute " dispatches;
      the name after the prefix is looked up in the table and otherwise
      passed through as it is. */
  lemma ExecuteRule(hasAudioClient: bool, actionMap: map<string, int>, text: string)
    requires var t := Cleaned(text);
      !IsHugPhrase(t) && !Contains(t, "i miss you") && !MentionsThrowMoney(t) && !IsScratchHead(t)
    ensures var t := Cleaned(text);
      var d := ProcessCommandText(true, hasAudioClient, actionMap, text);
      && (!(Prefix <= t) ==> d == NoAction)
      && (Prefix <= t ==>
            var name := PunctTrimmed(t[|Prefix|..]);
            && (name == [] ==> d == MissingActionName)
            && (name != [] && name in actionMap ==> d == ById(actionMap[name]))
            && (name != [] && name !in actionMap ==> d == ByName(name)))
  {
  }

  /** Case, spacing and trailing punctuation never change the decision:
      feeding the normalised transcript decides the same. */
  lemma DecisionIgnoresSpacingAndCase(hasClient: bool, hasAudioClient: bool, actionMap: map<string, int>, text: string)
    ensures ProcessCommandText(hasClient, hasAudioClient, actionMap, Normalized(text))
            == ProcessCommandText(hasClient, hasAudioClient, actionMap, text)
  {
    NormalizeIdempotent(text);
  }
}
