/**
 * The fixed reflection script: the phrases the coach uses when it asks each
 * question, the pattern matchers that recognise them, and the constant tables
 * of system instructions, stage keys, assistant actions and uncertainty phrases.
 */
module Script {
  import opened Wrappers
  import opened Text

  /** One chat record `{role, content}`; `content` may be missing. */
  datatype Message = Message(role: string, content: Option<string>)

  const RoleAssistant := "You are a reflective coach"

  // ---------------------------------------------------------------------------
  // Pattern matchers: case-sensitive substring tests, false on missing content.
  // ---------------------------------------------------------------------------

  predicate IsInitialQuery(text: Option<string>)
  {
    text.Some? && Contains(text.value, "your goal was")
    && Contains(text.value, "were you able to do it?")
  }

  predicate IsWhyQuery(text: Option<string>)
  {
    text.Some? &&
    (Contains(text.value, "Why were you able to accomplish this goal")
     || Contains(text.value, "why were you NOT able to accomplish this goal?"))
  }

  predicate IsNextGoalQuery(text: Option<string>)
  {
    text.Some? && Contains(text.value, "What's your goal for tomorrow?")
  }

  predicate IsConclusion(text: Option<string>)
  {
    text.Some? && Contains(text.value, "Good luck.")
    && Contains(text.value, "This is the end of this reflection.")
  }

  /** Every matcher rejects missing text and the empty string. */
  lemma MatchersRejectEmpty(text: Option<string>)
    requires text == None || text == Some("")
    ensures !IsInitialQuery(text) && !IsWhyQuery(text)
    ensures !IsNextGoalQuery(text) && !IsConclusion(text)
  {
    EmptyContainsOnlyEmpty("your goal was");
    EmptyContainsOnlyEmpty("Why were you able to accomplish this goal");
    EmptyContainsOnlyEmpty("What's your goal for tomorrow?");
    EmptyContainsOnlyEmpty("Good luck.");
  }

  /**
   * An initial-outcome question is recognised exactly when both of its phrases
   * occur somewhere in the text, and a conclusion exactly when both of its do.
   */
  lemma InitialAndConclusionPhrases(t: string)
    ensures IsInitialQuery(Some(t)) <==>
      (exists i :: OccursAt(t, "your goal was", i))
      && (exists j :: OccursAt(t, "were you able to do it?", j))
    ensures IsConclusion(Some(t)) <==>
      (exists i :: OccursAt(t, "Good luck.", i))
      && (exists j :: OccursAt(t, "This is the end of this reflection.", j))
  {
    ContainsIff(t, "your goal was");
    ContainsIff(t, "were you able to do it?");
    ContainsIff(t, "Good luck.");
    ContainsIff(t, "This is the end of this reflection.");
  }

  // ---------------------------------------------------------------------------
  // Constant tables.
  // ---------------------------------------------------------------------------

  /** The keys of the system-instruction table. */
  datatype PromptKey = RequestWhy | RequestNextGoal | RequestConclude
                     | PostConclusionDefault | GeneralGuidance

  /** The system-instruction table: the directive sent to the model for each key. */
  function SystemPrompt(k: PromptKey): string
  {
    match k
    case RequestWhy =>
      RoleAssistant + ". User shared their outcome. Ask: 'Why were you able to accomplish this, or why not?' Be direct."
    case RequestNextGoal =>
      RoleAssistant + ". User shared their reasons or indicated uncertainty. Briefly acknowledge, then ask: 'What's your goal for tomorrow?' Be direct."
    case RequestConclude =>
      RoleAssistant + ". User shared their next goal. Respond only: 'Good luck.'"
    case PostConclusionDefault =>
      RoleAssistant + ". Reflection ended. How else can I help?"
    case GeneralGuidance =>
      RoleAssistant + ". Let's continue your reflection."
  }

  /** Distinct keys give distinct instruction texts, so comparing texts compares keys. */
  lemma SystemPromptInjective(k1: PromptKey, k2: PromptKey)
    ensures SystemPrompt(k1) == SystemPrompt(k2) <==> k1 == k2
  {
    if k1 != k2 {
      PromptLength(k1);
      PromptLength(k2);
      assert |SystemPrompt(k1)| != |SystemPrompt(k2)|;
    }
  }

  /** The instruction texts have pairwise different lengths. */
  lemma PromptLength(k: PromptKey)
    ensures |SystemPrompt(k)| == match k
      case RequestWhy => 122
      case RequestNextGoal => 154
      case RequestConclude => 83
      case PostConclusionDefault => 66
      case GeneralGuidance => 59
  {
  }

  /** The conversation stages reported to the client. */
  datatype Stage = AwaitingInitialResponse | AwaitingWhy | AwaitingNextGoal
                 | AwaitingConclusion | Concluded | GeneralGuidanceStage

  /** The wire name of each stage. */
  function StageKey(s: Stage): string
  {
    match s
    case AwaitingInitialResponse => "AWAITING_INITIAL_RESPONSE"
    case AwaitingWhy => "AWAITING_WHY"
    case AwaitingNextGoal => "AWAITING_NEXT_GOAL"
    case AwaitingConclusion => "AWAITING_CONCLUSION"
    case Concluded => "CONCLUDED"
    case GeneralGuidanceStage => "GENERAL_GUIDANCE"
  }

  /** Distinct stages have distinct wire names. */
  lemma StageKeyInjective(s1: Stage, s2: Stage)
    ensures StageKey(s1) == StageKey(s2) <==> s1 == s2
  {
  }

  /** The last significant thing the assistant did in the transcript. */
  datatype AssistantAction = NoAction | AskedInitial | AskedWhy | AskedNextGoal | ConcludedSession

  /** The wire name of each assistant action. */
  function ActionKey(a: AssistantAction): string
  {
    match a
    case NoAction => "NONE"
    case AskedInitial => "ASKED_INITIAL"
    case AskedWhy => "ASKED_WHY"
    case AskedNextGoal => "ASKED_NEXT_GOAL"
    case ConcludedSession => "CONCLUDED_SESSION"
  }

  /** Distinct actions have distinct wire names. */
  lemma ActionKeyInjective(a1: AssistantAction, a2: AssistantAction)
    ensures ActionKey(a1) == ActionKey(a2) <==> a1 == a2
  {
  }

  /** Phrases that mark the user as unsure, matched against the lower-cased message. */
  const UncertaintyPhrases: seq<string> :=
    ["i am not sure", "i don't know", "not sure", "unsure", "no idea"]
}
