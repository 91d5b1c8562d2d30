/**
 * The reflection-response handler: request validation, the uncertainty
 * override, the history sent to the language model and the promotion of the
 * reported stage to `CONCLUDED` when the model's reply is a conclusion.
 *
 * The language model is outside the model: its reply is a parameter, either the
 * reply text or the message of the error the chat service raised.
 */
module Handler {
  import opened Wrappers
  import opened Text
  import opened Script
  import opened StageResolver

  /** The `currentUserMessage` of the request body; its `content` may be missing. */
  datatype UserMessage = UserMessage(content: Option<string>)

  /**
   * What is handed to the chat service: the user's text and the history before
   * it, which is the system message carrying `instruction` followed by `prior`.
   * The instruction is held by its key, as in `StageInfo`.
   */
  datatype LlmRequest = LlmRequest(userContent: string, instruction: PromptKey, prior: seq<Message>)
  {
    /** The history sent to the model: the system instruction, then the prior transcript. */
    function History(): (r: seq<Message>)
      ensures |r| == |prior| + 1
      ensures r[0] == Message("system", Some(SystemPrompt(instruction)))
      ensures r[1..] == prior
    {
      [Message("system", Some(SystemPrompt(instruction)))] + prior
    }
  }

  /** The HTTP answer: status 400, status 500, or the JSON body of a reply. */
  datatype Response =
    | BadRequest(error: string)
    | ServerError(error: string)
    | Reply(aiMessage: string, currentStage: Stage, collectedInformation: CollectedInfo)

  /** One handled request: what went to the chat service, if anything, and the answer. */
  datatype Exchange = Exchange(sent: Option<LlmRequest>, response: Response)

  const MissingContentError := "currentUserMessage with content is required"
  const DefaultServerError := "Internal server error"

  /** The request carries a user message whose content is present and non-empty. */
  predicate HasContent(m: Option<UserMessage>)
  {
    m.Some? && m.value.content.Some? && m.value.content.value != ""
  }

  /** Some uncertainty phrase occurs in the lower-cased message. */
  predicate IsUncertain(content: string)
  {
    exists i :: 0 <= i < |UncertaintyPhrases| && Contains(ToLower(content), UncertaintyPhrases[i])
  }

  // ---------------------------------------------------------------------------
  // The uncertainty override.
  // ---------------------------------------------------------------------------

  /**
   * A user who is asked why and answers with uncertainty has the why-slot counted
   * as answered and is moved on to the next-goal question.
   */
  function Override(d: StageInfo, content: string): (r: StageInfo)
    ensures r.previousAssistantActionPrompt == d.previousAssistantActionPrompt
    ensures r.collectedInfo.outcomeProvided == d.collectedInfo.outcomeProvided
    ensures r.collectedInfo.nextGoalProvided == d.collectedInfo.nextGoalProvided
    ensures r.collectedInfo.whyProvided <==>
      d.collectedInfo.whyProvided || (d.currentStage == AwaitingWhy && IsUncertain(content))
    // an uncertain user is moved on to the next-goal question; no other stage is touched
    ensures d.currentStage == AwaitingWhy && IsUncertain(content) ==>
      r.currentStage == AwaitingNextGoal && r.systemInstruction == RequestNextGoal
    ensures IsUncertain(content) ==> r.currentStage != AwaitingWhy
    ensures d.currentStage != AwaitingWhy || !IsUncertain(content) ==> r == d
    // the instruction still belongs to the stage
    ensures d.systemInstruction == InstructionFor(d.currentStage) ==>
      r.systemInstruction == InstructionFor(r.currentStage)
  {
    if d.currentStage == AwaitingWhy && IsUncertain(content) then
      d.(systemInstruction := RequestNextGoal,
         currentStage := AwaitingNextGoal,
         collectedInfo := d.collectedInfo.(whyProvided := true))
    else d
  }

  /** The decision for a new user message after the prior transcript. */
  function Decide(prior: seq<Message>, content: string): (r: StageInfo)
    ensures r.systemInstruction == InstructionFor(r.currentStage)
    ensures r.currentStage in {AwaitingWhy, AwaitingNextGoal, AwaitingConclusion, Concluded}
  {
    Override(Resolve(Scan(prior)), content)
  }

  // ---------------------------------------------------------------------------
  // Promotion of the reported stage.
  // ---------------------------------------------------------------------------

  /**
   * The reported stage: `CONCLUDED` when the model was told to conclude and its
   * reply content is a conclusion, the decided stage otherwise.
   */
  function ReportedStage(instruction: PromptKey, stage: Stage, replyContent: Option<string>): (r: Stage)
    ensures r == Concluded <==>
      stage == Concluded || (instruction == RequestConclude && IsConclusion(replyContent))
    ensures r != Concluded ==> r == stage
  {
    if instruction == RequestConclude && IsConclusion(replyContent) then Concluded else stage
  }

  /**
   * The content the handler reads off the chat service's `message` as written:
   * the service returns the reply text itself, and a string has no `content`
   * property, so the read yields `undefined`.
   */
  function ContentOfReplyAsWritten(reply: string): Option<string>
  {
    None
  }

  /**
   * The reported stage as the handler computes it with the property read above:
   * whatever the reply says, the decided stage is never promoted.
   */
  function ReportedStageAsWritten(instruction: PromptKey, stage: Stage, reply: string): (r: Stage)
    ensures r == stage
  {
    ReportedStage(instruction, stage, ContentOfReplyAsWritten(reply))
  }

  /**
   * Any conclusion reply answering the conclude instruction: the written code
   * keeps the stage, the intended one concludes.
   */
  lemma ConclusionReplyMissedAsWritten(reply: string)
    requires IsConclusion(Some(reply))
    ensures ReportedStageAsWritten(RequestConclude, AwaitingConclusion, reply) == AwaitingConclusion
    ensures ReportedStage(RequestConclude, AwaitingConclusion, Some(reply)) == Concluded
  {
  }

  /**
   * Such replies exist: every reply that says "Good luck." and later the closing
   * sentence is a conclusion.
   */
  lemma LuckThenEndIsConclusion(pre: string, mid: string, post: string)
    ensures IsConclusion(Some(pre + "Good luck." + mid + "This is the end of this reflection." + post))
  {
    var luck, end := "Good luck.", "This is the end of this reflection.";
    var reply := pre + luck + mid + end + post;
    assert reply == pre + luck + (mid + end + post);
    ContainsInfix(pre, luck, mid + end + post);
    ContainsInfix(pre + luck + mid, end, post);
  }

  // ---------------------------------------------------------------------------
  // The handler.
  // ---------------------------------------------------------------------------

  /** The whole handler as a function of the request and the chat service's outcome. */
  function Respond(currentUserMessage: Option<UserMessage>, chatHistory: Option<seq<Message>>,
                   llmReply: Result<string, string>): (x: Exchange)
    // a request without content is refused before the model is asked anything
    ensures x.response.BadRequest? <==> !HasContent(currentUserMessage)
    ensures !HasContent(currentUserMessage) ==> x == Exchange(None, BadRequest(MissingContentError))
    ensures x.sent.Some? <==> HasContent(currentUserMessage)
    // a failure of the chat service becomes a 500 with a non-empty message
    ensures x.response.ServerError? <==> HasContent(currentUserMessage) && llmReply.Failure?
    ensures x.response.ServerError? ==> x.response.error != ""
    // the model's reply is passed through, and only the four script stages are ever reported
    ensures x.response.Reply? ==> x.response.aiMessage == llmReply.value
    ensures x.response.Reply? ==>
      x.response.currentStage in {AwaitingWhy, AwaitingNextGoal, AwaitingConclusion, Concluded}
  {
    if !HasContent(currentUserMessage) then Exchange(None, BadRequest(MissingContentError))
    else
      var content := currentUserMessage.value.content.value;
      var prior := if chatHistory.Some? then chatHistory.value else [];
      var d := Decide(prior, content);
      var sent := Some(LlmRequest(content, d.systemInstruction, prior));
      match llmReply
      case Failure(e) =>
        Exchange(sent, ServerError(if e == "" then DefaultServerError else e))
      case Success(reply) =>
        Exchange(sent, Reply(reply, ReportedStage(d.systemInstruction, d.currentStage, Some(reply)),
                             d.collectedInfo))
  }

  /**
   * `handleUserResponse`: validation, stage determination, the uncertainty
   * override on the three response locals, the history for the model, and the
   * promotion of the reported stage.
   */
  method HandleUserResponse(currentUserMessage: Option<UserMessage>, chatHistory: Option<seq<Message>>,
                            llmReply: Result<string, string>)
    returns (sent: Option<LlmRequest>, response: Response)
    ensures Exchange(sent, response) == Respond(currentUserMessage, chatHistory, llmReply)
  {
    if currentUserMessage.None? || currentUserMessage.value.content.None?
       || currentUserMessage.value.content.value == "" {
      return None, BadRequest(MissingContentError);
    }
    assert HasContent(currentUserMessage);
    var content := currentUserMessage.value.content.value;
    var priorMessages := if chatHistory.Some? then chatHistory.value else [];

    var stageInfo := DetermineStageAndInstruction(priorMessages);
    var systemInstructionForLlm := stageInfo.systemInstruction;
    var currentStageForResponse := stageInfo.currentStage;
    var collectedInfoForResponse := stageInfo.collectedInfo;

    var currentUserIsUncertain := IsUncertain(content);
    if stageInfo.currentStage == AwaitingWhy && currentUserIsUncertain {
      systemInstructionForLlm := RequestNextGoal;
      currentStageForResponse := AwaitingNextGoal;
      collectedInfoForResponse := collectedInfoForResponse.(whyProvided := true);
    }

    assert StageInfo(systemInstructionForLlm, currentStageForResponse, collectedInfoForResponse,
                     stageInfo.previousAssistantActionPrompt) == Decide(priorMessages, content);
    // the history for the model is the system message for this instruction, then the prior records
    sent := Some(LlmRequest(content, systemInstructionForLlm, priorMessages));

    match llmReply
    case Failure(e) =>
      response := ServerError(if e == "" then DefaultServerError else e);
    case Success(reply) =>
      var finalReportedStage := currentStageForResponse;
      if systemInstructionForLlm == RequestConclude && IsConclusion(Some(reply)) {
        finalReportedStage := Concluded;
      }
      response := Reply(reply, finalReportedStage, collectedInfoForResponse);
  }

  // ---------------------------------------------------------------------------
  // Properties of the handler.
  // ---------------------------------------------------------------------------

  /** A missing chat history is treated as an empty one. */
  lemma MissingHistoryIsEmpty(m: Option<UserMessage>, llmReply: Result<string, string>)
    ensures Respond(m, None, llmReply) == Respond(m, Some([]), llmReply)
  {
  }

  /**
   * Uncertainty is judged on the lower-cased message, so the case of the user's
   * letters does not matter.
   */
  lemma UncertaintyIgnoresCase(content: string)
    ensures IsUncertain(ToLower(content)) <==> IsUncertain(content)
  {
    ToLowerIdempotent(content);
  }

  /**
   * The phrase "i am not sure" adds nothing to the list: any message containing it
   * also contains "not sure".
   */
  lemma UncertaintyWithoutLongPhrase(content: string)
    ensures IsUncertain(content) <==>
      exists i :: 1 <= i < |UncertaintyPhrases| && Contains(ToLower(content), UncertaintyPhrases[i])
  {
    var t := ToLower(content);
    if Contains(t, "i am not sure") {
      assert "not sure" <= "i am not sure"[5..];
      assert Contains("i am not sure", "not sure");
      ContainsTransitive(t, "i am not sure", "not sure");
      assert Contains(t, UncertaintyPhrases[2]);
    }
  }

  /**
   * The message sent with a request is the user's text, and the history is the
   * instruction for the decided stage followed by the prior transcript unchanged.
   */
  lemma SentHistory(m: Option<UserMessage>, chatHistory: Option<seq<Message>>,
                    llmReply: Result<string, string>)
    requires HasContent(m)
    ensures var x := Respond(m, chatHistory, llmReply);
      var prior := if chatHistory.Some? then chatHistory.value else [];
      var d := Decide(prior, m.value.content.value);
      x.sent == Some(LlmRequest(m.value.content.value, InstructionFor(d.currentStage), prior))
      && x.sent.value.History()[1..] == prior
  {
  }

  /**
   * An uncertain answer while the why-question is due moves the reply on to the
   * next-goal stage and counts the why-slot as answered, even when no outcome
   * was ever given.
   */
  lemma UncertainSkipsWhy(prior: seq<Message>, content: string, reply: string)
    requires content != "" && IsUncertain(content)
    requires Resolve(Scan(prior)).currentStage == AwaitingWhy
    ensures var x := Respond(Some(UserMessage(Some(content))), Some(prior), Success(reply));
      x.response == Reply(reply, AwaitingNextGoal,
                          Resolve(Scan(prior)).collectedInfo.(whyProvided := true))
      && x.sent.value.History()[0] == Message("system", Some(SystemPrompt(RequestNextGoal)))
  {
  }

  /** A first answer of "No idea" skips the why-question although no outcome was given. */
  lemma NoIdeaOnEmptyHistory(reply: string)
    ensures Respond(Some(UserMessage(Some("No idea"))), None, Success(reply)).response
      == Reply(reply, AwaitingNextGoal, CollectedInfo(false, true, false))
  {
    EmptyHistory();
    assert ToLower("No idea") == "no idea";
    assert Contains(ToLower("No idea"), UncertaintyPhrases[4]);
    UncertainSkipsWhy([], "No idea", reply);
  }

  /**
   * The stage reported to the client is `CONCLUDED` exactly when the transcript
   * already holds a conclusion, or all three slots are filled and the model's
   * reply is a conclusion.
   */
  lemma ReportedConcluded(prior: seq<Message>, content: string, reply: string)
    requires content != ""
    ensures var x := Respond(Some(UserMessage(Some(content))), Some(prior), Success(reply));
      var st := Scan(prior);
      x.response.currentStage == Concluded <==>
        st.conversationConcluded
        || (st.outcomeProvided && st.whyProvided && st.nextGoalProvided && IsConclusion(Some(reply)))
  {
    var d0 := Resolve(Scan(prior));
    var d := Decide(prior, content);
    assert d.currentStage == Concluded <==> d0.currentStage == Concluded;
    assert d.systemInstruction == RequestConclude <==> d0.currentStage == AwaitingConclusion;
  }

  /**
   * Every reply reports what was collected so far: the outcome and next-goal slots
   * as found in the transcript, the why-slot also when the override fired.
   */
  lemma ReportedSlots(prior: seq<Message>, content: string, reply: string)
    requires content != ""
    ensures var x := Respond(Some(UserMessage(Some(content))), Some(prior), Success(reply));
      var st := Scan(prior);
      x.response.collectedInformation.outcomeProvided == st.outcomeProvided
      && x.response.collectedInformation.nextGoalProvided == st.nextGoalProvided
      && (x.response.collectedInformation.whyProvided <==>
            st.whyProvided || (!st.conversationConcluded && IsUncertain(content)))
  {
  }
}
