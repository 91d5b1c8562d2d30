# Reflection-script state machine

This project models the daily reflection conversation of the chat controller
`src/controllers/chat/handleUserResponse.js`. A coach asks the user, in a fixed order:

1. whether they met yesterday's goal (the outcome);
2. why or why not;
3. what their goal for tomorrow is;

and then closes the session with "Good luck.".

Every turn the server rebuilds its state from scratch. It makes one pass over the prior
transcript and decides:

- which slots (outcome, why, next goal) have been answered;
- whether the session has already concluded;
- which stage the conversation is in;
- which system instruction to send to the language model with the user's new message.

An answer of uncertainty ("no idea", "not sure", …) to the why-question counts as an
answer. Once the model replies, the stage is meant to be promoted to `CONCLUDED` if the
model was told to conclude and its reply is a conclusion. The model tests the reply text
itself; the code as written reads a property the reply does not have and never promotes
(see "## Findings").

Modules:

- `Wrappers` (`wrappers.dfy`): `Option` and `Result`.
- `Text` (`text.dfy`): JavaScript's `String.prototype.includes`, as `Contains`, with its
  characterisation by occurrences. `toLowerCase` on ASCII letters, as `ToLower`.
- `Script` (`script.dfy`):
  - the four pattern matchers over assistant text;
  - the table of system instructions;
  - the stage keys;
  - the assistant-action keys;
  - the uncertainty phrases.
- `StageResolver` (`stage.dfy`): `determineStageAndInstruction`.
  - `DetermineStageAndInstruction` is the imperative pass, with the six mutable locals of
    the source.
  - It is proved equal to `Resolve(Scan(h))`.
  - `Scan` is a left fold of `Step` over the transcript, seen as a sequence of `Event`s.
  - The lemmas characterise what the fold computes without the fold: a slot is filled
    exactly when some user message answers the question that was pending at that point.
- `Handler` (`handler.dfy`): `handleUserResponse`.
  - It validates the request, applies the uncertainty override and builds the history for
    the model.
  - It promotes the reported stage.
  - `HandleUserResponse` is the method, proved equal to the function `Respond`.
  - Lemmas state the handler's observable behaviour.

The language model is not modelled. Its reply is a parameter of the handler:
`Success(text)`, or `Failure(message)` when the chat service threw.

The model keeps these quirks of the code:

- A transcript without an outcome answer is reported as `AWAITING_WHY` with the
  `REQUEST_WHY` instruction (`handleUserResponse.js:98-105`); no stage asks for the
  outcome.
- `AWAITING_INITIAL_RESPONSE` and `GENERAL_GUIDANCE` are declared but never reported.
  `Handler.Respond` proves it.
- The only slots are outcome, why and next goal, and the reply body carries only the
  model's message, the stage and those slots.

## Model

| member | source | states |
|---|---|---|
| Text.ContainsIff | src/controllers/chat/handleUserResponse.js:6-14 | `includes` as modelled is true exactly when the pattern occurs at some index of the text |
| Text.ToLowerIdempotent | src/controllers/chat/handleUserResponse.js:152 | lower-casing twice is lower-casing once, and leaves no upper-case ASCII letter |
| Script.MatchersRejectEmpty | src/controllers/chat/handleUserResponse.js:6-14 | every matcher is false on missing content and on the empty string (the `text &&` guard) |
| Script.InitialAndConclusionPhrases | src/controllers/chat/handleUserResponse.js:6-7 | the initial-question matcher accepts exactly the texts containing both of its phrases somewhere, and likewise the conclusion matcher (lines 13-14) |
| Script.SystemPromptInjective | src/controllers/chat/handleUserResponse.js:17-30 | the five instruction texts are pairwise distinct, so comparing instruction texts is comparing their keys |
| Script.StageKeyInjective | src/controllers/chat/handleUserResponse.js:32-39 | the six stage keys are pairwise distinct |
| Script.ActionKeyInjective | src/controllers/chat/handleUserResponse.js:42-48 | the five assistant-action keys are pairwise distinct |
| StageResolver.ClassifyFirstMatch | src/controllers/chat/handleUserResponse.js:61-79 | an assistant message takes the class of the first matcher, in the order initial, why, next goal, conclusion, that accepts it, and no class when none does |
| StageResolver.ClassifyEmpty | src/controllers/chat/handleUserResponse.js:61-79 | an assistant message with missing or empty content has no class |
| StageResolver.Step | src/controllers/chat/handleUserResponse.js:59-85 | one record never clears a slot or the concluded flag; a record whose role is neither assistant nor user changes nothing |
| StageResolver.Asked | src/controllers/chat/handleUserResponse.js:61-79 | an assistant message fills no slot and becomes the pending question; a conclusion sets the concluded flag; an unmatched message keeps the last significant action |
| StageResolver.Answered | src/controllers/chat/handleUserResponse.js:80-84 | a user message fills exactly the slot of the pending question, and nothing when no question is pending |
| StageResolver.Resolve | src/controllers/chat/handleUserResponse.js:87-130 | `CONCLUDED` exactly when concluded; otherwise `AWAITING_WHY` exactly when the outcome or the why is missing, then `AWAITING_NEXT_GOAL`, then `AWAITING_CONCLUSION`; the instruction is the stage's own; the slots and the last action are passed through |
| StageResolver.DetermineStageAndInstruction | src/controllers/chat/handleUserResponse.js:50-131 | the imperative pass over the transcript returns `Resolve(Scan(h))` |
| StageResolver.ScanPending | src/controllers/chat/handleUserResponse.js:56-79 | after any prefix, the pending question is the class of the last assistant message, and the last action is that of the last assistant message that matched a pattern |
| StageResolver.PendingQueryIff | src/controllers/chat/handleUserResponse.js:61-83 | question `q` is pending at position `n` exactly when some assistant message of class `q` precedes `n` with no assistant message after it |
| StageResolver.ScanSlot | src/controllers/chat/handleUserResponse.js:80-84 | a slot is filled after a prefix exactly when some user message in it answered that slot's question |
| StageResolver.ScanConcluded | src/controllers/chat/handleUserResponse.js:71-74 | the session is concluded after a prefix exactly when it holds an assistant conclusion |
| StageResolver.ScanMonotone | src/controllers/chat/handleUserResponse.js:59-85 | slots and the concluded flag only go from false to true as the pass advances |
| StageResolver.ScanExtends | src/controllers/chat/handleUserResponse.js:59-85 | a slot filled, or a conclusion found, in a transcript stays so in every longer transcript that starts with it |
| StageResolver.ScanCharacterized | src/controllers/chat/handleUserResponse.js:50-87 | the whole pass, stated without the loop: each slot as an existence of an answer, the concluded flag, the last significant action |
| StageResolver.EmptyHistory | src/controllers/chat/handleUserResponse.js:98-105 | an empty transcript gives `AWAITING_WHY`, the `REQUEST_WHY` instruction, no slots and no action |
| Handler.Override | src/controllers/chat/handleUserResponse.js:151-161 | when the stage is `AWAITING_WHY` and the user is uncertain, the why-slot is filled and stage and instruction become `AWAITING_NEXT_GOAL` and `REQUEST_NEXT_GOAL`; an uncertain user is never left at `AWAITING_WHY`; in every other case nothing changes |
| Handler.Decide | src/controllers/chat/handleUserResponse.js:145-161 | after the override the instruction still belongs to the stage, and the stage is one of the four script stages |
| Handler.ReportedStage | src/controllers/chat/handleUserResponse.js:169-176 | the reported stage is `CONCLUDED` exactly when the decided stage is, or the instruction was to conclude and the reply content is a conclusion; otherwise it is the decided stage |
| Handler.ReportedStageAsWritten | src/controllers/chat/handleUserResponse.js:169-176 | as written (line 173 reads `.content` off the reply string, which is undefined), the reported stage is the decided stage for every reply |
| Handler.ConclusionReplyMissedAsWritten | src/controllers/chat/handleUserResponse.js:169-176 | for every reply the conclusion matcher accepts, in whichever order its two phrases appear, sent after the conclude instruction, the written code keeps `AWAITING_CONCLUSION` while the intended promotion gives `CONCLUDED` |
| Handler.LuckThenEndIsConclusion | src/controllers/chat/handleUserResponse.js:13-14 | every reply that says "Good luck." and later "This is the end of this reflection.", whatever surrounds them, is accepted by the conclusion matcher, so such replies exist |
| Handler.LlmRequest.History | src/controllers/chat/handleUserResponse.js:163 | the history sent to the model is one system message holding the instruction text, then the prior transcript |
| Handler.Respond | src/controllers/chat/handleUserResponse.js:135-187 | 400 exactly when the user message or its content is missing or empty, and then nothing is sent; 500 exactly when the model call fails, with a non-empty message; a reply passes the model's text through and reports one of the four script stages |
| Handler.HandleUserResponse | src/controllers/chat/handleUserResponse.js:135-187 | the imperative handler sends and answers exactly what `Respond` prescribes |
| Handler.MissingHistoryIsEmpty | src/controllers/chat/handleUserResponse.js:143 | a missing chat history is handled as an empty one |
| Handler.UncertaintyIgnoresCase | src/controllers/chat/handleUserResponse.js:151-153 | uncertainty is judged case-insensitively: lower-casing the message first changes nothing |
| Handler.UncertaintyWithoutLongPhrase | src/controllers/chat/handleUserResponse.js:133 | the phrase "i am not sure" is subsumed by "not sure": the other four phrases detect exactly the same messages |
| Handler.SentHistory | src/controllers/chat/handleUserResponse.js:163-167 | the model receives the user's text, and a history made of the instruction of the decided stage followed by the prior transcript unchanged |
| Handler.UncertainSkipsWhy | src/controllers/chat/handleUserResponse.js:151-161 | an uncertain message while the why-question is due is answered at `AWAITING_NEXT_GOAL`, with the why-slot filled and the next-goal instruction sent, even when no outcome was ever given |
| Handler.NoIdeaOnEmptyHistory | src/controllers/chat/handleUserResponse.js:151-161 | a first message "No idea" with no history reports `AWAITING_NEXT_GOAL` and only the why-slot filled |
| Handler.ReportedConcluded | src/controllers/chat/handleUserResponse.js:169-176 | a reply reports `CONCLUDED` exactly when the transcript already holds a conclusion, or all three slots are filled and the model's reply is a conclusion |
| Handler.ReportedSlots | src/controllers/chat/handleUserResponse.js:149-160 | the reported outcome and next-goal slots are the transcript's; the why-slot is the transcript's, or set when the session is not concluded and the user is uncertain |

## Left out

- `toLowerCase` lowers only the ASCII letters `A`-`Z`. Unicode case mapping is not modelled.
- The chat service and the OpenAI call are outside the model (`src/services/chatService.js`
  is not part of this model). The model's reply is a parameter: its text, or the message of
  the error the service threw. The service's appending of the user message is not
  modelled, nor are the model options and the usage figures.
- A model reply whose content is `null` is not modelled; the reply is always a string.
- JavaScript's loose typing is not modelled. Records that are `null` make the source throw
  inside the `try` and answer 500. Contents that are not strings are not modelled: a falsy
  one acts as missing (the model's `None`), an array is searched element by element by
  `includes`, and any other makes the source throw and answer 500. In the model, records
  always have a role and an optional string content.
- The Express request and response objects and the `console.error` logging are not modelled.
  The HTTP answer is the `Response` value: 400, 500 or the JSON body.
- The instruction text is carried by its key in the instruction table.
  `Script.SystemPromptInjective` shows that nothing is lost: the text for a key is
  `SystemPrompt(key)`, and comparing texts, as line 172 does, is comparing keys.
  `LlmRequest` likewise keeps the key and the prior records, and
  `LlmRequest.History()` is the message list actually sent.
- `previousAssistantActionPrompt` is computed and returned by the resolver. The handler
  does not use it, and neither does the model beyond `Resolve`.
- The other controllers, routes, models and utilities of the repository are not part of this
  model.

## Findings

| source | as written | input that shows it | evidently intended | confidence | as-written member | corrected member |
|---|---|---|---|---|---|---|
| src/controllers/chat/handleUserResponse.js:173 | The promotion tests `isConclusion(aiResponse.message.content)`. The chat service returns `message` as the reply string itself (`src/services/chatService.js:48`). So `.content` is `undefined`, `isConclusion` is false, and the stage is never promoted. | Instruction `REQUEST_CONCLUDE`, stage `AWAITING_CONCLUSION`, model reply `"Good luck. This is the end of this reflection."`: the code reports `AWAITING_CONCLUSION`. | Test the reply text, `isConclusion(aiResponse.message)`, and report `CONCLUDED`. | not executed; high, since line 179 uses the same `aiResponse.message` as the reply text | Handler.ConclusionReplyMissedAsWritten | Handler.ReportedStage |
