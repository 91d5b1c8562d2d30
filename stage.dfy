/**
 * Stage determination: one left-to-right pass over the prior transcript that
 * records which slots of the reflection script have been answered, followed by
 * a first-match decision of the stage and the system instruction for the next
 * reply.
 *
 * The pass sees each record as an `Event`: an assistant message of some class,
 * a user message, or a message with any other role. `Step`/`ScanUpTo` are the
 * functional specification of the pass over those events;
 * `DetermineStageAndInstruction` is the pass itself, with its mutable locals.
 */
module StageResolver {
  import opened Wrappers
  import opened Script

  /** The value of `lastAssistantQueryType`: the class of the last assistant message. */
  datatype QueryType = NoQuery | InitialQuery | WhyQuery | NextGoalQuery | ConclusionQuery

  /** Classifies assistant text by the first matcher that accepts it. */
  function Classify(content: Option<string>): QueryType
  {
    if IsInitialQuery(content) then InitialQuery
    else if IsWhyQuery(content) then WhyQuery
    else if IsNextGoalQuery(content) then NextGoalQuery
    else if IsConclusion(content) then ConclusionQuery
    else NoQuery
  }

  /**
   * The class of a message is the first matcher, in the order initial, why,
   * next goal, conclusion, that accepts it; text no matcher accepts has no class.
   */
  lemma ClassifyFirstMatch(content: Option<string>)
    ensures Classify(content) == InitialQuery <==> IsInitialQuery(content)
    ensures Classify(content) == WhyQuery <==> !IsInitialQuery(content) && IsWhyQuery(content)
    ensures Classify(content) == NextGoalQuery <==>
      !IsInitialQuery(content) && !IsWhyQuery(content) && IsNextGoalQuery(content)
    ensures Classify(content) == ConclusionQuery <==>
      !IsInitialQuery(content) && !IsWhyQuery(content) && !IsNextGoalQuery(content)
      && IsConclusion(content)
    ensures Classify(content) == NoQuery <==>
      !IsInitialQuery(content) && !IsWhyQuery(content)
      && !IsNextGoalQuery(content) && !IsConclusion(content)
  {
  }

  /** Missing or empty assistant text is never classified. */
  lemma ClassifyEmpty(content: Option<string>)
    requires content == None || content == Some("")
    ensures Classify(content) == NoQuery
  {
    MatchersRejectEmpty(content);
  }

  /** The assistant action a classified question records. */
  function ActionOf(q: QueryType): AssistantAction
  {
    match q
    case NoQuery => NoAction
    case InitialQuery => AskedInitial
    case WhyQuery => AskedWhy
    case NextGoalQuery => AskedNextGoal
    case ConclusionQuery => ConcludedSession
  }

  /** What one transcript record means to the pass. */
  datatype Event = AssistantSaid(query: QueryType) | UserSaid | OtherSaid

  /** Only the roles `assistant` and `user` matter; assistant text is classified. */
  function EventOf(m: Message): Event
  {
    if m.role == "assistant" then AssistantSaid(Classify(m.content))
    else if m.role == "user" then UserSaid
    else OtherSaid
  }

  /** The transcript as the pass sees it, record by record. */
  function Events(h: seq<Message>): (es: seq<Event>)
    ensures |es| == |h|
  {
    if h == [] then [] else Events(h[..|h| - 1]) + [EventOf(h[|h| - 1])]
  }

  /** Record `i` of the transcript becomes event `i`. */
  lemma {:induction false} EventAt(h: seq<Message>, i: nat)
    requires i < |h|
    ensures Events(h)[i] == EventOf(h[i])
  {
    if i < |h| - 1 {
      EventAt(h[..|h| - 1], i);
    }
  }

  /** The slots reported back to the client. */
  datatype CollectedInfo = CollectedInfo(outcomeProvided: bool, whyProvided: bool, nextGoalProvided: bool)

  /** The mutable locals of the pass, as one value. */
  datatype ScanState = ScanState(
    outcomeProvided: bool,
    whyProvided: bool,
    nextGoalProvided: bool,
    conversationConcluded: bool,
    lastQuery: QueryType,
    previousAction: AssistantAction)

  const Start := ScanState(false, false, false, false, NoQuery, NoAction)

  /** The effect of one record on the pass. */
  function Step(st: ScanState, e: Event): (r: ScanState)
    // flags only ever go from false to true
    ensures st.outcomeProvided ==> r.outcomeProvided
    ensures st.whyProvided ==> r.whyProvided
    ensures st.nextGoalProvided ==> r.nextGoalProvided
    ensures st.conversationConcluded ==> r.conversationConcluded
    // a record whose role is neither assistant nor user changes nothing
    ensures e.OtherSaid? ==> r == st
  {
    match e
    case AssistantSaid(q) => Asked(st, q)
    case UserSaid => Answered(st)
    case OtherSaid => st
  }

  /**
   * The effect of an assistant message of class `q`: it fills no slot and makes
   * `q` the pending question; one that matches no pattern keeps the last
   * significant action.
   */
  function Asked(st: ScanState, q: QueryType): (r: ScanState)
    ensures r.outcomeProvided == st.outcomeProvided && r.whyProvided == st.whyProvided
    ensures r.nextGoalProvided == st.nextGoalProvided
    ensures r.lastQuery == q
    ensures r.conversationConcluded == (st.conversationConcluded || q == ConclusionQuery)
    ensures r.previousAction == if q == NoQuery then st.previousAction else ActionOf(q)
  {
    match q
    case InitialQuery => st.(lastQuery := InitialQuery, previousAction := AskedInitial)
    case WhyQuery => st.(lastQuery := WhyQuery, previousAction := AskedWhy)
    case NextGoalQuery => st.(lastQuery := NextGoalQuery, previousAction := AskedNextGoal)
    case ConclusionQuery =>
      st.(lastQuery := ConclusionQuery, conversationConcluded := true, previousAction := ConcludedSession)
    case NoQuery => st.(lastQuery := NoQuery)
  }

  /** The effect of a user message: it fills exactly the slot named by the pending question. */
  function Answered(st: ScanState): (r: ScanState)
    ensures r == st.(outcomeProvided := st.outcomeProvided || st.lastQuery == InitialQuery,
                     whyProvided := st.whyProvided || st.lastQuery == WhyQuery,
                     nextGoalProvided := st.nextGoalProvided || st.lastQuery == NextGoalQuery)
  {
    if st.lastQuery == InitialQuery then st.(outcomeProvided := true)
    else if st.lastQuery == WhyQuery then st.(whyProvided := true)
    else if st.lastQuery == NextGoalQuery then st.(nextGoalProvided := true)
    else st
  }

  /** The state of the pass after the first `n` records. */
  function ScanUpTo(es: seq<Event>, n: nat): ScanState
    requires n <= |es|
  {
    if n == 0 then Start else Step(ScanUpTo(es, n - 1), es[n - 1])
  }

  /** The state of the pass after the whole transcript. */
  function Scan(h: seq<Message>): ScanState
  {
    ScanUpTo(Events(h), |h|)
  }

  /**
   * What `determineStageAndInstruction` returns. The system instruction is held
   * by its key in the instruction table; `SystemPromptInjective` makes comparing
   * keys the same as comparing the texts.
   */
  datatype StageInfo = StageInfo(
    systemInstruction: PromptKey,
    currentStage: Stage,
    collectedInfo: CollectedInfo,
    previousAssistantActionPrompt: AssistantAction)

  /** The instruction that goes with each stage the resolver can report. */
  function InstructionFor(s: Stage): PromptKey
  {
    match s
    case Concluded => PostConclusionDefault
    case AwaitingWhy => RequestWhy
    case AwaitingNextGoal => RequestNextGoal
    case AwaitingConclusion => RequestConclude
    case _ => GeneralGuidance
  }

  /** The first-match decision on the final state of the pass. */
  function Resolve(st: ScanState): (r: StageInfo)
    ensures r.collectedInfo == CollectedInfo(st.outcomeProvided, st.whyProvided, st.nextGoalProvided)
    ensures r.previousAssistantActionPrompt == st.previousAction
    ensures r.systemInstruction == InstructionFor(r.currentStage)
    ensures r.currentStage == Concluded <==> st.conversationConcluded
    ensures r.currentStage == AwaitingWhy <==>
      !st.conversationConcluded && !(st.outcomeProvided && st.whyProvided)
    ensures r.currentStage == AwaitingNextGoal <==>
      !st.conversationConcluded && st.outcomeProvided && st.whyProvided && !st.nextGoalProvided
    ensures r.currentStage == AwaitingConclusion <==>
      !st.conversationConcluded && st.outcomeProvided && st.whyProvided && st.nextGoalProvided
  {
    var collectedInfo := CollectedInfo(st.outcomeProvided, st.whyProvided, st.nextGoalProvided);
    if st.conversationConcluded then
      StageInfo(PostConclusionDefault, Concluded, collectedInfo, st.previousAction)
    else if !st.outcomeProvided then
      StageInfo(RequestWhy, AwaitingWhy, collectedInfo, st.previousAction)
    else if !st.whyProvided then
      StageInfo(RequestWhy, AwaitingWhy, collectedInfo, st.previousAction)
    else if !st.nextGoalProvided then
      StageInfo(RequestNextGoal, AwaitingNextGoal, collectedInfo, st.previousAction)
    else
      StageInfo(RequestConclude, AwaitingConclusion, collectedInfo, st.previousAction)
  }

  /**
   * `determineStageAndInstruction`: one pass over the transcript updating the six
   * locals of the source, then the first-match decision of `Resolve`.
   */
  method DetermineStageAndInstruction(priorChatHistory: seq<Message>) returns (info: StageInfo)
    ensures info == Resolve(Scan(priorChatHistory))
  {
    var outcomeProvided := false;
    var whyProvided := false;
    var nextGoalProvided := false;
    var conversationConcluded := false;
    var lastAssistantQueryType := NoQuery;
    var previousAssistantActionPrompt := NoAction;
    ghost var events := Events(priorChatHistory);

    for i := 0 to |priorChatHistory|
      invariant ScanState(outcomeProvided, whyProvided, nextGoalProvided, conversationConcluded,
                          lastAssistantQueryType, previousAssistantActionPrompt)
                == ScanUpTo(events, i)
    {
      var message := priorChatHistory[i];
      ghost var before := ScanUpTo(events, i);
      EventAt(priorChatHistory, i);
      if message.role == "assistant" {
        // the first pattern that matches decides the class of the message
        var query := Classify(message.content);
        assert events[i] == AssistantSaid(query);
        lastAssistantQueryType := query;
        if query == ConclusionQuery {
          conversationConcluded := true;
        }
        // a message that matches no pattern keeps the last significant action
        if query != NoQuery {
          previousAssistantActionPrompt := ActionOf(query);
        }
        assert ScanState(outcomeProvided, whyProvided, nextGoalProvided, conversationConcluded,
                         lastAssistantQueryType, previousAssistantActionPrompt) == Asked(before, query);
      } else if message.role == "user" {
        assert events[i] == UserSaid;
        if lastAssistantQueryType == InitialQuery {
          outcomeProvided := true;
        } else if lastAssistantQueryType == WhyQuery {
          whyProvided := true;
        } else if lastAssistantQueryType == NextGoalQuery {
          nextGoalProvided := true;
        }
        assert ScanState(outcomeProvided, whyProvided, nextGoalProvided, conversationConcluded,
                         lastAssistantQueryType, previousAssistantActionPrompt) == Answered(before);
      }
      assert ScanState(outcomeProvided, whyProvided, nextGoalProvided, conversationConcluded,
                       lastAssistantQueryType, previousAssistantActionPrompt) == Step(before, events[i]);
    }

    info := Resolve(ScanState(outcomeProvided, whyProvided, nextGoalProvided, conversationConcluded,
                              lastAssistantQueryType, previousAssistantActionPrompt));
  }

  // ---------------------------------------------------------------------------
  // What the pass computes, stated without the pass.
  // ---------------------------------------------------------------------------

  /**
   * The question pending after the first `n` records: the class of the last
   * assistant message among them, `NoQuery` when there is none.
   */
  function PendingQuery(es: seq<Event>, n: nat): QueryType
    requires n <= |es|
  {
    if n == 0 then NoQuery
    else if es[n - 1].AssistantSaid? then es[n - 1].query
    else PendingQuery(es, n - 1)
  }

  /**
   * The action of the last assistant message among the first `n` records that
   * matched a pattern, `NoAction` when none did.
   */
  function LastSignificantAction(es: seq<Event>, n: nat): AssistantAction
    requires n <= |es|
  {
    if n == 0 then NoAction
    else if es[n - 1].AssistantSaid? && es[n - 1].query != NoQuery then ActionOf(es[n - 1].query)
    else LastSignificantAction(es, n - 1)
  }

  /** Record `k` is a user message answering question `q`. */
  ghost predicate Answers(es: seq<Event>, k: int, q: QueryType)
  {
    0 <= k < |es| && es[k] == UserSaid && PendingQuery(es, k) == q
  }

  /** The slot flag an answer to `q` fills; questions without a slot fill none. */
  function Filled(st: ScanState, q: QueryType): bool
  {
    match q
    case InitialQuery => st.outcomeProvided
    case WhyQuery => st.whyProvided
    case NextGoalQuery => st.nextGoalProvided
    case _ => false
  }

  /**
   * The pending question of the pass is the class of the last assistant message,
   * and its last significant action that of the last assistant message that
   * matched a pattern.
   */
  lemma {:induction false} ScanPending(es: seq<Event>, n: nat)
    requires n <= |es|
    ensures ScanUpTo(es, n).lastQuery == PendingQuery(es, n)
    ensures ScanUpTo(es, n).previousAction == LastSignificantAction(es, n)
  {
    if n > 0 {
      ScanPending(es, n - 1);
    }
  }

  /**
   * The pending question is the class of the assistant message that most
   * recently precedes position `n`.
   */
  lemma {:induction false} PendingQueryIff(es: seq<Event>, n: nat, q: QueryType)
    requires n <= |es| && q != NoQuery
    ensures PendingQuery(es, n) == q <==>
      exists j :: 0 <= j < n && es[j] == AssistantSaid(q)
                  && forall m :: j < m < n ==> !es[m].AssistantSaid?
  {
    if n > 0 {
      PendingQueryIff(es, n - 1, q);
      if es[n - 1] == AssistantSaid(q) {
        assert 0 <= n - 1 < n && es[n - 1] == AssistantSaid(q);
      } else if !es[n - 1].AssistantSaid? && PendingQuery(es, n - 1) == q {
        var j :| 0 <= j < n - 1 && es[j] == AssistantSaid(q)
                 && forall m :: j < m < n - 1 ==> !es[m].AssistantSaid?;
        assert forall m :: j < m < n ==> !es[m].AssistantSaid?;
      }
    }
  }

  /**
   * A slot is filled after `n` records exactly when one of them is a user
   * message answering that slot's question: the final flag is the OR over the
   * prefix.
   */
  lemma {:induction false} ScanSlot(es: seq<Event>, n: nat, q: QueryType)
    requires n <= |es| && q in {InitialQuery, WhyQuery, NextGoalQuery}
    ensures Filled(ScanUpTo(es, n), q) <==> exists k :: 0 <= k < n && Answers(es, k, q)
  {
    if n > 0 {
      ScanSlot(es, n - 1, q);
      ScanPending(es, n - 1);
      if Answers(es, n - 1, q) {
        assert Filled(ScanUpTo(es, n), q);
      }
    }
  }

  /** The conversation is concluded after `n` records exactly when one of them is a conclusion. */
  lemma {:induction false} ScanConcluded(es: seq<Event>, n: nat)
    requires n <= |es|
    ensures ScanUpTo(es, n).conversationConcluded <==>
      exists j :: 0 <= j < n && es[j] == AssistantSaid(ConclusionQuery)
  {
    if n > 0 {
      ScanConcluded(es, n - 1);
    }
  }

  /** The flags only go from false to true as the pass advances. */
  lemma {:induction false} ScanMonotone(es: seq<Event>, m: nat, n: nat)
    requires m <= n <= |es|
    ensures ScanUpTo(es, m).outcomeProvided ==> ScanUpTo(es, n).outcomeProvided
    ensures ScanUpTo(es, m).whyProvided ==> ScanUpTo(es, n).whyProvided
    ensures ScanUpTo(es, m).nextGoalProvided ==> ScanUpTo(es, n).nextGoalProvided
    ensures ScanUpTo(es, m).conversationConcluded ==> ScanUpTo(es, n).conversationConcluded
    decreases n - m
  {
    if m < n {
      ScanMonotone(es, m, n - 1);
    }
  }

  /** The events of a concatenation are the concatenated events. */
  lemma {:induction false} EventsAppend(h: seq<Message>, t: seq<Message>)
    ensures Events(h + t) == Events(h) + Events(t)
    decreases |t|
  {
    if t == [] {
      assert h + t == h;
    } else {
      var init := t[..|t| - 1];
      assert (h + t)[..|h + t| - 1] == h + init;
      assert (h + t)[|h + t| - 1] == t[|t| - 1];
      EventsAppend(h, init);
    }
  }

  /** The pass over the first `n` events does not look beyond them. */
  lemma {:induction false} ScanUpToPrefix(es: seq<Event>, fs: seq<Event>, n: nat)
    requires n <= |es|
    ensures ScanUpTo(es + fs, n) == ScanUpTo(es, n)
  {
    if n > 0 {
      ScanUpToPrefix(es, fs, n - 1);
      assert (es + fs)[n - 1] == es[n - 1];
    }
  }

  /**
   * A slot filled, or a conclusion found, in a transcript stays so in every
   * longer transcript that starts with it.
   */
  lemma ScanExtends(h: seq<Message>, t: seq<Message>)
    ensures Scan(h).outcomeProvided ==> Scan(h + t).outcomeProvided
    ensures Scan(h).whyProvided ==> Scan(h + t).whyProvided
    ensures Scan(h).nextGoalProvided ==> Scan(h + t).nextGoalProvided
    ensures Scan(h).conversationConcluded ==> Scan(h + t).conversationConcluded
  {
    EventsAppend(h, t);
    ScanUpToPrefix(Events(h), Events(t), |h|);
    ScanMonotone(Events(h + t), |h|, |h + t|);
  }

  /** The final state of the pass over a whole transcript, slot by slot. */
  lemma ScanCharacterized(h: seq<Message>, es: seq<Event>)
    requires es == Events(h)
    ensures Scan(h).outcomeProvided <==> exists k :: 0 <= k < |es| && Answers(es, k, InitialQuery)
    ensures Scan(h).whyProvided <==> exists k :: 0 <= k < |es| && Answers(es, k, WhyQuery)
    ensures Scan(h).nextGoalProvided <==> exists k :: 0 <= k < |es| && Answers(es, k, NextGoalQuery)
    ensures Scan(h).conversationConcluded <==>
      exists j :: 0 <= j < |es| && es[j] == AssistantSaid(ConclusionQuery)
    ensures Scan(h).previousAction == LastSignificantAction(es, |es|)
  {
    ScanSlot(es, |es|, InitialQuery);
    ScanSlot(es, |es|, WhyQuery);
    ScanSlot(es, |es|, NextGoalQuery);
    ScanConcluded(es, |es|);
    ScanPending(es, |es|);
  }

  /** An empty transcript: nothing collected, no action, and the why-question is next. */
  lemma EmptyHistory()
    ensures Resolve(Scan([])) ==
      StageInfo(RequestWhy, AwaitingWhy, CollectedInfo(false, false, false), NoAction)
  {
  }
}
