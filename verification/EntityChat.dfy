/**
 The entity chat workflow: prompts arrive by signal, are answered one at a time, and the
 conversation is summarized and continued as new when it gets long. Every activity succeeds.
 */
module EntityChat {
  import opened Wrappers

  datatype Line = Line(role: string, text: string)

  datatype Params = Params(summary: Option<string>, queue: seq<string>)

  /** The awaits of a run; `NotBegun` is a run whose signal handlers may already be called. */
  datatype Position =
    | NotBegun(params: Params)
    | Waiting
    | AwaitingResponse(prompt: string)
    | AwaitingSummary
    | AwaitingLastSummary
    | Closed

  datatype Chat = Chat(history: seq<Line>, queue: seq<string>, summary: Option<string>, ended: bool, position: Position)

  const TURN_LIMIT := 6

  function NewRun(params: Params): Chat {
    Chat([], [], None, false, NotBegun(params))
  }

  predicate Accepts(c: Chat) {
    !c.ended && !c.position.Closed?
  }

  function UserPrompt(c: Chat, prompt: string): Chat {
    if c.ended then c else c.(queue := c.queue + [prompt])
  }

  function Begin(c: Chat): Chat
    requires c.position.NotBegun?
  {
    var params := c.position.params;
    var d := if params.summary.Some? && params.summary.value != ""
             then c.(history := c.history + [Line("conversation_summary", params.summary.value)], summary := params.summary)
             else c;
    d.(queue := c.queue + params.queue, position := Waiting)
  }

  /** One pass of the loop from its wait condition to the next await. */
  function Proceed(c: Chat): Chat
    requires c.queue != [] || c.ended
  {
    if c.queue != [] then
      c.(queue := c.queue[1..], history := c.history + [Line("user", c.queue[0])], position := AwaitingResponse(c.queue[0]))
    else if |c.history| > 1 then c.(position := AwaitingLastSummary)
    else c.(position := Closed)
  }

  function Respond(c: Chat, response: string): Chat {
    var history := c.history + [Line("response", response)];
    c.(history := history, position := if |history| >= TURN_LIMIT then AwaitingSummary else Waiting)
  }

  function ContinueAsNew(c: Chat, summary: string): Chat {
    NewRun(Params(Some(summary), c.queue))
  }

  class EntityBedrockWorkflow {
    var conversationHistory: seq<Line>
    var promptQueue: seq<string>
    var conversationSummary: Option<string>
    var chatEnded: bool
    var position: Position

    ghost function View(): Chat
      reads this
    {
      Chat(conversationHistory, promptQueue, conversationSummary, chatEnded, position)
    }

    constructor (params: Params)
      ensures View() == NewRun(params)
    {
      conversationHistory, promptQueue, conversationSummary := [], [], None;
      chatEnded, position := false, NotBegun(params);
    }

    method OnUserPrompt(prompt: string)
      modifies this
      ensures View() == UserPrompt(old(View()), prompt)
    {
      if chatEnded {
        return;
      }
      promptQueue := promptQueue + [prompt];
    }

    method OnEndChat()
      modifies this
      ensures View() == old(View()).(ended := true)
    {
      chatEnded := true;
    }

    method BeginRun()
      requires position.NotBegun?
      modifies this
      ensures View() == Begin(old(View()))
    {
      var params := position.params;
      if params.summary.Some? && params.summary.value != "" {
        conversationHistory := conversationHistory + [Line("conversation_summary", params.summary.value)];
        conversationSummary := params.summary;
      }
      promptQueue := promptQueue + params.queue;
      position := Waiting;
    }

    method RunPass()
      requires promptQueue != [] || chatEnded
      modifies this
      ensures View() == Proceed(old(View()))
    {
      if |promptQueue| > 0 {
        var prompt := promptQueue[0];
        promptQueue := promptQueue[1..];
        conversationHistory := conversationHistory + [Line("user", prompt)];
        position := AwaitingResponse(prompt);
      } else if |conversationHistory| > 1 {
        position := AwaitingLastSummary;
      } else {
        position := Closed;
      }
    }

    method OnResponse(response: string)
      modifies this
      ensures View() == Respond(old(View()), response)
    {
      conversationHistory := conversationHistory + [Line("response", response)];
      position := if |conversationHistory| >= TURN_LIMIT then AwaitingSummary else Waiting;
    }
  }

  // ----- The chain of runs -----

  datatype Exchange = Exchange(prompt: string, response: string)

  function Lines(exchanges: seq<Exchange>): seq<Line> {
    if exchanges == [] then []
    else Lines(exchanges[..|exchanges| - 1]) +
         [Line("user", exchanges[|exchanges| - 1].prompt), Line("response", exchanges[|exchanges| - 1].response)]
  }

  function Prompts(exchanges: seq<Exchange>): seq<string> {
    if exchanges == [] then [] else Prompts(exchanges[..|exchanges| - 1]) + [exchanges[|exchanges| - 1].prompt]
  }

  /** History. Over the chain: the prompts accepted and the prompts answered. Over the current run:
      the summary it was handed, its exchanges, its prompts in the order they were lined up, and the
      summary made when the chat closed. */
  datatype System = System(
    chat: Chat, accepted: multiset<string>, answered: multiset<string>,
    handed: Option<string>, exchanges: seq<Exchange>, lined: seq<string>, closing: Option<string>)

  datatype Step =
    | PromptStep(prompt: string)
    | EndStep
    | BeginStep
    | ProceedStep
    | ResponseStep(response: string)
    | SummaryStep(summary: string)

  predicate Enabled(s: System, step: Step) {
    match step
    case PromptStep(_) => !s.chat.position.Closed?
    case EndStep => !s.chat.position.Closed?
    case BeginStep => s.chat.position.NotBegun?
    case ProceedStep => s.chat.position.Waiting? && (s.chat.queue != [] || s.chat.ended)
    case ResponseStep(_) => s.chat.position.AwaitingResponse?
    case SummaryStep(_) => s.chat.position.AwaitingSummary? || s.chat.position.AwaitingLastSummary?
  }

  function Apply(s: System, step: Step): System
    requires Enabled(s, step)
  {
    match step
    case PromptStep(prompt) =>
      if !s.chat.ended
      then s.(chat := UserPrompt(s.chat, prompt), accepted := s.accepted + multiset{prompt}, lined := s.lined + [prompt])
      else s.(chat := UserPrompt(s.chat, prompt))
    case EndStep => s.(chat := s.chat.(ended := true))
    case BeginStep =>
      s.(chat := Begin(s.chat), lined := s.lined + s.chat.position.params.queue)
    case ProceedStep => s.(chat := Proceed(s.chat))
    case ResponseStep(response) =>
      s.(chat := Respond(s.chat, response),
         answered := s.answered + multiset{s.chat.position.prompt},
         exchanges := s.exchanges + [Exchange(s.chat.position.prompt, response)])
    case SummaryStep(summary) =>
      if s.chat.position.AwaitingSummary?
      then s.(chat := ContinueAsNew(s.chat, summary), handed := Some(summary), exchanges := [], lined := [])
      else s.(chat := s.chat.(summary := Some(summary), position := Closed), closing := Some(summary))
  }

  predicate Reaches(s: System, steps: seq<Step>, t: System)
    decreases |steps|
  {
    if steps == [] then s == t
    else Enabled(s, steps[0]) && Reaches(Apply(s, steps[0]), steps[1..], t)
  }

  /** A chat started with a summary and some prompts already queued. */
  function Initial(params: Params): System {
    System(NewRun(params), multiset(params.queue), multiset{}, params.summary, [], [], None)
  }

  /** The prompt that is with the model now. */
  function Asked(c: Chat): seq<string> {
    if c.position.AwaitingResponse? then [c.position.prompt] else []
  }

  function CarriedOver(c: Chat): seq<string> {
    if c.position.NotBegun? then c.position.params.queue else []
  }

  /** Accepted and not answered yet: with the model, queued, or carried over. */
  function Pending(c: Chat): multiset<string> {
    multiset(Asked(c)) + multiset(c.queue) + multiset(CarriedOver(c))
  }

  /** What the history of a run must read like. */
  function Transcript(header: seq<Line>, exchanges: seq<Exchange>, asked: seq<string>): seq<Line> {
    header + Lines(exchanges) + (if asked == [] then [] else [Line("user", asked[0])])
  }

  /** A run that was handed a summary opens with it; an empty one counts as none. */
  function Opening(handed: Option<string>): seq<Line> {
    if handed.Some? && handed.value != "" then [Line("conversation_summary", handed.value)] else []
  }

  predicate Conserved(s: System) {
    s.accepted == s.answered + Pending(s.chat)
  }

  predicate InOrder(s: System) {
    s.lined == Prompts(s.exchanges) + (Asked(s.chat) + s.chat.queue)
  }

  predicate Recorded(s: System) {
    s.chat.history == if s.chat.position.NotBegun? then [] else Transcript(Opening(s.handed), s.exchanges, Asked(s.chat))
  }

  /** The summary goes from run to run, and the last one is made exactly if there was an exchange. */
  predicate Summarized(s: System) {
    var c := s.chat;
    && (c.position.NotBegun? ==> c.position.params.summary == s.handed && c.summary.None?)
    && (!c.position.NotBegun? ==>
          c.summary == if s.closing.Some? then s.closing else if Opening(s.handed) == [] then None else s.handed)
    && (c.position.AwaitingLastSummary? ==> s.exchanges != [])
    && (s.closing.Some? <==> c.position.Closed? && s.exchanges != [])
  }

  predicate Bounded(s: System) {
    var c := s.chat;
    && (c.position.NotBegun? ==> s.exchanges == [])
    && (if c.position.AwaitingSummary? then |s.exchanges| == 3 else |s.exchanges| <= 2)
    && (c.position.AwaitingLastSummary? || c.position.Closed? ==> c.queue == [] && c.ended)
  }

  predicate Inv(s: System) {
    Conserved(s) && InOrder(s) && Recorded(s) && Bounded(s) && Summarized(s)
  }

  lemma {:induction false} LinesLength(exchanges: seq<Exchange>)
    ensures |Lines(exchanges)| == 2 * |exchanges|
  {
    if exchanges != [] {
      LinesLength(exchanges[..|exchanges| - 1]);
    }
  }

  lemma Extended(exchanges: seq<Exchange>, e: Exchange)
    ensures Lines(exchanges + [e]) == Lines(exchanges) + [Line("user", e.prompt), Line("response", e.response)]
    ensures Prompts(exchanges + [e]) == Prompts(exchanges) + [e.prompt]
  {
    assert (exchanges + [e])[..|exchanges|] == exchanges;
  }

  lemma PendingProceed(c: Chat)
    requires c.position.Waiting? && (c.queue != [] || c.ended)
    ensures Pending(Proceed(c)) == Pending(c)
  {
    var d := Proceed(c);
    if c.queue != [] {
      assert c.queue == [c.queue[0]] + c.queue[1..];
      assert multiset(c.queue) == multiset(Asked(d)) + multiset(d.queue);
    }
  }

  lemma PendingGrows(c: Chat, prompt: string)
    requires Accepts(c)
    ensures Pending(UserPrompt(c, prompt)) == Pending(c) + multiset{prompt}
  {}

  lemma PendingShrinks(c: Chat, response: string)
    requires c.position.AwaitingResponse?
    ensures Pending(c) == Pending(Respond(c, response)) + multiset{c.position.prompt}
  {}

  lemma PendingStays(c: Chat, summary: string)
    ensures c.position.NotBegun? ==> Pending(Begin(c)) == Pending(c)
    ensures c.position.AwaitingSummary? ==> Pending(ContinueAsNew(c, summary)) == Pending(c)
  {}

  lemma ConservedKept(s: System, step: Step)
    requires Conserved(s) && Enabled(s, step)
    ensures Conserved(Apply(s, step))
  {
    var c := s.chat;
    match step {
      case ProceedStep => PendingProceed(c);
      case ResponseStep(response) => PendingShrinks(c, response);
      case PromptStep(prompt) =>
        if Accepts(c) {
          PendingGrows(c, prompt);
        }
      case SummaryStep(summary) => PendingStays(c, summary);
      case BeginStep => PendingStays(c, "");
      case EndStep =>
    }
  }

  lemma InOrderKept(s: System, step: Step)
    requires InOrder(s) && Bounded(s) && Enabled(s, step)
    ensures InOrder(Apply(s, step))
  {
    var c, t := s.chat, Apply(s, step);
    match step {
      case ResponseStep(response) =>
        Extended(s.exchanges, Exchange(c.position.prompt, response));
        assert Prompts(s.exchanges) + ([c.position.prompt] + c.queue) == Prompts(t.exchanges) + ([] + c.queue);
      case ProceedStep => assert Asked(t.chat) + t.chat.queue == Asked(c) + c.queue;
      case PromptStep(prompt) =>
        assert Prompts(s.exchanges) + (Asked(c) + c.queue) + [prompt] == Prompts(s.exchanges) + (Asked(c) + (c.queue + [prompt]));
      case BeginStep => assert Asked(c) == [] == Asked(t.chat);
      case EndStep =>
      case SummaryStep(_) =>
    }
  }

  lemma TranscriptGrows(header: seq<Line>, exchanges: seq<Exchange>, prompt: string, response: string)
    ensures Transcript(header, exchanges, []) + [Line("user", prompt)] == Transcript(header, exchanges, [prompt])
    ensures Transcript(header, exchanges, [prompt]) + [Line("response", response)] ==
            Transcript(header, exchanges + [Exchange(prompt, response)], [])
  {
    Extended(exchanges, Exchange(prompt, response));
  }

  lemma RecordedKept(s: System, step: Step)
    requires Recorded(s) && Bounded(s) && Summarized(s) && Enabled(s, step)
    ensures Recorded(Apply(s, step))
  {
    match step {
      case ResponseStep(response) => TranscriptGrows(Opening(s.handed), s.exchanges, s.chat.position.prompt, response);
      case ProceedStep =>
        if s.chat.queue != [] {
          TranscriptGrows(Opening(s.handed), s.exchanges, s.chat.queue[0], "");
        }
      case BeginStep => assert Transcript(Opening(s.handed), [], []) == Opening(s.handed);
      case _ =>
    }
  }

  lemma BoundedKept(s: System, step: Step)
    requires Recorded(s) && Bounded(s) && Enabled(s, step)
    ensures Bounded(Apply(s, step))
  {
    LinesLength(s.exchanges);
  }

  lemma SummarizedKept(s: System, step: Step)
    requires Summarized(s) && Recorded(s) && Bounded(s) && Enabled(s, step)
    ensures Summarized(Apply(s, step))
  {
    if step.ProceedStep? {
      LinesLength(s.exchanges);
    }
  }

  lemma {:induction false} RunKeeps(s: System, steps: seq<Step>, t: System)
    requires Inv(s) && Reaches(s, steps, t)
    ensures Inv(t)
    decreases |steps|
  {
    if steps != [] {
      ConservedKept(s, steps[0]);
      InOrderKept(s, steps[0]);
      RecordedKept(s, steps[0]);
      BoundedKept(s, steps[0]);
      SummarizedKept(s, steps[0]);
      RunKeeps(Apply(s, steps[0]), steps[1..], t);
    }
  }

  /** Over the whole chain no accepted prompt is lost or answered twice, and the workflow returns
      only when everything accepted has been answered. */
  lemma Conservation(params: Params, steps: seq<Step>, t: System)
    requires Reaches(Initial(params), steps, t)
    ensures t.accepted == t.answered + Pending(t.chat)
    ensures t.chat.position.Closed? ==> t.chat.queue == [] && t.accepted == t.answered
  {
    RunKeeps(Initial(params), steps, t);
  }

  /** Within a run prompts are taken first come, first served; the history is exactly the summary
      that the run before made, if it is not empty, followed by the exchanges in that order; and it
      never exceeds seven lines, since a run continues as new after exactly three exchanges. */
  lemma HistoryOfRun(params: Params, steps: seq<Step>, t: System)
    requires Reaches(Initial(params), steps, t)
    ensures t.lined == Prompts(t.exchanges) + (Asked(t.chat) + t.chat.queue)
    ensures !t.chat.position.NotBegun? ==>
      t.chat.history == Transcript(Opening(t.handed), t.exchanges, Asked(t.chat))
    ensures |t.chat.history| <= 7
    ensures |t.exchanges| <= 3 && (t.chat.position.AwaitingSummary? <==> |t.exchanges| == 3)
  {
    RunKeeps(Initial(params), steps, t);
    LinesLength(t.exchanges);
  }

  /** The summary a run is handed is the last one made, and the one a chat closes with is made exactly
      if its last run had an exchange; without one it stays what the run was handed. */
  lemma SummariesHandedOn(params: Params, steps: seq<Step>, t: System)
    requires Reaches(Initial(params), steps, t)
    ensures t.chat.position.NotBegun? ==> t.chat.position.params.summary == LastSummary(params.summary, steps)
    ensures t.chat.position.Closed? ==>
      t.chat.summary ==
        if t.exchanges == [] && Opening(t.handed) == [] then None else LastSummary(params.summary, steps)
  {
    RunKeeps(Initial(params), steps, t);
    HandedIsLast(Initial(params), steps, t);
  }

  /** The last summary made along the steps. */
  function LastSummary(before: Option<string>, steps: seq<Step>): Option<string>
    decreases |steps|
  {
    if steps == [] then before
    else LastSummary(if steps[0].SummaryStep? then Some(steps[0].summary) else before, steps[1..])
  }

  lemma {:induction false} HandedIsLast(s: System, steps: seq<Step>, t: System)
    requires Reaches(s, steps, t)
    ensures (if t.closing.Some? then t.closing else t.handed) ==
      LastSummary(if s.closing.Some? then s.closing else s.handed, steps)
    requires s.closing.Some? ==> s.chat.position.Closed?
    decreases |steps|
  {
    if steps != [] {
      HandedIsLast(Apply(s, steps[0]), steps[1..], t);
    }
  }

  // ----- The chat can always be closed -----

  function Unanswered(c: Chat): nat {
    |c.queue| + |CarriedOver(c)| + |Asked(c)|
  }

  function Rank(c: Chat): nat {
    match c.position
    case AwaitingSummary => 3
    case NotBegun(_) => 2
    case Waiting => 1
    case _ => 0
  }

  lemma Then(s: System, step: Step, rest: seq<Step>, t: System)
    requires Enabled(s, step) && Reaches(Apply(s, step), rest, t)
    ensures Reaches(s, [step] + rest, t)
  {
    assert ([step] + rest)[1..] == rest;
  }

  /** From every state some continuation closes the chat, with every prompt accepted so far answered. */
  lemma {:induction false} Closes(s: System) returns (steps: seq<Step>, t: System)
    ensures Reaches(s, steps, t) && t.chat.position.Closed?
    decreases Unanswered(s.chat), Rank(s.chat), if s.chat.ended then 0 else 1, if s.chat.position.Closed? then 0 else 1
  {
    if s.chat.position.Closed? {
      return [], s;
    }
    var step := match s.chat.position
      case NotBegun(_) => BeginStep
      case Waiting => if s.chat.queue == [] && !s.chat.ended then EndStep else ProceedStep
      case AwaitingResponse(_) => ResponseStep("")
      case _ => SummaryStep("");
    var rest;
    rest, t := Closes(Apply(s, step));
    Then(s, step, rest, t);
    steps := [step] + rest;
  }
}
