/** The agent loop: rounds of a language model that may ask for tools, bounded in number, with every
    step emitted as an event. */
module AgentLoop {
  import opened Options

  const MAX_AGENT_ITERATIONS: nat := 8
  const MODEL_ATTEMPTS: nat := 3

  datatype Call = Call(name: string, parameters: string)

  /** A model's answer: a text, or tool calls. */
  datatype Reply = Reply(text: string, calls: seq<Call>)

  datatype Fault = UnknownTool(name: string) | Raised(message: string)

  datatype Failure = CallFailed | TooManyRounds

  /** What the follow-up request carries for a call: the tool's output, or its error. */
  datatype ToolResult = ToolResult(call: Call, outcome: Result<string, Fault>)

  datatype Request = Request(message: string, toolResults: Option<seq<ToolResult>>)

  datatype Event =
    | Thinking(calls: nat)
    | ToolCall(name: string, parameters: string)
    | ToolOutput(name: string, content: string)
    | FinalAnswer(text: string)
    | Error(reason: Failure)

  /** Any behaviour of model and tools: the names of the tools there are, the replies by round and attempt,
      and what tool calls give by round and position. An attempt without a reply raises. */
  datatype World = World(
    registry: set<string>,
    replies: map<(nat, nat), Reply>,
    outputs: map<(nat, nat), Result<string, Fault>>)

  function Model(world: World, round: nat, attempt: nat): Option<Reply> {
    if (round, attempt) in world.replies then Some(world.replies[(round, attempt)]) else None
  }

  function Truncated(s: string): string {
    if |s| <= 200 then s else s[..200]
  }

  function Outcome(world: World, round: nat, index: nat, call: Call): Result<string, Fault> {
    if call.name !in world.registry then Err(UnknownTool(call.name))
    else if (round, index) in world.outputs then world.outputs[(round, index)]
    else Err(Raised(""))
  }

  /** The first reply among the attempts left, and how many attempts are made for it. */
  function Answer(world: World, round: nat, attempt: nat): (Option<Reply>, nat)
    requires attempt < MODEL_ATTEMPTS
    decreases MODEL_ATTEMPTS - attempt
  {
    var reply := Model(world, round, attempt);
    if reply.Some? || attempt + 1 == MODEL_ATTEMPTS then (reply, 1)
    else
      var later := Answer(world, round, attempt + 1);
      (later.0, 1 + later.1)
  }

  /** A round's reply, if any of its attempts gets one. */
  function ReplyOf(world: World, round: nat): Option<Reply> {
    Answer(world, round, 0).0
  }

  // ----- The automaton of an event stream -----

  /** Where a consumer of the stream stands. `Between` rounds, so many have begun. `Inside` a round,
      so many calls are still to come, and the last one named has had no output yet, if any. */
  datatype Phase =
    | Between(rounds: nat)
    | Inside(rounds: nat, left: nat, pending: Option<string>)
    | Closed(failed: bool)
    | Broken

  function Closing(rounds: nat, e: Event): Phase {
    if e.FinalAnswer? then Closed(false) else if e.Error? then Closed(true) else Broken
  }

  function Opening(rounds: nat, calls: nat): Phase {
    if rounds < MAX_AGENT_ITERATIONS && calls > 0 then Inside(rounds + 1, calls, None) else Broken
  }

  function Advance(p: Phase, e: Event): Phase {
    match p
    case Between(rounds) =>
      if e.Thinking? then Opening(rounds, e.calls)
      else Closing(rounds, e)
    case Inside(rounds, left, pending) =>
      if e.ToolCall? then (if left > 0 then Inside(rounds, left - 1, Some(e.name)) else Broken)
      else if e.ToolOutput? then (if pending == Some(e.name) then Inside(rounds, left, None) else Broken)
      else if left > 0 then Broken
      else if e.Thinking? then Opening(rounds, e.calls)
      else Closing(rounds, e)
    case _ => Broken
  }

  /** Reads a stream: each round is `thinking` and then the announced number of calls, each with at
      most one output; one final answer or error closes the stream. */
  function Read(p: Phase, events: seq<Event>): Phase {
    if events == [] then p else Advance(Read(p, events[..|events| - 1]), events[|events| - 1])
  }

  predicate AtRoundEnd(p: Phase, rounds: nat) {
    p == Between(rounds) || (p.Inside? && p.rounds == rounds && p.left == 0)
  }

  /** A stream that reads as closed has exactly one closing event, its last. */
  lemma {:induction false} OnlyTheLastCloses(events: seq<Event>)
    requires Read(Between(0), events).Closed?
    ensures events != [] && (events[|events| - 1].FinalAnswer? || events[|events| - 1].Error?)
    ensures Read(Between(0), events).failed <==> events[|events| - 1].Error?
    ensures forall i :: 0 <= i < |events| - 1 ==> !events[i].FinalAnswer? && !events[i].Error?
  {
    NoneClosedBefore(events[..|events| - 1]);
  }

  lemma {:induction false} NoneClosedBefore(events: seq<Event>)
    requires !Read(Between(0), events).Closed? && !Read(Between(0), events).Broken?
    ensures forall i :: 0 <= i < |events| ==> !events[i].FinalAnswer? && !events[i].Error?
  {
    if events != [] {
      NoneClosedBefore(events[..|events| - 1]);
    }
  }

  // ----- What a session sends and emits -----

  /** Whether a round's reply asks for tools. */
  predicate Calling(world: World, round: nat) {
    var reply := ReplyOf(world, round);
    reply.Some? && reply.value.calls != []
  }

  function CallsOf(world: World, round: nat): seq<Call> {
    var reply := ReplyOf(world, round);
    if reply.Some? then reply.value.calls else []
  }

  predicate AllCalling(world: World, n: nat) {
    n == 0 || (AllCalling(world, n - 1) && Calling(world, n - 1))
  }

  /** The rounds before `last` all ask for tools, and `last` does not unless it reaches the bound. */
  predicate StopsAt(world: World, last: nat) {
    last <= MAX_AGENT_ITERATIONS && AllCalling(world, last) && (last < MAX_AGENT_ITERATIONS ==> !Calling(world, last))
  }

  /** `soFar` and then, for each call, its naming and the output it gives, if it gives one. */
  function CallEvents(world: World, round: nat, calls: seq<Call>, soFar: seq<Event>): seq<Event> {
    if calls == [] then soFar
    else
      var n := |calls| - 1;
      var named := CallEvents(world, round, calls[..n], soFar) + [ToolCall(calls[n].name, calls[n].parameters)];
      var outcome := Outcome(world, round, n, calls[n]);
      if outcome.Ok? then named + [ToolOutput(calls[n].name, Truncated(outcome.value))] else named
  }

  function RoundEvents(world: World, round: nat, soFar: seq<Event>): seq<Event> {
    CallEvents(world, round, CallsOf(world, round), soFar + [Thinking(|CallsOf(world, round)|)])
  }

  /** The events of the first `n` rounds. */
  function Rounds(world: World, n: nat): seq<Event> {
    if n == 0 then [] else RoundEvents(world, n - 1, Rounds(world, n - 1))
  }

  /** The event that closes the stream. */
  function Close(world: World, round: nat): Event {
    if round >= MAX_AGENT_ITERATIONS then Error(TooManyRounds)
    else
      var reply := ReplyOf(world, round);
      if reply == None then Error(CallFailed) else FinalAnswer(reply.value.text)
  }

  function Results(world: World, round: nat, calls: seq<Call>): seq<ToolResult> {
    if calls == [] then []
    else
      var n := |calls| - 1;
      Results(world, round, calls[..n]) + [ToolResult(calls[n], Outcome(world, round, n, calls[n]))]
  }

  /** The request that opens a round: the query alone, and later the results of the round before. */
  function RequestAt(world: World, query: string, round: nat): Request {
    if round == 0 then Request(query, None)
    else Request("", Some(Results(world, round - 1, CallsOf(world, round - 1))))
  }

  function Requests(world: World, query: string, n: nat): seq<Request> {
    if n == 0 then [] else Requests(world, query, n - 1) + [RequestAt(world, query, n - 1)]
  }

  lemma OneMoreRound(world: World, query: string, round: nat)
    ensures Requests(world, query, round + 1) == Requests(world, query, round) + [RequestAt(world, query, round)]
    ensures Calling(world, round) ==>
              && Rounds(world, round + 1) == CallEvents(world, round, ReplyOf(world, round).value.calls,
                                               Rounds(world, round) + [Thinking(|ReplyOf(world, round).value.calls|)])
              && RequestAt(world, query, round + 1) ==
                 Request("", Some(Results(world, round, ReplyOf(world, round).value.calls)))
  {}

  // ----- The same, said of the world -----

  /** The reply of the first attempt of a round that gives one, or none after the last of three. */
  predicate FirstReply(world: World, round: nat, attempts: nat, reply: Option<Reply>) {
    && 1 <= attempts <= 3
    && (forall k :: 0 <= k < attempts - 1 ==> (round, k) !in world.replies)
    && if (round, attempts - 1) in world.replies then reply == Some(world.replies[(round, attempts - 1)])
       else reply == None && attempts == 3
  }

  lemma {:induction false} AnswerIsFirst(world: World, round: nat, attempt: nat)
    requires attempt < MODEL_ATTEMPTS && forall k :: 0 <= k < attempt ==> (round, k) !in world.replies
    ensures FirstReply(world, round, attempt + Answer(world, round, attempt).1, Answer(world, round, attempt).0)
    decreases MODEL_ATTEMPTS - attempt
  {
    if Model(world, round, attempt) == None && attempt + 1 < MODEL_ATTEMPTS {
      AnswerIsFirst(world, round, attempt + 1);
    }
  }

  /** What the follow-up request says of a call. */
  predicate IsResult(world: World, round: nat, i: nat, call: Call, result: ToolResult) {
    && result.call == call
    && if call.name !in world.registry then result.outcome == Err(UnknownTool(call.name))
       else if (round, i) in world.outputs then result.outcome == world.outputs[(round, i)]
       else result.outcome == Err(Raised(""))
  }

  /** Right after the naming of a call stands the beginning of its output, if it gives one. */
  predicate IsAnswered(world: World, round: nat, i: nat, call: Call, events: seq<Event>, k: nat) {
    if call.name in world.registry && (round, i) in world.outputs && world.outputs[(round, i)].Ok? then
      && k + 1 < |events| && events[k + 1].ToolOutput? && events[k + 1].name == call.name
      && var output := world.outputs[(round, i)].value;
         events[k + 1].content == output[..if |output| > 200 then 200 else |output|]
    else k + 1 < |events| ==> !events[k + 1].ToolOutput?
  }

  predicate NamesCall(events: seq<Event>, start: nat, k: nat) {
    start <= k < |events| && events[k].ToolCall?
  }

  /** From `start` on, the events name exactly the calls, in their order, each answered as it is. */
  ghost predicate Shows(world: World, round: nat, calls: seq<Call>, events: seq<Event>, start: nat) {
    exists at: seq<nat> :: Enumerates(at, |events|, (k: nat) => NamesCall(events, start, k)) &&
                           NamedAt(world, round, calls, events, at)
  }

  predicate NamedAt(world: World, round: nat, calls: seq<Call>, events: seq<Event>, at: seq<nat>) {
    && |at| == |calls|
    && forall i :: 0 <= i < |calls| ==>
         && at[i] < |events| && events[at[i]] == ToolCall(calls[i].name, calls[i].parameters)
         && IsAnswered(world, round, i, calls[i], events, at[i])
  }

  lemma NothingNamed(world: World, round: nat, soFar: seq<Event>)
    ensures Shows(world, round, [], soFar, |soFar|)
  {
    var at: seq<nat> := [];
    assert Enumerates(at, |soFar|, (k: nat) => NamesCall(soFar, |soFar|, k)) && NamedAt(world, round, [], soFar, at);
  }

  lemma ShowsOneMore(world: World, round: nat, calls: seq<Call>, before: seq<Event>, after: seq<Event>, start: nat)
    requires calls != [] && Shows(world, round, calls[..|calls| - 1], before, start) && start <= |before|
    requires before < after && (|after| == |before| + 1 || (|after| == |before| + 2 && !after[|before| + 1].ToolCall?))
    requires var n := |calls| - 1;
             && after[|before|] == ToolCall(calls[n].name, calls[n].parameters)
             && IsAnswered(world, round, n, calls[n], after, |before|)
    ensures Shows(world, round, calls, after, start)
  {
    var at: seq<nat> :| Enumerates(at, |before|, (k: nat) => NamesCall(before, start, k)) &&
                        NamedAt(world, round, calls[..|calls| - 1], before, at);
    OneMoreNamed(before, after, start, at);
    StillNamed(world, round, calls, before, after, at);
    var more: seq<nat> := at + [|before|];
    assert NamedAt(world, round, calls, after, more);
  }

  lemma {:induction false} CallEventsShow(world: World, round: nat, calls: seq<Call>, soFar: seq<Event>)
    ensures soFar <= CallEvents(world, round, calls, soFar)
    ensures Shows(world, round, calls, CallEvents(world, round, calls, soFar), |soFar|)
  {
    if calls == [] {
      NothingNamed(world, round, soFar);
    } else {
      CallEventsShow(world, round, calls[..|calls| - 1], soFar);
      ShowsOneMore(world, round, calls, CallEvents(world, round, calls[..|calls| - 1], soFar),
                   CallEvents(world, round, calls, soFar), |soFar|);
    }
  }

  lemma OneMoreNamed(before: seq<Event>, after: seq<Event>, start: nat, at: seq<nat>)
    requires before < after && start <= |before| && after[|before|].ToolCall?
    requires |after| == |before| + 1 || (|after| == |before| + 2 && !after[|before| + 1].ToolCall?)
    requires Enumerates(at, |before|, (k: nat) => NamesCall(before, start, k))
    ensures Enumerates(at + [|before|], |after|, (k: nat) => NamesCall(after, start, k))
  {
    var p, q := (k: nat) => NamesCall(before, start, k), (k: nat) => NamesCall(after, start, k);
    assert forall k: nat :: k < |before| ==> before[k] == after[k] && p(k) == q(k);
    EnumeratesOneMore(at, |before|, p, q);
    if |after| > |before| + 1 { EnumeratesOneMore(at + [|before|], |before| + 1, q, q); }
  }

  lemma StillNamed(world: World, round: nat, calls: seq<Call>, before: seq<Event>, after: seq<Event>, at: seq<nat>)
    requires calls != [] && before < after && after[|before|].ToolCall?
    requires NamedAt(world, round, calls[..|calls| - 1], before, at)
    ensures forall i :: 0 <= i < |calls| - 1 ==>
              && at[i] < |after| && after[at[i]] == ToolCall(calls[i].name, calls[i].parameters)
              && IsAnswered(world, round, i, calls[i], after, at[i])
  {
    forall i | 0 <= i < |calls| - 1
      ensures at[i] < |after| && after[at[i]] == ToolCall(calls[i].name, calls[i].parameters)
      ensures IsAnswered(world, round, i, calls[i], after, at[i])
    {
      assert calls[..|calls| - 1][i] == calls[i];
      assert IsAnswered(world, round, i, calls[i], before, at[i]);
    }
  }

  lemma RoundGrows(world: World, round: nat, soFar: seq<Event>)
    ensures soFar <= RoundEvents(world, round, soFar)
  {
    CallEventsShow(world, round, CallsOf(world, round), soFar + [Thinking(|CallsOf(world, round)|)]);
  }

  lemma {:induction false} RoundsGrow(world: World, r: nat, n: nat)
    requires r <= n
    ensures Rounds(world, r) <= Rounds(world, n)
  {
    if r < n {
      RoundsGrow(world, r, n - 1);
      RoundGrows(world, n - 1, Rounds(world, n - 1));
    }
  }

  /** Each round of a session: announced with the number of its calls, and then these calls. */
  lemma RoundShown(world: World, r: nat, n: nat)
    requires r < n
    ensures Rounds(world, r) + [Thinking(|CallsOf(world, r)|)] <= Rounds(world, r + 1) <= Rounds(world, n)
    ensures Shows(world, r, CallsOf(world, r), Rounds(world, r + 1), |Rounds(world, r)| + 1)
  {
    CallEventsShow(world, r, CallsOf(world, r), Rounds(world, r) + [Thinking(|CallsOf(world, r)|)]);
    RoundsGrow(world, r + 1, n);
  }

  /** How a session ends: with the text of a reply without calls, with a failed model call, or after the
      last round allowed. */
  ghost predicate EndsWith(world: World, round: nat, raised: bool, last: Event) {
    if round == 8 then raised && last == Error(TooManyRounds)
    else if raised then last == Error(CallFailed) && FirstReply(world, round, 3, None)
    else exists attempts, text :: last == FinalAnswer(text) && FirstReply(world, round, attempts, Some(Reply(text, [])))
  }

  lemma CloseEnds(world: World, round: nat)
    requires StopsAt(world, round)
    ensures EndsWith(world, round, Close(world, round).Error?, Close(world, round))
  {
    if round < MAX_AGENT_ITERATIONS {
      AnswerIsFirst(world, round, 0);
      if ReplyOf(world, round).Some? {
        assert FirstReply(world, round, Answer(world, round, 0).1, Some(Reply(ReplyOf(world, round).value.text, [])));
      }
    }
  }

  lemma {:induction false} ResultsAre(world: World, round: nat, calls: seq<Call>)
    ensures |Results(world, round, calls)| == |calls|
    ensures forall i :: 0 <= i < |calls| ==> IsResult(world, round, i, calls[i], Results(world, round, calls)[i])
  {
    if calls != [] { ResultsAre(world, round, calls[..|calls| - 1]); }
  }

  lemma {:induction false} FirstRequest(world: World, query: string, n: nat)
    requires n > 0
    ensures |Requests(world, query, n)| == n && Requests(world, query, n)[0] == Request(query, None)
  {
    if n > 1 { FirstRequest(world, query, n - 1); }
  }

  // ----- The loop -----

  class ContractReviewAgent {
    constructor () {}

    /** One model call, retried up to three times. */
    method CallCohere(world: World, round: nat) returns (reply: Option<Reply>, attempts: nat)
      ensures reply == ReplyOf(world, round)
      ensures (reply, attempts) == Answer(world, round, 0) && 1 <= attempts <= MODEL_ATTEMPTS
    {
      reply := Model(world, round, 0);
      attempts := 1;
      while reply == None && attempts < MODEL_ATTEMPTS
        invariant 1 <= attempts <= MODEL_ATTEMPTS && reply == Model(world, round, attempts - 1)
        invariant var rest := Answer(world, round, attempts - 1);
                  Answer(world, round, 0) == (rest.0, attempts - 1 + rest.1)
      {
        reply := Model(world, round, attempts);
        attempts := attempts + 1;
      }
    }

    /** The tool calls of one round: the stream so far extended, and the results for the next request. */
    method CallTools(world: World, round: nat, calls: seq<Call>, soFar: seq<Event>)
      returns (events: seq<Event>, toolResults: Option<seq<ToolResult>>)
      ensures events == CallEvents(world, round, calls, soFar + [Thinking(|calls|)])
      ensures toolResults == Some(Results(world, round, calls))
    {
      events := soFar + [Thinking(|calls|)];
      var results: seq<ToolResult> := [];
      var i := 0;
      while i < |calls|
        invariant 0 <= i <= |calls|
        invariant events == CallEvents(world, round, calls[..i], soFar + [Thinking(|calls|)])
        invariant results == Results(world, round, calls[..i])
      {
        assert calls[..i + 1][..i] == calls[..i];
        var outcome := Outcome(world, round, i, calls[i]);
        events := events + [ToolCall(calls[i].name, calls[i].parameters)];
        if outcome.Ok? {
          events := events + [ToolOutput(calls[i].name, Truncated(outcome.value))];
        }
        results := results + [ToolResult(calls[i], outcome)];
        i := i + 1;
      }
      assert calls[..i] == calls;
      toolResults := Some(results);
    }

    /** Runs one reasoning session. `raised` tells whether it ends by raising; `requests` are the
        messages sent to the model, one a round, `attempts` counts the calls made for them, and
        `round` counts the rounds that asked for tools. */
    method Run(query: string, world: World)
      returns (events: seq<Event>, raised: bool, requests: seq<Request>, attempts: nat, round: nat)
      ensures StopsAt(world, round) && events == Rounds(world, round) + [Close(world, round)]
      ensures EndsWith(world, round, raised, events[|events| - 1])
      ensures requests == Requests(world, query, if round < 8 then round + 1 else 8)
      ensures 1 <= |requests| <= 8 && requests[0] == Request(query, None) && attempts <= 24
    {
      events, raised, requests, attempts, round := RunRounds(query, world);
      CloseEnds(world, round);
      FirstRequest(world, query, if round < 8 then round + 1 else 8);
    }

    /** The session's loop. */
    method RunRounds(query: string, world: World)
      returns (events: seq<Event>, raised: bool, requests: seq<Request>, attempts: nat, round: nat)
      ensures StopsAt(world, round)
      ensures events == Rounds(world, round) + [Close(world, round)]
      ensures raised == Close(world, round).Error?
      ensures requests ==
              Requests(world, query, if round < MAX_AGENT_ITERATIONS then round + 1 else MAX_AGENT_ITERATIONS)
      ensures attempts <= MAX_AGENT_ITERATIONS * MODEL_ATTEMPTS
    {
      events, requests, attempts := [], [], 0;
      var message := query;
      var toolResults: Option<seq<ToolResult>> := None;
      round := 0;
      while round < MAX_AGENT_ITERATIONS
        invariant 0 <= round <= MAX_AGENT_ITERATIONS && attempts <= round * MODEL_ATTEMPTS
        invariant AllCalling(world, round)
        invariant events == Rounds(world, round)
        invariant requests == Requests(world, query, round)
        invariant Request(message, toolResults) == RequestAt(world, query, round)
      {
        requests := requests + [Request(message, toolResults)];
        var reply, made := CallCohere(world, round);
        attempts := attempts + made;
        OneMoreRound(world, query, round);
        if reply == None {
          events := events + [Error(CallFailed)];
          raised := true;
          return;
        }
        if reply.value.calls == [] {
          events := events + [FinalAnswer(reply.value.text)];
          raised := false;
          return;
        }
        events, toolResults := CallTools(world, round, reply.value.calls, events);
        message := "";
        round := round + 1;
      }
      events := events + [Error(TooManyRounds)];
      raised := true;
    }
  }

  // ----- The shape of every session -----

  lemma ReadLast(p: Phase, events: seq<Event>, e: Event)
    ensures Read(p, events + [e]) == Advance(Read(p, events), e)
  {
    assert (events + [e])[..|events|] == events;
  }

  /** A round's calls bring a reader through exactly one call each, so many in all. */
  lemma {:induction false} CallsRead(world: World, round: nat, calls: seq<Call>, soFar: seq<Event>)
    requires Read(Between(0), soFar).Inside? && |calls| <= Read(Between(0), soFar).left
    ensures var p, q := Read(Between(0), soFar), Read(Between(0), CallEvents(world, round, calls, soFar));
            q.Inside? && q.rounds == p.rounds && q.left == p.left - |calls|
  {
    if calls != [] {
      var n := |calls| - 1;
      CallsRead(world, round, calls[..n], soFar);
      var earlier := CallEvents(world, round, calls[..n], soFar);
      var named := earlier + [ToolCall(calls[n].name, calls[n].parameters)];
      ReadLast(Between(0), earlier, ToolCall(calls[n].name, calls[n].parameters));
      var outcome := Outcome(world, round, n, calls[n]);
      if outcome.Ok? {
        ReadLast(Between(0), named, ToolOutput(calls[n].name, Truncated(outcome.value)));
      }
    }
  }

  lemma RoundReads(world: World, round: nat, soFar: seq<Event>)
    requires round < MAX_AGENT_ITERATIONS && Calling(world, round) && AtRoundEnd(Read(Between(0), soFar), round)
    ensures AtRoundEnd(Read(Between(0), RoundEvents(world, round, soFar)), round + 1)
  {
    var calls := CallsOf(world, round);
    ReadLast(Between(0), soFar, Thinking(|calls|));
    CallsRead(world, round, calls, soFar + [Thinking(|calls|)]);
  }

  lemma {:induction false} RoundsRead(world: World, n: nat)
    requires n <= MAX_AGENT_ITERATIONS && AllCalling(world, n)
    ensures AtRoundEnd(Read(Between(0), Rounds(world, n)), n)
  {
    if n > 0 {
      RoundsRead(world, n - 1);
      RoundReads(world, n - 1, Rounds(world, n - 1));
    }
  }

  /** However model and tools behave, a session's stream is at most eight rounds of the announced
      shape and exactly one closing event, its last: an error if and only if the session raises. */
  lemma {:induction false} SessionCloses(world: World, last: nat, stream: seq<Event>)
    requires StopsAt(world, last) && stream == Rounds(world, last) + [Close(world, last)]
    ensures Read(Between(0), stream) == Closed(Close(world, last).Error?)
    ensures stream != [] && stream[|stream| - 1] == Close(world, last)
    ensures forall i :: 0 <= i < |stream| - 1 ==> !stream[i].FinalAnswer? && !stream[i].Error?
  {
    RoundsRead(world, last);
    ReadLast(Between(0), Rounds(world, last), Close(world, last));
    OnlyTheLastCloses(stream);
  }

  lemma {:induction false} RequestsInRoundOrder(world: World, query: string, n: nat, r: nat)
    requires r < n
    ensures |Requests(world, query, n)| == n && Requests(world, query, n)[r] == RequestAt(world, query, r)
  {
    if n > 1 {
      RequestsInRoundOrder(world, query, n - 1, if r < n - 1 then r else 0);
    }
  }

  /** Each request after the first carries one result for each call the round before made, in the
      order of the calls. */
  lemma {:induction false} FollowUpsAnswerCalls(world: World, query: string, n: nat, r: nat)
    requires 0 < r < n && Calling(world, r - 1)
    ensures |Requests(world, query, n)| == n
    ensures var calls := ReplyOf(world, r - 1).value.calls;
            var request := Requests(world, query, n)[r];
            && request.message == "" && request.toolResults.Some? && |request.toolResults.value| == |calls|
            && forall i :: 0 <= i < |calls| ==> IsResult(world, r - 1, i, calls[i], request.toolResults.value[i])
  {
    RequestsInRoundOrder(world, query, n, r);
    ResultsAre(world, r - 1, CallsOf(world, r - 1));
  }
}
