/** The common life cycle of every agent: `execute` marks the agent running,
    calls the agent's own `run`, and wraps what it returned or threw in an
    `AgentResult`. The agent's `run` is a parameter here: each agent module
    defines its own as a function returning an `Outcome`. */
module BaseAgent {
  import opened Wrappers
  import opened AgentTypes

  /** The fields an agent's `run` may return; they are spread over the defaults. */
  datatype Partial<D, M> = Partial(data: Option<D>, error: Option<string>, metadata: Option<M>)

  /** What `run` did: returned a partial result, or threw an error with a message. */
  datatype Outcome<D, M> = Returned(part: Partial<D, M>) | Threw(message: string)

  datatype AgentResult<D, M> = AgentResult(
    success: bool,
    agentName: string,
    duration: int,
    data: Option<D>,
    error: Option<string>,
    metadata: Option<M>)

  /** A timestamp is truthy unless it is absent or 0. */
  predicate Truthy(t: Option<int>)
  {
    t.Some? && t.value != 0
  }

  /** `getDuration`: end - start when both timestamps are truthy, else 0. */
  function DurationOf(start: Option<int>, end: Option<int>): (d: int)
    ensures !Truthy(start) || !Truthy(end) ==> d == 0
    ensures Truthy(start) && Truthy(end) ==> start.value + d == end.value
  {
    if !Truthy(start) || !Truthy(end) then 0 else end.value - start.value
  }

  /** The object literal `execute` returns for a given outcome of `run`. */
  function ResultOf<D, M>(name: string, outcome: Outcome<D, M>, duration: int): (r: AgentResult<D, M>)
    ensures r.agentName == name && r.duration == duration
    ensures r.success <==> outcome.Returned?
    ensures outcome.Threw? ==> r.data == None && r.metadata == None && r.error == Some(outcome.message)
    ensures outcome.Returned? ==>
      r.data == outcome.part.data && r.error == outcome.part.error && r.metadata == outcome.part.metadata
  {
    match outcome
    case Returned(p) => AgentResult(true, name, duration, p.data, p.error, p.metadata)
    case Threw(msg) => AgentResult(false, name, duration, None, Some(msg), None)
  }

  /** The status `execute` leaves behind. */
  function FinalStatus<D, M>(outcome: Outcome<D, M>): (s: AgentStatus)
    ensures s == Completed <==> outcome.Returned?
    ensures s == Failed <==> outcome.Threw?
  {
    if outcome.Returned? then Completed else Failed
  }

  /** An agent with its configuration name, status and timestamps. */
  class Agent {
    const name: string
    var status: AgentStatus
    var startTime: Option<int>
    var endTime: Option<int>

    constructor (name: string)
      ensures this.name == name
      ensures status == Idle && startTime == None && endTime == None
    {
      this.name := name;
      status := Idle;
      startTime := None;
      endTime := None;
    }

    function Duration(): (d: int)
      reads this
      ensures !Truthy(startTime) || !Truthy(endTime) ==> d == 0
      ensures Truthy(startTime) && Truthy(endTime) ==> startTime.value + d == endTime.value
    {
      DurationOf(startTime, endTime)
    }

    /** `execute(input)` where `run(input)` had the given outcome; `start`
        and `end` are the two clock readings. */
    method Execute<D, M>(outcome: Outcome<D, M>, start: int, end: int) returns (r: AgentResult<D, M>)
      modifies this
      ensures status == FinalStatus(outcome)
      ensures startTime == Some(start) && endTime == Some(end)
      ensures r == ResultOf(name, outcome, DurationOf(Some(start), Some(end)))
    {
      status := Running;
      startTime := Some(start);
      match outcome {
        case Returned(p) =>
          status := Completed;
          endTime := Some(end);
          r := AgentResult(true, name, Duration(), p.data, p.error, p.metadata);
        case Threw(msg) =>
          status := Failed;
          endTime := Some(end);
          r := AgentResult(false, name, Duration(), None, Some(msg), None);
      }
    }
  }
}
