/** The AI-agent application's store (`ai-agent/src/state.rs`): agents keyed by a
    sequential id. */
module AgentState {
  import opened Abi

  datatype AgentError = Unauthenticated | AgentNotFound(id: nat) | AgentNotActive

  datatype State = State(agents: map<nat, AIAgent>, nextAgentId: nat)

  function Empty(): (r: State)
    ensures r.nextAgentId == 0
    ensures forall id :: GetAgent(r, id) == Failure(AgentNotFound(id))
  {
    State(map[], 0)
  }

  /** Stores `a` under the next id (overwriting its `id` field) and advances the counter. */
  function CreateAgent(s: State, a: AIAgent): (r: (State, nat))
    ensures r.1 == s.nextAgentId && r.0.nextAgentId == s.nextAgentId + 1
    ensures GetAgent(r.0, r.1) == Success(a.(id := r.1))
    ensures forall id :: id != r.1 ==> GetAgent(r.0, id) == GetAgent(s, id)
  {
    var id := s.nextAgentId;
    (State(s.agents[id := a.(id := id)], id + 1), id)
  }

  function GetAgent(s: State, id: nat): (r: Result<AIAgent, AgentError>)
    ensures r.Success? <==> id in s.agents
    ensures r.Success? ==> r.value == s.agents[id]
    ensures r.Failure? ==> r.error == AgentNotFound(id)
  {
    if id in s.agents then Success(s.agents[id]) else Failure(AgentNotFound(id))
  }

  /** Writes `a` back under its own id; every other agent reads as before. */
  function UpdateAgent(s: State, a: AIAgent): (r: State)
    ensures GetAgent(r, a.id) == Success(a)
    ensures forall id :: id != a.id ==> GetAgent(r, id) == GetAgent(s, id)
    ensures r.nextAgentId == s.nextAgentId
  {
    s.(agents := s.agents[a.id := a])
  }
}
