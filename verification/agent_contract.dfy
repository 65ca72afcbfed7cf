/** The AI-agent application's operations (`ai-agent/src/contract.rs`). The signer is an
    explicit input. The bet an agent places in the market is an emitted command carrying
    the signer along; its answer is ignored, as in the source. */
module AgentContract {
  import opened Abi
  import opened AgentState
  import MarketContract

  datatype AgentOperation =
    | CreateAgent(name: string, strategy: AgentStrategy)
    | PlaceBet(agentId: nat, marketId: nat, prediction: Outcome, amount: Amount)
    | UpdateStats(agentId: nat, won: bool, profit: Amount)
    | ToggleAgent(agentId: nat)

  datatype AgentResponse = Ok | AgentId(id: nat) | Error(error: AgentError)

  datatype Step = Step(state: State, response: AgentResponse, sent: seq<MarketContract.Sent>)

  /** A fresh agent: no bets, no wins or losses, no profit, and active. */
  function NewAgent(name: string, strategy: AgentStrategy): (r: AIAgent)
    ensures r.name == name && r.strategy == strategy
    ensures r.totalBets == 0 && r.wins == 0 && r.losses == 0 && r.totalProfit == 0 && r.active
  {
    AIAgent(0, name, strategy, 0, 0, 0, 0, true)
  }

  /** One operation. Only CreateAgent needs a signer; the other three operate on any
      agent for anyone. */
  function Exec(s: State, caller: Option<Account>, op: AgentOperation): (r: Step)
    ensures op.CreateAgent? && caller.None? ==> r == Step(s, Error(Unauthenticated), [])
    ensures (!op.CreateAgent? && op.agentId !in s.agents) ==> r == Step(s, Error(AgentNotFound(op.agentId)), [])
    ensures (op.PlaceBet? && op.agentId in s.agents && !s.agents[op.agentId].active)
              ==> r == Step(s, Error(AgentNotActive), [])
    ensures r.response.Error? ==> r.state == s && r.sent == []
    ensures (op.CreateAgent? && caller.Some?) ==>
              && r.response == AgentId(s.nextAgentId)
              && r.state == AgentState.CreateAgent(s, NewAgent(op.name, op.strategy)).0
    ensures (op.PlaceBet? && op.agentId in s.agents && s.agents[op.agentId].active) ==>
              var a := s.agents[op.agentId];
              && r.response == Ok
              && r.state == UpdateAgent(s, a.(totalBets := a.totalBets + 1))
              && r.sent == [MarketContract.Sent(caller, MarketContract.PlaceBet(op.marketId, op.prediction, op.amount))]
    ensures (op.UpdateStats? && op.agentId in s.agents) ==>
              && r.response == Ok
              && r.state == UpdateAgent(s, s.agents[op.agentId].UpdateStats(op.won, op.profit))
              && r.sent == []
    ensures (op.ToggleAgent? && op.agentId in s.agents) ==>
              var a := s.agents[op.agentId];
              && r.response == Ok
              && r.state == UpdateAgent(s, a.(active := !a.active))
              && r.sent == []
  {
    match op
    case CreateAgent(name, strategy) =>
      if caller.None? then Step(s, Error(Unauthenticated), [])
      else
        var (s', id) := AgentState.CreateAgent(s, NewAgent(name, strategy));
        Step(s', AgentId(id), [])
    case PlaceBet(agentId, marketId, prediction, amount) =>
      (match GetAgent(s, agentId)
       case Failure(e) => Step(s, Error(e), [])
       case Success(a) =>
         if !a.active then Step(s, Error(AgentNotActive), [])
         else
           var bet := MarketContract.Sent(caller, MarketContract.PlaceBet(marketId, prediction, amount));
           Step(UpdateAgent(s, a.(totalBets := a.totalBets + 1)), Ok, [bet]))
    case UpdateStats(agentId, won, profit) =>
      (match GetAgent(s, agentId)
       case Failure(e) => Step(s, Error(e), [])
       case Success(a) => Step(UpdateAgent(s, a.UpdateStats(won, profit)), Ok, []))
    case ToggleAgent(agentId) =>
      match GetAgent(s, agentId)
      case Failure(e) => Step(s, Error(e), [])
      case Success(a) => Step(UpdateAgent(s, a.(active := !a.active)), Ok, [])
  }

  /** Every stored agent sits under its own id, below the counter, and has settled no more
      bets than it placed. */
  ghost predicate Valid(s: State) {
    forall id :: id in s.agents ==>
      && s.agents[id].id == id
      && id < s.nextAgentId
      && s.agents[id].wins + s.agents[id].losses <= s.agents[id].totalBets
  }

  lemma EmptyIsValid()
    ensures Valid(AgentState.Empty())
  {
  }

  lemma ExecPreservesValid(s: State, caller: Option<Account>, op: AgentOperation)
    requires Valid(s)
    ensures Valid(Exec(s, caller, op).state)
    ensures Exec(s, caller, op).state.agents.Keys >= s.agents.Keys
  {
  }

  /** Toggling an agent twice restores the store, whoever asks. */
  lemma ToggleTwiceRestores(s: State, c1: Option<Account>, c2: Option<Account>, id: nat)
    requires Valid(s)
    ensures Exec(Exec(s, c1, ToggleAgent(id)).state, c2, ToggleAgent(id)).state == s
  {
    if id in s.agents {
      var a := s.agents[id];
      assert s.agents[id := a.(active := !a.active)][id := a] == s.agents;
    }
  }

  // ---------------------------------------------------------------------------
  // Runs
  // ---------------------------------------------------------------------------

  datatype Call = Call(caller: Option<Account>, op: AgentOperation)

  function Run(s: State, calls: seq<Call>): State
    decreases |calls|
  {
    if |calls| == 0 then s else Run(Exec(s, calls[0].caller, calls[0].op).state, calls[1..])
  }

  /** Whatever sequence of operations runs, every agent's wins plus losses stay within its
      bet count. */
  lemma {:induction false} RunPreservesValid(s: State, calls: seq<Call>)
    requires Valid(s)
    ensures Valid(Run(s, calls))
    decreases |calls|
  {
    if |calls| > 0 {
      ExecPreservesValid(s, calls[0].caller, calls[0].op);
      RunPreservesValid(Exec(s, calls[0].caller, calls[0].op).state, calls[1..]);
    }
  }

  /** The ids reported by the successful CreateAgent calls of a run, in order. */
  function CreatedIds(s: State, calls: seq<Call>): seq<nat>
    decreases |calls|
  {
    if |calls| == 0 then []
    else
      var r := Exec(s, calls[0].caller, calls[0].op);
      (if r.response.AgentId? then [r.response.id] else []) + CreatedIds(r.state, calls[1..])
  }

  /** Agents are numbered consecutively from the counter, so from an empty store they get
      0, 1, 2, ... and no id is handed out twice. */
  lemma {:induction false} CreatedIdsAreSequential(s: State, calls: seq<Call>)
    ensures forall k :: 0 <= k < |CreatedIds(s, calls)| ==> CreatedIds(s, calls)[k] == s.nextAgentId + k
    ensures Run(s, calls).nextAgentId == s.nextAgentId + |CreatedIds(s, calls)|
    decreases |calls|
  {
    if |calls| > 0 {
      var r := Exec(s, calls[0].caller, calls[0].op);
      CreatedIdsAreSequential(r.state, calls[1..]);
    }
  }
}
