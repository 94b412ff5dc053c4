/** The fund as a state machine: one action at one clock reading per step, and runs of steps. */
module Protocol {
  import opened Text
  import opened FundModel
  import opened Rules
  import Service

  datatype Action =
    | RequestMembership(telegramId: string, address: string)
    | ApproveMember(actor: string, who: string, address: string, caller: Option<string>)
    | RequestAgent(name: string, identityId: string, address: string)
    | ApproveAgent(actor: string, name: string, landed: bool, caller: Option<string>)
    | RemoveAgent(actor: string, name: string, caller: Option<string>)
    | ClaimTopic(agent: string, topic: string)
    | ReleaseClaim(agent: string, topic: string)
    | RequestDraft(agent: string, ideaBy: string, topic: string)
    | DraftProposal(agent: string, brief: Brief)
    | ShipDraft(ref: Ref, caller: Option<string>)
    | SetStatus(actor: string, ref: Ref, target: Option<Status>, onchainId: Option<int>)
    | SetChainState(ref: Ref, reading: Service.Reading)
    | ApplyFundCard(card: Service.FundCard)
    | ApplyChainStatus(id: nat, state: Service.ChainState)
    | RecordMemberVote(ref: Ref, voter: string, ballot: Service.Ballot)
    | RecordAgentReview(ref: Ref, agent: string, ballot: Service.Ballot)
    | RecordSettle(actor: string, ref: Ref, pnl: int)
    | Configure(settings: Service.Settings)
  {
    /** Agent names reach the service trimmed. */
    predicate NamesTrimmed() {
      match this
      case RequestAgent(name, _, _) => Trimmed(name)
      case ClaimTopic(agent, _) => Trimmed(agent)
      case RequestDraft(agent, _, _) => Trimmed(agent)
      case DraftProposal(agent, _) => Trimmed(agent)
      case RecordAgentReview(_, agent, _) => Trimmed(agent)
      case _ => true
    }
  }

  function Apply(s: FundState, a: Action, now: Time): Outcome {
    match a
    case RequestMembership(telegramId, address) => Service.RequestMembership(s, telegramId, address)
    case ApproveMember(actor, who, address, caller) => Service.ApproveMember(s, actor, who, address, caller)
    case RequestAgent(name, identityId, address) => Service.RequestAgent(s, name, identityId, address)
    case ApproveAgent(actor, name, landed, caller) => Service.ApproveAgent(s, actor, name, landed, caller)
    case RemoveAgent(actor, name, caller) => Service.RemoveAgent(s, actor, name, caller)
    case ClaimTopic(agent, topic) => Service.ClaimTopic(s, agent, topic, now)
    case ReleaseClaim(agent, topic) => Service.ReleaseClaim(s, agent, topic, now)
    case RequestDraft(agent, ideaBy, topic) => Service.RequestDraft(s, agent, ideaBy, topic, now)
    case DraftProposal(agent, brief) => Service.DraftProposal(s, agent, brief, now)
    case ShipDraft(ref, caller) => Service.ShipDraft(s, ref, caller, now)
    case SetStatus(actor, ref, target, onchainId) => Service.SetStatus(s, actor, ref, target, onchainId, now)
    case SetChainState(ref, reading) => Service.SetChainState(s, ref, reading)
    case ApplyFundCard(card) => Service.ApplyFundCard(s, card)
    case ApplyChainStatus(id, state) => Service.ApplyChainStatus(s, id, state, now)
    case RecordMemberVote(ref, voter, ballot) => Service.RecordMemberVote(s, ref, voter, ballot, now)
    case RecordAgentReview(ref, agent, ballot) => Service.RecordAgentReview(s, ref, agent, ballot)
    case RecordSettle(actor, ref, pnl) => Service.RecordSettle(s, actor, ref, pnl, now)
    case Configure(settings) => Service.Configure(s, settings)
  }

  /** The stored state after an action: a refused one writes nothing. */
  function Next(s: FundState, a: Action, now: Time): FundState {
    match Apply(s, a, now)
    case Done(t) => t
    case Refused(_) => s
  }

  datatype Event = Event(action: Action, now: Time)

  type Script = seq<Event>

  /** The state after a whole run. */
  function After(s: FundState, script: Script): FundState {
    if script == [] then s
    else
      var e := script[|script| - 1];
      Next(After(s, script[..|script| - 1]), e.action, e.now)
  }

  /** The state before step k (so `At(s, script, |script|)` is the final one). */
  function At(s: FundState, script: Script, k: nat): FundState
    requires k <= |script|
  {
    After(s, script[..k])
  }

  lemma AtStep(s: FundState, script: Script, k: nat)
    requires k < |script|
    ensures At(s, script, k + 1) == Next(At(s, script, k), script[k].action, script[k].now)
  {
    assert script[..k + 1][..k] == script[..k];
  }

  predicate NamesTrimmed(script: Script) {
    forall k :: 0 <= k < |script| ==> script[k].action.NamesTrimmed()
  }

  /** A fund as `create_fund` leaves it: one host agent with a trimmed name, nothing else. */
  predicate Fresh(s: FundState) {
    && |s.agents| == 1
    && Trimmed(s.agents[0].name)
    && s == Service.CreateFund(s.fund, s.agents[0].name, s.agents[0].identityId, s.agents[0].address)
  }
}
