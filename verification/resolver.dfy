/**
 * The agent-to-credential resolver: `build` checks every (agent, channel)
 * request against the account stores and either collects all violations or
 * issues one handle per request; `rebuild` swaps a fresh state in.
 */
module Resolver {
  import opened Options

  datatype Channel = Whatsapp | Telegram | Google | Email

  const CHANNELS: seq<Channel> := [Whatsapp, Telegram, Google, Email]

  /** Three stores keep an allow list per account; a Google account belongs to one agent. */
  datatype Stores = Stores(
    whatsapp: map<string, seq<string>>,
    telegram: map<string, seq<string>>,
    google: map<string, string>,
    email: map<string, seq<string>>)

  datatype Handle = Handle(channel: Channel, account: string, agent: string)

  datatype CredentialError =
    | NotFound(channel: Channel, account: string)
    | NotPermitted(channel: Channel, agent: string)

  datatype Issued = Granted(handle: Handle) | Denied(error: CredentialError)

  datatype AgentInput = AgentInput(
    agentId: string,
    outbound: map<Channel, string>,
    inbound: map<Channel, seq<string>>,
    asymmetricAllowed: map<Channel, bool>)

  datatype StrictLevel = Lenient | Strict

  datatype BuildError =
    | AmbiguousOutbound(channel: Channel, agent: string, instances: seq<string>)
    | MissingInstance(channel: Channel, agent: string, account: string, available: set<string>)
    | AllowAgentsExcludes(channel: Channel, agent: string, account: string)
    | AsymmetricBinding(channel: Channel, agent: string, account: string, inbound: seq<string>)
    | Credential(channel: Channel, agent: string, account: string, source: CredentialError)

  type Bindings = map<string, map<Channel, Handle>>

  function Lookup(bindings: Bindings, agent: string, channel: Channel): Option<Handle> {
    if agent in bindings && channel in bindings[agent] then Some(bindings[agent][channel]) else None
  }

  // ------------------------------------------------------------------- stores

  function AllowLists(stores: Stores, channel: Channel): map<string, seq<string>>
    requires channel != Google
  {
    match channel
    case Whatsapp => stores.whatsapp
    case Telegram => stores.telegram
    case Email => stores.email
  }

  /** The accounts of a store; the code lists them sorted. */
  function StoreList(stores: Stores, channel: Channel): set<string> {
    if channel == Google then stores.google.Keys else AllowLists(stores, channel).Keys
  }

  function StoreAllowAgents(stores: Stores, channel: Channel, account: string): seq<string> {
    if account !in StoreList(stores, channel) then []
    else if channel == Google then [stores.google[account]]
    else AllowLists(stores, channel)[account]
  }

  function StoreIssue(stores: Stores, channel: Channel, account: string, agent: string): Issued {
    if account !in StoreList(stores, channel) then Denied(NotFound(channel, account))
    else if channel == Google then
      if stores.google[account] != agent then Denied(NotPermitted(channel, agent))
      else Granted(Handle(channel, account, agent))
    else
      var allow := AllowLists(stores, channel)[account];
      if allow != [] && agent !in allow then Denied(NotPermitted(channel, agent))
      else Granted(Handle(channel, account, agent))
  }

  // ------------------------------------------------- what one pair asks and gets

  datatype Request = Nothing | Account(account: string) | Ambiguous(instances: seq<string>)

  function InboundOf(agent: AgentInput, channel: Channel): seq<string> {
    if channel in agent.inbound then agent.inbound[channel] else []
  }

  /** The declared account, else the only inbound instance; several instances are ambiguous. */
  function RequestOf(agent: AgentInput, channel: Channel): Request {
    var inbound := InboundOf(agent, channel);
    if channel in agent.outbound then Account(agent.outbound[channel])
    else if |inbound| == 0 then Nothing
    else if |inbound| == 1 then Account(inbound[0])
    else Ambiguous(inbound)
  }

  /** The account exists and lets the agent use it. */
  predicate Permits(stores: Stores, channel: Channel, account: string, agent: string) {
    if channel == Google then account in stores.google && stores.google[account] == agent
    else
      var lists := AllowLists(stores, channel);
      account in lists && (lists[account] == [] || agent in lists[account])
  }

  /** A pair that asks for nothing, or for one account that permits the agent. */
  predicate Resolvable(stores: Stores, agent: AgentInput, channel: Channel) {
    match RequestOf(agent, channel)
    case Nothing => true
    case Account(account) => Permits(stores, channel, account, agent.agentId)
    case Ambiguous(_) => false
  }

  /** The agent listens on this channel, only elsewhere, and has not opted out of being told. */
  predicate Lopsided(agent: AgentInput, channel: Channel) {
    && RequestOf(agent, channel).Account?
    && InboundOf(agent, channel) != []
    && RequestOf(agent, channel).account !in InboundOf(agent, channel)
    && !(channel in agent.asymmetricAllowed && agent.asymmetricAllowed[channel])
  }

  function Asymmetry(agent: AgentInput, channel: Channel): BuildError
    requires RequestOf(agent, channel).Account?
  {
    AsymmetricBinding(channel, agent.agentId, RequestOf(agent, channel).account, InboundOf(agent, channel))
  }

  function Violation(stores: Stores, agent: AgentInput, channel: Channel): BuildError
    requires !Resolvable(stores, agent, channel)
  {
    match RequestOf(agent, channel)
    case Ambiguous(instances) => AmbiguousOutbound(channel, agent.agentId, instances)
    case Account(account) =>
      if account !in StoreList(stores, channel)
      then MissingInstance(channel, agent.agentId, account, StoreList(stores, channel))
      else AllowAgentsExcludes(channel, agent.agentId, account)
  }

  function PairErrors(stores: Stores, agent: AgentInput, channel: Channel, strict: StrictLevel): seq<BuildError> {
    if !Resolvable(stores, agent, channel) then [Violation(stores, agent, channel)]
    else if strict == Strict && Lopsided(agent, channel) then [Asymmetry(agent, channel)]
    else []
  }

  function PairWarnings(stores: Stores, agent: AgentInput, channel: Channel, strict: StrictLevel): seq<BuildError> {
    if Resolvable(stores, agent, channel) && strict == Lenient && Lopsided(agent, channel)
    then [Asymmetry(agent, channel)] else []
  }

  predicate Binds(stores: Stores, agent: AgentInput, channel: Channel) {
    RequestOf(agent, channel).Account? && Resolvable(stores, agent, channel)
  }

  function HandleFor(agent: AgentInput, channel: Channel): Handle
    requires RequestOf(agent, channel).Account?
  {
    Handle(channel, RequestOf(agent, channel).account, agent.agentId)
  }

  // --------------------------------------------------------- all pairs together

  function AgentErrors(stores: Stores, agent: AgentInput, c: nat, strict: StrictLevel): seq<BuildError>
    requires c <= |CHANNELS|
  {
    if c == 0 then []
    else AgentErrors(stores, agent, c - 1, strict) + PairErrors(stores, agent, CHANNELS[c - 1], strict)
  }

  function AgentWarnings(stores: Stores, agent: AgentInput, c: nat, strict: StrictLevel): seq<BuildError>
    requires c <= |CHANNELS|
  {
    if c == 0 then []
    else AgentWarnings(stores, agent, c - 1, strict) + PairWarnings(stores, agent, CHANNELS[c - 1], strict)
  }

  function Errors(stores: Stores, agents: seq<AgentInput>, strict: StrictLevel): seq<BuildError> {
    if agents == [] then []
    else Errors(stores, agents[..|agents| - 1], strict) + AgentErrors(stores, agents[|agents| - 1], |CHANNELS|, strict)
  }

  function Warnings(stores: Stores, agents: seq<AgentInput>, strict: StrictLevel): seq<BuildError> {
    if agents == [] then []
    else Warnings(stores, agents[..|agents| - 1], strict) + AgentWarnings(stores, agents[|agents| - 1], |CHANNELS|, strict)
  }

  /** One agent's handles. */
  function HandlesOf(stores: Stores, agent: AgentInput): map<Channel, Handle> {
    map channel | channel in CHANNELS && Binds(stores, agent, channel) :: HandleFor(agent, channel)
  }

  /** All handles; an agent listed twice keeps the later non-empty entry. */
  function BindingsOf(stores: Stores, agents: seq<AgentInput>): Bindings {
    if agents == [] then map[]
    else
      var last, before := agents[|agents| - 1], BindingsOf(stores, agents[..|agents| - 1]);
      var handles := HandlesOf(stores, last);
      if handles == map[] then before else before[last.agentId := handles]
  }

  // --------------------------------------------------------------- the resolver

  class AgentCredentialResolver {
    var bindings: Bindings
    var warnings: seq<BuildError>
    var strict: StrictLevel
    var version: nat

    constructor Empty()
      ensures bindings == map[] && warnings == [] && strict == Lenient && version == 0
    {
      bindings, warnings, strict, version := map[], [], Lenient, 0;
    }

    constructor Built(bindings: Bindings, warnings: seq<BuildError>, strict: StrictLevel)
      ensures this.bindings == bindings && this.warnings == warnings && this.strict == strict && version == 1
    {
      this.bindings, this.warnings, this.strict, version := bindings, warnings, strict, 1;
    }

    method Resolve(agent: string, channel: Channel) returns (handle: Option<Handle>)
      ensures handle == Lookup(bindings, agent, channel)
    {
      if agent in bindings && channel in bindings[agent] {
        return Some(bindings[agent][channel]);
      }
      handle := None;
    }

    method ReplaceState(newBindings: Bindings, newWarnings: seq<BuildError>, newStrict: StrictLevel)
      modifies this
      ensures bindings == newBindings && warnings == newWarnings && strict == newStrict
      ensures version == old(version) + 1
    {
      bindings := newBindings;
      warnings := newWarnings;
      strict := newStrict;
      version := version + 1;
    }

    /** A failed rebuild leaves everything as it was. */
    method Rebuild(agents: seq<AgentInput>, stores: Stores, strict: StrictLevel) returns (errors: seq<BuildError>)
      modifies this
      ensures errors == Errors(stores, agents, strict)
      ensures errors != [] ==> unchanged(this)
      ensures errors == [] ==>
        && bindings == BindingsOf(stores, agents) && warnings == Warnings(stores, agents, strict)
        && this.strict == strict && version == old(version) + 1
    {
      var built;
      built, errors := Build(agents, stores, strict);
      if built != null {
        ReplaceState(built.bindings, built.warnings, built.strict);
      }
    }
  }

  /** What one (agent, channel) turn of the loop does. */
  method BuildPair(agent: AgentInput, channel: Channel, stores: Stores, strict: StrictLevel)
    returns (errors: seq<BuildError>, warnings: seq<BuildError>, handle: Option<Handle>)
    ensures errors == PairErrors(stores, agent, channel, strict)
    ensures warnings == PairWarnings(stores, agent, channel, strict)
    ensures handle == if Binds(stores, agent, channel) then Some(HandleFor(agent, channel)) else None
    ensures forall e :: e in errors ==> !e.Credential?
  {
    errors, warnings, handle := [], [], None;
    var inbound := if channel in agent.inbound then agent.inbound[channel] else [];
    var asymmetricOk := channel in agent.asymmetricAllowed && agent.asymmetricAllowed[channel];
    var account;
    if channel in agent.outbound {
      account := agent.outbound[channel];
    } else if |inbound| == 0 {
      return;
    } else if |inbound| == 1 {
      account := inbound[0];
    } else {
      errors := errors + [AmbiguousOutbound(channel, agent.agentId, inbound)];
      return;
    }
    var available := StoreList(stores, channel);
    if account !in available {
      errors := errors + [MissingInstance(channel, agent.agentId, account, available)];
      return;
    }
    var allow := StoreAllowAgents(stores, channel, account);
    if allow != [] && agent.agentId !in allow {
      errors := errors + [AllowAgentsExcludes(channel, agent.agentId, account)];
      return;
    }
    if inbound != [] && account !in inbound && !asymmetricOk {
      var msg := AsymmetricBinding(channel, agent.agentId, account, inbound);
      match strict {
        case Strict => errors := errors + [msg];
        case Lenient => warnings := warnings + [msg];
      }
    }
    match StoreIssue(stores, channel, account, agent.agentId) {
      case Granted(issued) => handle := Some(issued);
      case Denied(source) => errors := errors + [Credential(channel, agent.agentId, account, source)];
    }
  }

  method BuildAgent(agent: AgentInput, stores: Stores, strict: StrictLevel)
    returns (errors: seq<BuildError>, warnings: seq<BuildError>, perChannel: map<Channel, Handle>)
    ensures errors == AgentErrors(stores, agent, |CHANNELS|, strict)
    ensures warnings == AgentWarnings(stores, agent, |CHANNELS|, strict)
    ensures perChannel == HandlesOf(stores, agent)
  {
    hide PairErrors;
    hide PairWarnings;
    hide Binds;
    errors, warnings, perChannel := [], [], map[];
    for c := 0 to |CHANNELS|
      invariant errors == AgentErrors(stores, agent, c, strict)
      invariant warnings == AgentWarnings(stores, agent, c, strict)
      invariant forall channel :: channel in perChannel <==> channel in CHANNELS[..c] && Binds(stores, agent, channel)
      invariant forall channel :: channel in perChannel ==>
                  RequestOf(agent, channel).Account? && perChannel[channel] == HandleFor(agent, channel)
    {
      var pairErrors, pairWarnings, handle := BuildPair(agent, CHANNELS[c], stores, strict);
      errors, warnings := errors + pairErrors, warnings + pairWarnings;
      if handle.Some? {
        BindsAsks(stores, agent, CHANNELS[c]);
        perChannel := perChannel[CHANNELS[c] := handle.value];
      }
    }
    assert CHANNELS[..|CHANNELS|] == CHANNELS;
  }

  lemma BindsAsks(stores: Stores, agent: AgentInput, channel: Channel)
    ensures Binds(stores, agent, channel) ==> RequestOf(agent, channel).Account?
  {
  }

  /** Every violation in one pass, or a fresh resolver. */
  method Build(agents: seq<AgentInput>, stores: Stores, strict: StrictLevel)
    returns (resolver: AgentCredentialResolver?, errors: seq<BuildError>)
    ensures errors == Errors(stores, agents, strict)
    ensures resolver == null <==> errors != []
    ensures resolver != null ==>
              && fresh(resolver)
              && resolver.bindings == BindingsOf(stores, agents)
              && resolver.warnings == Warnings(stores, agents, strict)
              && resolver.strict == strict && resolver.version == 1
  {
    hide HandlesOf;
    var warnings, bindings := [], map[];
    errors := [];
    for k := 0 to |agents|
      invariant errors == Errors(stores, agents[..k], strict)
      invariant warnings == Warnings(stores, agents[..k], strict)
      invariant bindings == BindingsOf(stores, agents[..k])
    {
      assert agents[..k + 1][..k] == agents[..k];
      var agentErrors, agentWarnings, perChannel := BuildAgent(agents[k], stores, strict);
      errors, warnings := errors + agentErrors, warnings + agentWarnings;
      if perChannel != map[] {
        bindings := bindings[agents[k].agentId := perChannel];
      }
    }
    assert agents[..|agents|] == agents;
    if errors != [] {
      return null, errors;
    }
    resolver := new AgentCredentialResolver.Built(bindings, warnings, strict);
  }

  // -------------------------------------------------------------- what it means

  /** Every pair of the input is fine. */
  ghost predicate AllResolvable(stores: Stores, agents: seq<AgentInput>) {
    forall i, channel :: 0 <= i < |agents| ==> Resolvable(stores, agents[i], channel)
  }

  ghost predicate NoneLopsided(agents: seq<AgentInput>) {
    forall i, channel :: 0 <= i < |agents| ==> !Lopsided(agents[i], channel)
  }

  function IndexOf(channel: Channel): (c: nat)
    ensures c < |CHANNELS| && CHANNELS[c] == channel
  {
    match channel
    case Whatsapp => 0
    case Telegram => 1
    case Google => 2
    case Email => 3
  }

  lemma {:induction false} AgentErrorsEmpty(stores: Stores, agent: AgentInput, c: nat, strict: StrictLevel)
    requires c <= |CHANNELS|
    ensures AgentErrors(stores, agent, c, strict) == [] <==>
            forall k :: 0 <= k < c ==> PairErrors(stores, agent, CHANNELS[k], strict) == []
    ensures AgentWarnings(stores, agent, c, strict) == [] <==>
            forall k :: 0 <= k < c ==> PairWarnings(stores, agent, CHANNELS[k], strict) == []
  {
    hide PairErrors;
    hide PairWarnings;
    if c > 0 {
      AgentErrorsEmpty(stores, agent, c - 1, strict);
    }
  }

  /** Nothing is wrong with any of the agent's pairs. */
  ghost predicate AgentClean(stores: Stores, agent: AgentInput, strict: StrictLevel) {
    forall channel :: Resolvable(stores, agent, channel) && (strict == Strict ==> !Lopsided(agent, channel))
  }

  lemma AgentErrorsMean(stores: Stores, agent: AgentInput, strict: StrictLevel)
    ensures AgentErrors(stores, agent, |CHANNELS|, strict) == [] <==> AgentClean(stores, agent, strict)
  {
    hide Resolvable;
    hide Lopsided;
    AgentErrorsEmpty(stores, agent, |CHANNELS|, strict);
    hide AgentErrors;
    if AgentErrors(stores, agent, |CHANNELS|, strict) == [] {
      forall channel
        ensures Resolvable(stores, agent, channel) && (strict == Strict ==> !Lopsided(agent, channel))
      {
        assert PairErrors(stores, agent, CHANNELS[IndexOf(channel)], strict) == [];
      }
    }
  }

  lemma AgentWarningsMean(stores: Stores, agent: AgentInput)
    requires AgentClean(stores, agent, Lenient)
    ensures AgentWarnings(stores, agent, |CHANNELS|, Lenient) == [] <==> AgentClean(stores, agent, Strict)
  {
    hide Resolvable;
    hide Lopsided;
    AgentErrorsEmpty(stores, agent, |CHANNELS|, Lenient);
    hide AgentWarnings;
    if AgentWarnings(stores, agent, |CHANNELS|, Lenient) == [] {
      forall channel
        ensures Resolvable(stores, agent, channel) && !Lopsided(agent, channel)
      {
        assert PairWarnings(stores, agent, CHANNELS[IndexOf(channel)], Lenient) == [];
      }
    }
  }

  ghost predicate AllClean(stores: Stores, agents: seq<AgentInput>, strict: StrictLevel) {
    forall i :: 0 <= i < |agents| ==> AgentClean(stores, agents[i], strict)
  }

  lemma AllCleanGrows(stores: Stores, agents: seq<AgentInput>, strict: StrictLevel)
    requires agents != []
    ensures AllClean(stores, agents, strict) <==>
            AllClean(stores, agents[..|agents| - 1], strict) && AgentClean(stores, agents[|agents| - 1], strict)
  {
    hide AgentClean;
    var front := agents[..|agents| - 1];
    assert forall i :: 0 <= i < |front| ==> front[i] == agents[i];
  }

  lemma {:induction false} ErrorsMean(stores: Stores, agents: seq<AgentInput>, strict: StrictLevel)
    ensures Errors(stores, agents, strict) == [] <==> AllClean(stores, agents, strict)
  {
    if agents != [] {
      hide AgentClean;
      hide AgentErrors;
      hide AllClean;
      AllCleanGrows(stores, agents, strict);
      ErrorsMean(stores, agents[..|agents| - 1], strict);
      AgentErrorsMean(stores, agents[|agents| - 1], strict);
    }
  }

  lemma {:induction false} WarningsMean(stores: Stores, agents: seq<AgentInput>)
    requires AllClean(stores, agents, Lenient)
    ensures Warnings(stores, agents, Lenient) == [] <==> AllClean(stores, agents, Strict)
  {
    if agents != [] {
      hide AgentClean;
      hide AgentWarnings;
      hide AllClean;
      AllCleanGrows(stores, agents, Lenient);
      AllCleanGrows(stores, agents, Strict);
      WarningsMean(stores, agents[..|agents| - 1]);
      AgentWarningsMean(stores, agents[|agents| - 1]);
    }
  }

  lemma {:induction false} StrictNeverWarns(stores: Stores, agents: seq<AgentInput>)
    ensures Warnings(stores, agents, Strict) == []
  {
    if agents != [] {
      StrictNeverWarns(stores, agents[..|agents| - 1]);
      AgentErrorsEmpty(stores, agents[|agents| - 1], |CHANNELS|, Strict);
    }
  }

  /** A lenient build succeeds exactly when every request names one existing account that permits the agent. */
  lemma LenientSucceedsExactlyWhenResolvable(stores: Stores, agents: seq<AgentInput>)
    ensures Errors(stores, agents, Lenient) == [] <==> AllResolvable(stores, agents)
  {
    ErrorsMean(stores, agents, Lenient);
  }

  /** A strict build succeeds exactly when the lenient one does without a warning; the bindings do not depend on the mode. */
  lemma StrictIsLenientWithoutWarnings(stores: Stores, agents: seq<AgentInput>)
    ensures Errors(stores, agents, Strict) == [] <==>
            Errors(stores, agents, Lenient) == [] && Warnings(stores, agents, Lenient) == []
    ensures Errors(stores, agents, Strict) == [] <==> AllResolvable(stores, agents) && NoneLopsided(agents)
  {
    ErrorsMean(stores, agents, Strict);
    ErrorsMean(stores, agents, Lenient);
    if AllResolvable(stores, agents) {
      WarningsMean(stores, agents);
    }
    if Errors(stores, agents, Strict) == [] {
      forall i, channel | 0 <= i < |agents|
        ensures Resolvable(stores, agents[i], channel) && !Lopsided(agents[i], channel)
      {
        assert AgentClean(stores, agents[i], Strict);
      }
    }
  }

  /** An account that is listed and not excluded is always issued: the loop's last failure branch is dead. */
  lemma IssueCannotFail(stores: Stores, channel: Channel, account: string, agent: string)
    ensures var allow := StoreAllowAgents(stores, channel, account);
            (account in StoreList(stores, channel) && (allow == [] || agent in allow)) <==>
            StoreIssue(stores, channel, account, agent) == Granted(Handle(channel, account, agent))
    ensures StoreIssue(stores, channel, account, agent).Granted? <==> Permits(stores, channel, account, agent)
  {
    if channel == Google && account in stores.google {
      assert agent in [stores.google[account]] <==> agent == stores.google[account];
    }
  }

  predicate DistinctAgents(agents: seq<AgentInput>) {
    forall i, j :: 0 <= i < j < |agents| ==> agents[i].agentId != agents[j].agentId
  }

  lemma {:induction false} BoundAgentsWereListed(stores: Stores, agents: seq<AgentInput>, id: string)
    requires id in BindingsOf(stores, agents)
    ensures exists i :: 0 <= i < |agents| && agents[i].agentId == id && HandlesOf(stores, agents[i]) == BindingsOf(stores, agents)[id]
    ensures BindingsOf(stores, agents)[id] != map[]
  {
    hide HandlesOf;
    var last, front := agents[|agents| - 1], agents[..|agents| - 1];
    if HandlesOf(stores, last) == map[] || last.agentId != id {
      BoundAgentsWereListed(stores, front, id);
      var i :| 0 <= i < |front| && front[i].agentId == id && HandlesOf(stores, front[i]) == BindingsOf(stores, front)[id];
      assert agents[i] == front[i];
    }
  }

  /** With distinct agent ids each agent has its own entry, missing only when it has no handle at all. */
  lemma {:induction false} EachAgentHasItsHandles(stores: Stores, agents: seq<AgentInput>, i: nat)
    requires DistinctAgents(agents) && i < |agents|
    ensures var bindings, id := BindingsOf(stores, agents), agents[i].agentId;
            if HandlesOf(stores, agents[i]) == map[] then id !in bindings
            else id in bindings && bindings[id] == HandlesOf(stores, agents[i])
    decreases |agents|
  {
    hide HandlesOf;
    var last, front := agents[|agents| - 1], agents[..|agents| - 1];
    if i < |front| {
      EachAgentHasItsHandles(stores, front, i);
    } else if last.agentId in BindingsOf(stores, front) {
      BoundAgentsWereListed(stores, front, last.agentId);
    }
  }

  /** For distinct agents, `resolve` answers for exactly the requested pairs whose account permits the agent. */
  lemma {:induction false} BindsExactlyWhatIsPermitted(stores: Stores, agents: seq<AgentInput>, i: nat, channel: Channel)
    requires DistinctAgents(agents) && i < |agents|
    ensures var bindings, agent := BindingsOf(stores, agents), agents[i];
            var request := RequestOf(agent, channel);
            && ((agent.agentId in bindings && channel in bindings[agent.agentId]) <==>
                (request.Account? && Permits(stores, channel, request.account, agent.agentId)))
            && (agent.agentId in bindings && channel in bindings[agent.agentId] ==>
                bindings[agent.agentId][channel] == Handle(channel, request.account, agent.agentId))
  {
    EachAgentHasItsHandles(stores, agents, i);
    assert CHANNELS[IndexOf(channel)] == channel;
    var handles := HandlesOf(stores, agents[i]);
    assert channel in handles <==> Binds(stores, agents[i], channel);
    if handles == map[] {
      assert channel !in handles;
    }
  }

  /** What `resolve` answers after a successful build: each listed agent gets, per channel, a handle on
      the account it asked for exactly if that account permits it, and nobody else gets anything. */
  lemma {:induction false} ResolveAnswersExactlyThePermitted(stores: Stores, agents: seq<AgentInput>, id: string,
                                                             channel: Channel)
    requires DistinctAgents(agents)
    ensures forall i :: 0 <= i < |agents| && agents[i].agentId == id ==>
              var request := RequestOf(agents[i], channel);
              Lookup(BindingsOf(stores, agents), id, channel)
              == if request.Account? && Permits(stores, channel, request.account, id)
                 then Some(Handle(channel, request.account, id)) else None
    ensures (forall i :: 0 <= i < |agents| ==> agents[i].agentId != id) ==>
              Lookup(BindingsOf(stores, agents), id, channel) == None
  {
    forall i | 0 <= i < |agents| && agents[i].agentId == id
      ensures var request := RequestOf(agents[i], channel);
              Lookup(BindingsOf(stores, agents), id, channel)
              == if request.Account? && Permits(stores, channel, request.account, id)
                 then Some(Handle(channel, request.account, id)) else None
    {
      BindsExactlyWhatIsPermitted(stores, agents, i, channel);
    }
    if id in BindingsOf(stores, agents) {
      BoundAgentsWereListed(stores, agents, id);
    }
  }

  /** No handle is issued to an agent that is not in the input, nor for somebody else. */
  lemma {:induction false} NoStrangerIsBound(stores: Stores, agents: seq<AgentInput>, id: string, channel: Channel)
    requires id in BindingsOf(stores, agents) && channel in BindingsOf(stores, agents)[id]
    ensures var h := BindingsOf(stores, agents)[id][channel];
            h.agent == id && h.channel == channel && Permits(stores, channel, h.account, id)
    ensures exists i :: 0 <= i < |agents| && agents[i].agentId == id
  {
    BoundAgentsWereListed(stores, agents, id);
  }

  /** One report per faulty pair and none for the others, whatever else is wrong. */
  lemma {:induction false} EveryFaultIsReported(stores: Stores, agents: seq<AgentInput>, strict: StrictLevel, e: BuildError)
    ensures e in Errors(stores, agents, strict) <==>
            exists i, c :: 0 <= i < |agents| && 0 <= c < |CHANNELS| && e in PairErrors(stores, agents[i], CHANNELS[c], strict)
  {
    hide PairErrors;
    if agents != [] {
      var last, front := agents[|agents| - 1], agents[..|agents| - 1];
      EveryFaultIsReported(stores, front, strict, e);
      AgentFaults(stores, last, |CHANNELS|, strict, e);
      if e in Errors(stores, front, strict) {
        var i, c :| 0 <= i < |front| && 0 <= c < |CHANNELS| && e in PairErrors(stores, front[i], CHANNELS[c], strict);
        assert agents[i] == front[i];
      }
      if i, c :| 0 <= i < |agents| && 0 <= c < |CHANNELS| && e in PairErrors(stores, agents[i], CHANNELS[c], strict) {
        if i < |front| {
          assert front[i] == agents[i];
        }
      }
    }
  }

  lemma {:induction false} AgentFaults(stores: Stores, agent: AgentInput, n: nat, strict: StrictLevel, e: BuildError)
    requires n <= |CHANNELS|
    ensures e in AgentErrors(stores, agent, n, strict) <==>
            exists c :: 0 <= c < n && e in PairErrors(stores, agent, CHANNELS[c], strict)
  {
    hide PairErrors;
    if n > 0 {
      AgentFaults(stores, agent, n - 1, strict, e);
    }
  }

  // ----------------------------------------------- in terms of the configuration

  /** What each store permits, store by store: an account with an empty list is open to everybody, a
      Google account to its one agent. */
  lemma PermitsMeans(stores: Stores, account: string, agent: string)
    ensures Permits(stores, Whatsapp, account, agent) <==>
            account in stores.whatsapp && (|stores.whatsapp[account]| == 0 || agent in stores.whatsapp[account])
    ensures Permits(stores, Telegram, account, agent) <==>
            account in stores.telegram && (|stores.telegram[account]| == 0 || agent in stores.telegram[account])
    ensures Permits(stores, Email, account, agent) <==>
            account in stores.email && (|stores.email[account]| == 0 || agent in stores.email[account])
    ensures Permits(stores, Google, account, agent) <==>
            account in stores.google && stores.google[account] == agent
    ensures StoreList(stores, Whatsapp) == stores.whatsapp.Keys && StoreList(stores, Telegram) == stores.telegram.Keys
    ensures StoreList(stores, Email) == stores.email.Keys && StoreList(stores, Google) == stores.google.Keys
  {
  }

  /** What a pair asks for: the declared outbound account before anything else, else the only inbound
      instance; two or more instances are ambiguous, none ask for nothing. */
  lemma RequestMeans(agent: AgentInput, channel: Channel)
    ensures channel in agent.outbound ==> RequestOf(agent, channel) == Account(agent.outbound[channel])
    ensures channel !in agent.outbound && channel in agent.inbound && |agent.inbound[channel]| == 1 ==>
              RequestOf(agent, channel) == Account(agent.inbound[channel][0])
    ensures channel !in agent.outbound && channel in agent.inbound && |agent.inbound[channel]| >= 2 ==>
              RequestOf(agent, channel) == Ambiguous(agent.inbound[channel])
    ensures channel !in agent.outbound && (channel in agent.inbound ==> agent.inbound[channel] == []) ==>
              RequestOf(agent, channel) == Nothing
  {
  }

  /** After a successful build over distinct agents: a declared outbound account is the one bound, without
      one the only inbound instance, and otherwise nothing. */
  lemma SuccessfulBuildBindsTheDeclared(stores: Stores, agents: seq<AgentInput>, strict: StrictLevel, i: nat, channel: Channel)
    requires DistinctAgents(agents) && i < |agents| && Errors(stores, agents, strict) == []
    ensures var agent := agents[i];
            Lookup(BindingsOf(stores, agents), agent.agentId, channel)
            == if channel in agent.outbound then Some(Handle(channel, agent.outbound[channel], agent.agentId))
               else if channel in agent.inbound && |agent.inbound[channel]| == 1
               then Some(Handle(channel, agent.inbound[channel][0], agent.agentId))
               else None
  {
    ErrorsMean(stores, agents, strict);
    assert AgentClean(stores, agents[i], strict);
    assert Resolvable(stores, agents[i], channel);
    RequestMeans(agents[i], channel);
    hide AllClean;
    hide AgentClean;
    hide Errors;
    hide BindingsOf;
    BindsExactlyWhatIsPermitted(stores, agents, i, channel);
  }

  /** An outbound account that permits its agent is never replaced by anything, whatever else is wrong. */
  lemma PermittedOutboundIsBound(stores: Stores, agents: seq<AgentInput>, i: nat, channel: Channel)
    requires DistinctAgents(agents) && i < |agents| && channel in agents[i].outbound
    requires Permits(stores, channel, agents[i].outbound[channel], agents[i].agentId)
    ensures Lookup(BindingsOf(stores, agents), agents[i].agentId, channel)
         == Some(Handle(channel, agents[i].outbound[channel], agents[i].agentId))
  {
    RequestMeans(agents[i], channel);
    hide BindingsOf;
    BindsExactlyWhatIsPermitted(stores, agents, i, channel);
  }

  /** An agent listed again replaces the earlier entry when it binds anything, channel by channel, and
      leaves it alone otherwise. */
  lemma LaterEntryReplaces(stores: Stores, agents: seq<AgentInput>, last: AgentInput, channel: Channel)
    ensures var before, after := BindingsOf(stores, agents), BindingsOf(stores, agents + [last]);
            Lookup(after, last.agentId, channel)
            == if exists c: Channel :: Binds(stores, last, c)
               then (if Binds(stores, last, channel) then Some(HandleFor(last, channel)) else None)
               else Lookup(before, last.agentId, channel)
  {
    assert (agents + [last])[..|agents|] == agents;
    var handles := HandlesOf(stores, last);
    if c: Channel :| Binds(stores, last, c) {
      assert CHANNELS[IndexOf(c)] == c && c in handles;
    } else {
      assert handles == map[];
    }
    assert CHANNELS[IndexOf(channel)] == channel;
  }

  /** Several inbound instances and no declared account are always reported, in either mode. */
  lemma AmbiguityIsReported(stores: Stores, agents: seq<AgentInput>, strict: StrictLevel, i: nat, channel: Channel)
    requires i < |agents| && channel !in agents[i].outbound
    requires channel in agents[i].inbound && |agents[i].inbound[channel]| >= 2
    ensures AmbiguousOutbound(channel, agents[i].agentId, agents[i].inbound[channel]) in Errors(stores, agents, strict)
  {
    RequestMeans(agents[i], channel);
    var e := AmbiguousOutbound(channel, agents[i].agentId, agents[i].inbound[channel]);
    assert e in PairErrors(stores, agents[i], CHANNELS[IndexOf(channel)], strict);
    EveryFaultIsReported(stores, agents, strict, e);
  }

  /** A requested account, declared or the only inbound instance, is reported missing when it does not
      exist, and otherwise, when it shuts the agent out, as doing so. */
  lemma RefusalIsReported(stores: Stores, agents: seq<AgentInput>, strict: StrictLevel, i: nat, channel: Channel, account: string)
    requires i < |agents|
    requires if channel in agents[i].outbound then account == agents[i].outbound[channel]
             else channel in agents[i].inbound && agents[i].inbound[channel] == [account]
    requires !Permits(stores, channel, account, agents[i].agentId)
    ensures var id := agents[i].agentId;
            (if account !in StoreList(stores, channel)
             then MissingInstance(channel, id, account, StoreList(stores, channel))
             else AllowAgentsExcludes(channel, id, account)) in Errors(stores, agents, strict)
  {
    RequestMeans(agents[i], channel);
    var e := Violation(stores, agents[i], channel);
    assert e in PairErrors(stores, agents[i], CHANNELS[IndexOf(channel)], strict);
    EveryFaultIsReported(stores, agents, strict, e);
  }

  /** The agent may use its declared account, listens on the channel only elsewhere, and has not opted out. */
  predicate IsAsymmetric(stores: Stores, agent: AgentInput, e: BuildError)
    requires e.AsymmetricBinding?
  {
    && e.channel in agent.outbound && e.channel in agent.inbound
    && e.agent == agent.agentId && e.account == agent.outbound[e.channel] && e.inbound == agent.inbound[e.channel]
    && e.inbound != [] && e.account !in e.inbound
    && !(e.channel in agent.asymmetricAllowed && agent.asymmetricAllowed[e.channel])
    && Permits(stores, e.channel, e.account, e.agent)
  }

  lemma PairAsymmetry(stores: Stores, agent: AgentInput, c: nat, e: BuildError)
    requires c < |CHANNELS| && e.AsymmetricBinding?
    ensures e in PairErrors(stores, agent, CHANNELS[c], Strict) <==> CHANNELS[c] == e.channel && IsAsymmetric(stores, agent, e)
    ensures e in PairWarnings(stores, agent, CHANNELS[c], Lenient) <==> CHANNELS[c] == e.channel && IsAsymmetric(stores, agent, e)
    ensures e !in PairErrors(stores, agent, CHANNELS[c], Lenient)
  {
    hide Permits;
  }

  lemma {:induction false} EveryWarningIsGiven(stores: Stores, agents: seq<AgentInput>, strict: StrictLevel, e: BuildError)
    ensures e in Warnings(stores, agents, strict) <==>
            exists i, c :: 0 <= i < |agents| && 0 <= c < |CHANNELS| && e in PairWarnings(stores, agents[i], CHANNELS[c], strict)
  {
    hide PairWarnings;
    if agents != [] {
      var last, front := agents[|agents| - 1], agents[..|agents| - 1];
      EveryWarningIsGiven(stores, front, strict, e);
      AgentGivenWarnings(stores, last, |CHANNELS|, strict, e);
      if e in Warnings(stores, front, strict) {
        var i, c :| 0 <= i < |front| && 0 <= c < |CHANNELS| && e in PairWarnings(stores, front[i], CHANNELS[c], strict);
        assert agents[i] == front[i];
      }
      if i, c :| 0 <= i < |agents| && 0 <= c < |CHANNELS| && e in PairWarnings(stores, agents[i], CHANNELS[c], strict) {
        if i < |front| {
          assert front[i] == agents[i];
        }
      }
    }
  }

  lemma {:induction false} AgentGivenWarnings(stores: Stores, agent: AgentInput, n: nat, strict: StrictLevel, e: BuildError)
    requires n <= |CHANNELS|
    ensures e in AgentWarnings(stores, agent, n, strict) <==>
            exists c :: 0 <= c < n && e in PairWarnings(stores, agent, CHANNELS[c], strict)
  {
    hide PairWarnings;
    if n > 0 {
      AgentGivenWarnings(stores, agent, n - 1, strict, e);
    }
  }

  /** Asymmetric bindings are reported exactly: an error in strict mode, a warning and no error in
      lenient mode, for each agent whose permitted outbound account is outside its non-empty inbound
      list without an opt-out, and for no other. */
  lemma AsymmetryIsReportedExactly(stores: Stores, agents: seq<AgentInput>, e: BuildError)
    requires e.AsymmetricBinding?
    ensures var asymmetric := exists i :: 0 <= i < |agents| && IsAsymmetric(stores, agents[i], e);
            && (e in Errors(stores, agents, Strict) <==> asymmetric)
            && (e in Warnings(stores, agents, Lenient) <==> asymmetric)
            && e !in Errors(stores, agents, Lenient)
  {
    EveryFaultIsReported(stores, agents, Strict, e);
    EveryFaultIsReported(stores, agents, Lenient, e);
    EveryWarningIsGiven(stores, agents, Lenient, e);
    forall i, c | 0 <= i < |agents| && 0 <= c < |CHANNELS|
      ensures e in PairErrors(stores, agents[i], CHANNELS[c], Strict) <==> CHANNELS[c] == e.channel && IsAsymmetric(stores, agents[i], e)
      ensures e in PairWarnings(stores, agents[i], CHANNELS[c], Lenient) <==> CHANNELS[c] == e.channel && IsAsymmetric(stores, agents[i], e)
      ensures e !in PairErrors(stores, agents[i], CHANNELS[c], Lenient)
    {
      PairAsymmetry(stores, agents[i], c, e);
    }
    hide PairErrors;
    hide PairWarnings;
    hide IsAsymmetric;
    if i :| 0 <= i < |agents| && IsAsymmetric(stores, agents[i], e) {
      var c := IndexOf(e.channel);
      assert e in PairErrors(stores, agents[i], CHANNELS[c], Strict);
      assert e in PairWarnings(stores, agents[i], CHANNELS[c], Lenient);
    }
  }
}
