/** Entities of the agent registry. */
module AgentTypes {
  import opened Options

  type GoalId = nat
  type Instant = int

  datatype AgentRunStatus =
    Running | Sleeping | Queued | Paused | Done | Failed | Cancelled | LostOnRestart
  {
    predicate IsTerminal() {
      Done? || Failed? || Cancelled? || LostOnRestart?
    }

    /** The two states that take a slot under the cap. */
    predicate IsActive() {
      Running? || Sleeping?
    }
  }

  datatype AgentSleepState = AgentSleepState(wakeAt: Instant, durationMs: nat, reason: string)

  datatype AskPendingState = AskPendingState(questionId: string, question: string, askedAt: Instant, timeoutSecs: nat)

  datatype AgentSnapshot = AgentSnapshot(
    turnIndex: nat,
    maxTurns: nat,
    usage: nat,
    lastAcceptance: Option<string>,
    lastDecisionSummary: Option<string>,
    lastEventAt: Instant,
    lastDiffStat: Option<string>,
    lastProgressText: Option<string>,
    sleep: Option<AgentSleepState>,
    askPending: Option<AskPendingState>)

  datatype SessionKind = Interactive | Bg | Daemon | DaemonWorker

  datatype AgentHandle = AgentHandle(
    goalId: GoalId,
    phaseId: string,
    status: AgentRunStatus,
    origin: Option<string>,
    dispatcher: Option<string>,
    startedAt: Instant,
    finishedAt: Option<Instant>,
    snapshot: AgentSnapshot,
    planMode: Option<string>,
    kind: SessionKind)

  /** One finished turn, as the driver reports it. */
  datatype AttemptResult = AttemptResult(
    goalId: GoalId,
    turnIndex: nat,
    usageAfter: nat,
    acceptance: Option<string>,
    decisionSummary: Option<string>,
    diffStat: Option<string>,
    finalText: Option<string>)

  datatype RegistryError = NotFound(goalId: GoalId) | InvalidTransition(from: AgentRunStatus, to: AgentRunStatus)

  datatype Result<T> = Ok(value: T) | Err(error: RegistryError)
}
