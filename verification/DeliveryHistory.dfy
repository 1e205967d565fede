/** What the history of a delivery job says, by itself, about the state of the job and about what may
happen next. Nothing here looks at a state: each reading follows the run alone, and the laws say that
the machine's state is exactly what its history says.
*/
module DeliveryHistory {
  import opened NativeDelivery

  // ---------------------------------------------------------------------------------------
  // Readings

  /** The result that a commit at the end of this run has just classified. */
  predicate Classifies(run: seq<Action>, o: Result) {
    run != [] && run[|run| - 1].OutcomeCommit? && Reported(run[..|run| - 1]) == o
  }

  /** Attempts charged since the resume, if there was one: each intent is charged, and a classified
      outage gives its intent back. */
  function Charged(run: seq<Action>): int {
    if run == [] then 0
    else
      var before, a := Charged(run[..|run| - 1]), run[|run| - 1];
      if a.IntentCommit? then before + 1
      else if Classifies(run, Outage) then before - 1
      else if a.Resume? then 0
      else before
  }

  /** Attempts charged before the resume. */
  function Spent(run: seq<Action>): int {
    if run == [] then 0
    else Spent(run[..|run| - 1]) + if run[|run| - 1].Resume? then Charged(run[..|run| - 1]) else 0
  }

  function Outages(run: seq<Action>): nat {
    if run == [] then 0 else Outages(run[..|run| - 1]) + if Classifies(run, Outage) then 1 else 0
  }

  function Crashes(run: seq<Action>): nat {
    if run == [] then 0 else Crashes(run[..|run| - 1]) + if run[|run| - 1].Crash? then 1 else 0
  }

  function Resumes(run: seq<Action>): nat {
    if run == [] then 0 else Resumes(run[..|run| - 1]) + if run[|run| - 1].Resume? then 1 else 0
  }

  /** The job is due from the start; committing an intent uses the date up, waiting and the resume
      give a new one. */
  predicate IsDue(run: seq<Action>) {
    if run == [] then true
    else
      match run[|run| - 1]
      case MakeDue => true
      case Resume => true
      case IntentCommit => false
      case _ => IsDue(run[..|run| - 1])
  }

  /** Where the run stands: a crash or a refused write loses the place, and reopening finds the job
      idle once it was enqueued. */
  function PhaseOf(run: seq<Action>): Phase {
    if run == [] then New
    else
      match run[|run| - 1]
      case Enqueue => Idle
      case Select(_) => Intent
      case IntentCommit => InTransport
      case Transport(_, _) => Outcome
      case OutcomeCommit => Idle
      case OutcomeRefused => NeedsReopen
      case Crash => Closed
      case Reopen => if Enqueue in run then Idle else New
      case _ => PhaseOf(run[..|run| - 1])
  }

  /** The receipt that was checked, if there was one. */
  function SavedReceipt(run: seq<Action>): Saved {
    if run == [] then Saved(NoDigest, 0)
    else if Classifies(run, Receipt) then Saved(Exact, 1)
    else SavedReceipt(run[..|run| - 1])
  }

  /** What the job is shown as: only committing an intent or an outcome, exhaustion and the resume
      change it. A receipt retains the job; a permanent refusal or a receipt that does not check
      stops it; an outage leaves it uncertain; any other refusal stops it at the attempt limit, and
      otherwise leaves it uncertain exactly while some intent is unaccounted for. */
  function JobStateOf(c: Setting, run: seq<Action>): JobState {
    if run == [] then Pending
    else
      match run[|run| - 1]
      case IntentCommit => Uncertain
      case Exhausted => Stopped
      case Resume => if Unaccounted(run) != {} then Uncertain else Pending
      case OutcomeCommit => StateBehind(c, Reported(run[..|run| - 1]), Charged(run), Unaccounted(run))
      case _ => JobStateOf(c, run[..|run| - 1])
  }

  function StateBehind(c: Setting, o: Result, charged: int, unaccounted: set<nat>): JobState {
    match o
    case Receipt => Retained
    case Permanent => Stopped
    case WrongDigest => Stopped
    case ZeroPosition => Stopped
    case LargePosition => Stopped
    case Outage => Uncertain
    case _ =>
      if charged >= c.maxAttempts then Stopped
      else if unaccounted != {} then Uncertain
      else Pending
  }

  /** What transport was handed: the serial just committed, for the original job, shown as uncertain,
      with the attempts charged by then. */
  function Handed(run: seq<Action>): set<Send> {
    if run == [] then {}
    else
      var before := run[..|run| - 1];
      Handed(before) +
      if run[|run| - 1].Transport?
      then {Send(Committed(before), Committed(before), Original, true, Uncertain, if Charged(before) < 0 then 0 else Charged(before))}
      else {}
  }

  // ---------------------------------------------------------------------------------------
  // The state is what history says

  ghost predicate Agrees(c: Setting, run: seq<Action>, s: State) {
    && s.pc == PhaseOf(run)
    && (s.present <==> Enqueue in run)
    && s.state == JobStateOf(c, run)
    && s.attempts == Charged(run)
    && s.spent == Spent(run)
    && s.outages == s.classified == Outages(run)
    && s.resumes == Resumes(run)
    && (s.due <==> IsDue(run))
    && s.saved == SavedReceipt(run)
    && s.crashes == Crashes(run)
    && (s.failedWrite <==> OutcomeRefused in run)
    && s.sends == Handed(run)
  }

  /** What one step needs to know of the state it starts from beyond what history says. */
  ghost predicate Known(c: Setting, run: seq<Action>, s: State) {
    && PhaseFacts(c, s) && Custody(s)
    && s.outcome == Reported(run) && s.unresolved == Unaccounted(run) && s.intents == Committed(run)
  }

  lemma OutcomeAgrees(c: Setting, run: seq<Action>, s: State)
    requires run != [] && run[|run| - 1] == OutcomeCommit && s.pc == Outcome
    requires Agrees(c, run[..|run| - 1], s) && Known(c, run[..|run| - 1], s)
    requires Classified(c, s).unresolved == Unaccounted(run)
    ensures Agrees(c, run, Classified(c, s))
  {
    MembersStep(run);
  }

  lemma MembersStep(run: seq<Action>)
    requires run != []
    ensures forall a :: a in run <==> a in run[..|run| - 1] || a == run[|run| - 1]
  {
    assert run == run[..|run| - 1] + [run[|run| - 1]];
  }

  lemma OtherStepAgrees(c: Setting, run: seq<Action>, s: State)
    requires run != [] && run[|run| - 1] != OutcomeCommit && Enabled(c, run[|run| - 1], s)
    requires Agrees(c, run[..|run| - 1], s) && Known(c, run[..|run| - 1], s)
    requires Apply(c, run[|run| - 1], s).unresolved == Unaccounted(run)
    ensures Agrees(c, run, Apply(c, run[|run| - 1], s))
  {
    MembersStep(run);
  }

  /** Phase, job state, attempts, allowances, due date, receipt and every send are what the history of
      the run says. */
  lemma {:induction false} StateIsHistory(c: Setting, run: seq<Action>)
    requires Legal(c, run)
    ensures Agrees(c, run, After(c, run))
    decreases |run|
  {
    if run != [] {
      var before := run[..|run| - 1];
      StateIsHistory(c, before);
      RunKeepsInv(c, before);
      UnresolvedIsUnaccounted(c, before);
      UnresolvedIsUnaccounted(c, run);
      HistoryAgrees(c, before);
      if run[|run| - 1] == OutcomeCommit {
        OutcomeAgrees(c, run, After(c, before));
      } else {
        OtherStepAgrees(c, run, After(c, before));
      }
    }
  }

  // ---------------------------------------------------------------------------------------
  // What may happen next

  /** What may follow a run, from its history; the limit on the number of intents plays no part. */
  predicate MayFollow(c: Setting, run: seq<Action>, a: Action) {
    var pc, state := PhaseOf(run), JobStateOf(c, run);
    var active := state == Pending || state == Uncertain;
    match a
    case Enqueue => pc == New
    case MakeDue => pc == Idle && !IsDue(run)
    case Select(b) => pc == Idle && active && IsDue(run) && Charged(run) < c.maxAttempts && b == Original
    case IntentCommit => pc == Intent
    case Transport(o, retained) =>
      && pc == InTransport && (o == Outage ==> Outages(run) < c.outageBudget)
      && (if o == Receipt then retained else retained ==> o == Outage)
    case OutcomeCommit => pc == Outcome
    case Exhausted => pc == Idle && active && Charged(run) == c.maxAttempts
    case Resume => pc == Idle && state == Stopped && Resume !in run
    case OutcomeRefused => pc == Outcome && c.allowWriteFailure && OutcomeRefused !in run
    case Crash => pc != Closed && pc != NeedsReopen && Crashes(run) < c.crashBudget
    case Reopen => pc == Closed || pc == NeedsReopen
  }

  lemma {:induction false} ResumesCounted(run: seq<Action>)
    ensures Resumes(run) == 0 <==> Resume !in run
  {
    if run != [] {
      ResumesCounted(run[..|run| - 1]);
      MembersStep(run);
    }
  }

  /** Exactly which actions may follow a run is settled by its history. */
  lemma HistoryDecidesWhatMayFollow(c: Setting, run: seq<Action>, a: Action)
    requires Legal(c, run)
    ensures Enabled(c, a, After(c, run)) <==> MayFollow(c, run, a)
  {
    StateIsHistory(c, run);
    RunKeepsInv(c, run);
    IntentLimitNeverBinds(c, run);
    ResumesCounted(run);
  }
}
