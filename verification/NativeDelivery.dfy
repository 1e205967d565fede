/** Native sender delivery: one retained job, retried until a checked receipt or exhaustion.

Every attempt is a durable intent before it is a network effect. A classified outage gives its
attempt back but keeps the job uncertain; a crash or a refused write loses the outcome; one
resume grants a second allowance. The attempt, outage and crash budgets are parameters.
*/
module NativeDelivery {
  datatype Setting = Setting(maxAttempts: nat, outageBudget: nat, crashBudget: nat,
                             allowWriteFailure: bool)
  {
    function MaxIntents(): nat {
      2 * maxAttempts + outageBudget
    }
  }

  datatype Phase = New | Idle | Intent | InTransport | Outcome | NeedsReopen | Closed

  datatype JobState = Pending | Uncertain | Retained | Stopped

  datatype Result =
    | Receipt | Outage | Denied | Capacity | Permanent
    | WrongDigest | ZeroPosition | LargePosition
  {
    predicate IsBadReceipt() {
      WrongDigest? || ZeroPosition? || LargePosition?
    }
  }

  datatype Binding = Original | OtherBytes | OtherNamespace | OtherEndpoint

  datatype Digest = NoDigest | Exact | Foreign

  datatype Saved = Saved(digest: Digest, position: nat) {
    predicate Valid() {
      digest == Exact && 1 <= position <= 2
    }
  }

  /** What transport saw when it was handed one attempt. */
  datatype Send = Send(serial: nat, committed: nat, binding: Binding, present: bool,
                       state: JobState, attempts: nat)

  datatype State = State(
    pc: Phase,
    present: bool,
    state: JobState,
    attempts: nat,
    spent: nat,
    outages: nat,
    resumes: nat,
    uncertain: bool,
    due: bool,
    intents: nat,
    classified: nat,
    unresolved: set<nat>,
    current: nat,
    priorAttempts: nat,
    priorUncertain: bool,
    selected: Binding,
    outcome: Result,
    saved: Saved,
    remote: bool,
    sends: set<Send>,
    crashes: nat,
    failedWrite: bool)

  const INITIAL := State(New, false, Pending, 0, 0, 0, 0, false, true, 0, 0, {}, 0, 0, false,
                         Original, Receipt, Saved(NoDigest, 0), false, {}, 0, false)

  function ReceiptOf(o: Result): Saved {
    Saved(if o == WrongDigest then Foreign else Exact,
          if o == ZeroPosition then 0 else if o == LargePosition then 3 else 1)
  }

  /** Of the four receipts that transport can bring, exactly the good one checks. */
  lemma OnlyTheGoodReceiptChecks(o: Result)
    requires o.Receipt? || o.IsBadReceipt()
    ensures ReceiptOf(o).Valid() <==> o == Receipt
  {
  }

  datatype Action =
    | Enqueue
    | MakeDue
    | Select(b: Binding)
    | IntentCommit
    | Transport(o: Result, retained: bool)
    | OutcomeCommit
    | Exhausted
    | Resume
    | OutcomeRefused
    | Crash
    | Reopen

  predicate Active(s: State) {
    s.state == Pending || s.state == Uncertain
  }

  predicate Enabled(c: Setting, a: Action, s: State) {
    match a
    case Enqueue => s.pc == New
    case MakeDue => s.pc == Idle && !s.due
    case Select(b) =>
      s.pc == Idle && Active(s) && s.due && s.attempts < c.maxAttempts
      && s.intents < c.MaxIntents() && b == Original
    case IntentCommit => s.pc == Intent
    case Transport(o, retained) =>
      s.pc == InTransport
      && (o != Outage || s.classified < c.outageBudget)
      && (retained ==> o == Receipt || o == Outage)
      && (o == Receipt ==> retained)
    case OutcomeCommit => s.pc == Outcome
    case Exhausted => s.pc == Idle && Active(s) && s.attempts >= c.maxAttempts
    case Resume => s.pc == Idle && s.state == Stopped && s.resumes == 0
    case OutcomeRefused => c.allowWriteFailure && s.pc == Outcome && !s.failedWrite
    case Crash => s.pc != Closed && s.pc != NeedsReopen && s.crashes < c.crashBudget
    case Reopen => s.pc == Closed || s.pc == NeedsReopen
  }

  function Classified(c: Setting, s: State): State {
    var outage := s.outcome == Outage;
    var bad := s.outcome.IsBadReceipt();
    var accepted := s.outcome == Receipt;
    var uncertain := if accepted then false else if bad || outage then true else s.priorUncertain;
    s.(pc := Idle,
       state :=
         if accepted then Retained
         else if s.outcome == Permanent || bad || (!outage && s.attempts >= c.maxAttempts) then Stopped
         else if uncertain then Uncertain
         else Pending,
       attempts := if outage then s.priorAttempts else s.attempts,
       uncertain := uncertain,
       unresolved :=
         if accepted then {} else if outage || bad then s.unresolved else s.unresolved - {s.current},
       outages := if outage then s.outages + 1 else s.outages,
       classified := if outage then s.classified + 1 else s.classified,
       saved := if accepted then ReceiptOf(s.outcome) else s.saved)
  }

  function Apply(c: Setting, a: Action, s: State): State {
    match a
    case Enqueue => s.(pc := Idle, present := true)
    case MakeDue => s.(due := true)
    case Select(b) =>
      s.(pc := Intent, selected := b, current := s.intents + 1,
         priorAttempts := s.attempts, priorUncertain := s.uncertain)
    case IntentCommit =>
      s.(pc := InTransport, intents := s.intents + 1, attempts := s.attempts + 1,
         state := Uncertain, uncertain := true, unresolved := s.unresolved + {s.current}, due := false)
    case Transport(o, retained) =>
      s.(pc := Outcome, outcome := o, remote := s.remote || retained, sends := s.sends + {SendOf(s)})
    case OutcomeCommit => Classified(c, s)
    case Exhausted => s.(state := Stopped)
    case Resume =>
      s.(state := if s.uncertain then Uncertain else Pending,
         spent := s.spent + s.attempts, attempts := 0, resumes := 1, due := true)
    case OutcomeRefused => s.(pc := NeedsReopen, failedWrite := true)
    case Crash => s.(pc := Closed, crashes := s.crashes + 1)
    case Reopen => s.(pc := if s.present then Idle else New)
  }

  function SendOf(s: State): Send {
    Send(s.current, s.intents, s.selected, s.present, s.state, s.attempts)
  }

  // ---------------------------------------------------------------------------------------
  // Runs

  function After(c: Setting, run: seq<Action>): State {
    if run == [] then INITIAL else Apply(c, run[|run| - 1], After(c, run[..|run| - 1]))
  }

  predicate Legal(c: Setting, run: seq<Action>) {
    run == []
    || (Legal(c, run[..|run| - 1])
        && Enabled(c, run[|run| - 1], After(c, run[..|run| - 1])))
  }

  // ---------------------------------------------------------------------------------------
  // The inductive invariant

  predicate Budgets(c: Setting, s: State) {
    && s.attempts + s.spent + s.classified == s.intents
    && s.outages == s.classified <= c.outageBudget
    && s.attempts <= c.maxAttempts
    && s.resumes <= 1
    && s.spent <= c.maxAttempts
    && (s.resumes == 0 ==> s.spent == 0)
    && s.crashes <= c.crashBudget
    && (s.pc == Outcome && s.outcome == Outage ==> s.classified < c.outageBudget)
  }

  predicate InFlight(s: State) {
    s.pc == InTransport || s.pc == Outcome
  }

  predicate PhaseFacts(c: Setting, s: State) {
    && (s.pc == Idle || s.pc == Intent || InFlight(s) ==> s.present)
    && (s.pc == New ==> s.intents == 0)
    && (!s.present ==> s.intents == 0 && s.state == Pending)
    && (s.pc == NeedsReopen ==> s.state == Uncertain)
    && (s.pc == Intent ==>
          s.current == s.intents + 1 && s.attempts == s.priorAttempts < c.maxAttempts
          && s.selected == Original && Active(s) && (s.priorUncertain <==> s.uncertain))
    && (InFlight(s) ==>
          s.current == s.intents && s.attempts == s.priorAttempts + 1 && s.selected == Original
          && s.state == Uncertain && s.uncertain && s.current in s.unresolved
          && (s.priorUncertain <==> s.unresolved - {s.current} != {}))
  }

  /** The flag is set exactly while some committed intent is unaccounted for. */
  predicate Custody(s: State) {
    && (s.uncertain <==> s.unresolved != {})
    && (forall i | i in s.unresolved :: 1 <= i <= s.intents)
    && (s.state == Uncertain ==> s.uncertain)
    && (s.state == Pending ==> !s.uncertain)
    && (s.state == Retained ==>
          !s.uncertain && s.remote && s.saved.Valid() && (s.pc == Idle || s.pc == Closed))
    && (s.remote && !s.uncertain ==> s.state == Retained)
    && (s.remote && (s.pc == Intent || s.pc == InTransport
                     || (s.pc == Outcome && s.outcome != Receipt && s.outcome != Outage))
        ==> s.priorUncertain)
    && (s.pc == Outcome && s.outcome == Receipt ==> s.remote)
  }

  predicate SendsOnce(s: State) {
    && (forall t | t in s.sends ::
          1 <= t.serial == t.committed <= s.intents && t.present && t.state == Uncertain
          && t.attempts > 0 && t.binding == Original)
    && (forall t, u | t in s.sends && u in s.sends :: t.serial == u.serial ==> t == u)
    && (s.pc == InTransport ==> forall t | t in s.sends :: t.serial < s.current)
    && |s.sends| + (if s.pc == InTransport then 1 else 0) <= s.intents
  }

  predicate Inv(c: Setting, s: State) {
    Budgets(c, s) && PhaseFacts(c, s) && Custody(s) && SendsOnce(s)
  }

  lemma StepKeepsBudgets(c: Setting, s: State, a: Action)
    requires Budgets(c, s) && PhaseFacts(c, s) && Enabled(c, a, s)
    ensures Budgets(c, Apply(c, a, s))
  {
    match a
    case IntentCommit => IntentKeepsBudgets(c, s);
    case OutcomeCommit => OutcomeKeepsBudgets(c, s);
    case _ => OtherStepKeepsBudgets(c, s, a);
  }

  lemma IntentKeepsBudgets(c: Setting, s: State)
    requires Budgets(c, s) && s.pc == Intent && s.attempts < c.maxAttempts
    ensures Budgets(c, Apply(c, IntentCommit, s))
  {
  }

  lemma OutcomeKeepsBudgets(c: Setting, s: State)
    requires Budgets(c, s) && s.pc == Outcome && s.attempts == s.priorAttempts + 1
    ensures Budgets(c, Classified(c, s))
  {
  }

  lemma OtherStepKeepsBudgets(c: Setting, s: State, a: Action)
    requires Budgets(c, s) && Enabled(c, a, s) && !a.IntentCommit? && !a.OutcomeCommit?
    ensures Budgets(c, Apply(c, a, s))
  {
  }

  lemma StepKeepsPhaseFacts(c: Setting, s: State, a: Action)
    requires PhaseFacts(c, s) && Custody(s) && Enabled(c, a, s)
    ensures PhaseFacts(c, Apply(c, a, s))
  {
    match a
    case Select(_) => SelectKeepsPhaseFacts(c, s, a);
    case IntentCommit => IntentKeepsPhaseFacts(c, s);
    case OutcomeCommit =>
    case Transport(_, _) => TransportKeepsPhaseFacts(c, s, a);
    case _ => OtherStepKeepsPhaseFacts(c, s, a);
  }

  lemma SelectKeepsPhaseFacts(c: Setting, s: State, a: Action)
    requires PhaseFacts(c, s) && a.Select? && Enabled(c, a, s)
    ensures PhaseFacts(c, Apply(c, a, s))
  {
  }

  lemma IntentKeepsPhaseFacts(c: Setting, s: State)
    requires PhaseFacts(c, s) && Custody(s) && s.pc == Intent
    ensures PhaseFacts(c, Apply(c, IntentCommit, s))
  {
    assert s.unresolved + {s.current} - {s.current} == s.unresolved;
  }

  lemma OtherStepKeepsPhaseFacts(c: Setting, s: State, a: Action)
    requires PhaseFacts(c, s) && Custody(s) && Enabled(c, a, s)
    requires !a.Select? && !a.IntentCommit? && !a.OutcomeCommit? && !a.Transport?
    ensures PhaseFacts(c, Apply(c, a, s))
  {
  }

  lemma TransportKeepsPhaseFacts(c: Setting, s: State, a: Action)
    requires PhaseFacts(c, s) && a.Transport? && Enabled(c, a, s)
    ensures PhaseFacts(c, Apply(c, a, s))
  {
  }

  lemma StepKeepsCustody(c: Setting, s: State, a: Action)
    requires Inv(c, s) && Enabled(c, a, s)
    ensures Custody(Apply(c, a, s))
  {
    if a.OutcomeCommit? {
      OutcomeKeepsCustody(c, s);
    }
  }

  lemma OutcomeKeepsCustody(c: Setting, s: State)
    requires Inv(c, s) && s.pc == Outcome
    ensures Custody(Classified(c, s))
  {
  }

  lemma StepKeepsSends(c: Setting, s: State, a: Action)
    requires Inv(c, s) && Enabled(c, a, s)
    ensures SendsOnce(Apply(c, a, s))
  {
    if a.Transport? {
      TransportKeepsSends(c, s, a);
    } else {
      OtherStepKeepsSends(c, s, a);
    }
  }

  lemma TransportKeepsSends(c: Setting, s: State, a: Action)
    requires PhaseFacts(c, s) && SendsOnce(s) && a.Transport? && Enabled(c, a, s)
    requires s.intents >= 1
    ensures SendsOnce(Apply(c, a, s))
  {
    OneMoreSend(s.sends, SendOf(s));
  }

  lemma OneMoreSend(sends: set<Send>, sent: Send)
    requires forall t, u | t in sends && u in sends :: t.serial == u.serial ==> t == u
    requires forall t | t in sends :: t.serial < sent.serial
    ensures |sends + {sent}| == |sends| + 1
    ensures forall t, u | t in sends + {sent} && u in sends + {sent} :: t.serial == u.serial ==> t == u
  {
    assert sent !in sends;
  }

  lemma OtherStepKeepsSends(c: Setting, s: State, a: Action)
    requires PhaseFacts(c, s) && SendsOnce(s) && !a.Transport? && Enabled(c, a, s)
    ensures SendsOnce(Apply(c, a, s))
  {
  }

  lemma StepKeepsInv(c: Setting, s: State, a: Action)
    requires Inv(c, s) && Enabled(c, a, s)
    ensures Inv(c, Apply(c, a, s))
  {
    StepKeepsBudgets(c, s, a);
    StepKeepsPhaseFacts(c, s, a);
    StepKeepsCustody(c, s, a);
    StepKeepsSends(c, s, a);
  }

  lemma {:induction false} RunKeepsInv(c: Setting, run: seq<Action>)
    requires Legal(c, run)
    ensures Inv(c, After(c, run))
    decreases |run|
  {
    if run != [] {
      var before := run[..|run| - 1];
      RunKeepsInv(c, before);
      StepKeepsInv(c, After(c, before), run[|run| - 1]);
    }
  }

  // ---------------------------------------------------------------------------------------
  // Termination

  function PhaseRank(pc: Phase): nat {
    match pc
    case InTransport => 6
    case Outcome => 5
    case Closed => 4
    case NeedsReopen => 4
    case New => 3
    case Idle => 2
    case Intent => 1
  }

  /** Everything a run can spend only so often: intents, crashes, one refused write, one resume. */
  function Allowance(c: Setting, s: State): int {
    (c.MaxIntents() - s.intents) + (c.crashBudget - s.crashes)
    + (if s.failedWrite then 0 else 1) + (1 - s.resumes)
  }

  function Fuel(c: Setting, s: State): int {
    21 * Allowance(c, s) + 3 * PhaseRank(s.pc)
    + (if Active(s) then 1 else 0) + (if s.due then 0 else 1)
  }

  lemma BudgetsBoundIntents(c: Setting, s: State)
    requires Budgets(c, s)
    ensures s.intents <= c.MaxIntents() && Allowance(c, s) >= 0 && Fuel(c, s) >= 0
  {
  }

  lemma StepSpendsFuel(c: Setting, s: State, a: Action)
    requires PhaseFacts(c, s) && Enabled(c, a, s)
    ensures Fuel(c, Apply(c, a, s)) < Fuel(c, s)
  {
  }

  lemma {:induction false} RunIsFuelled(c: Setting, run: seq<Action>)
    requires Legal(c, run)
    ensures |run| + Fuel(c, After(c, run)) <= Fuel(c, INITIAL)
    decreases |run|
  {
    if run != [] {
      var before, a := run[..|run| - 1], run[|run| - 1];
      RunIsFuelled(c, before);
      RunKeepsInv(c, before);
      StepSpendsFuel(c, After(c, before), a);
    }
  }

  /** Every run ends: outages, crashes, refused writes and the resume only ever buy a bounded
      number of further steps. */
  lemma RunsTerminate(c: Setting, run: seq<Action>)
    requires Legal(c, run)
    ensures |run| <= 21 * (2 * c.maxAttempts + c.outageBudget + c.crashBudget + 2) + 10
  {
    RunIsFuelled(c, run);
    RunKeepsInv(c, run);
    BudgetsBoundIntents(c, After(c, run));
  }

  // ---------------------------------------------------------------------------------------
  // Where a run can stop

  /** Every possible action is a crash. */
  ghost predicate Quiet(c: Setting, s: State) {
    forall a | Enabled(c, a, s) :: a.Crash?
  }

  predicate Settled(s: State) {
    s.pc == Idle && s.due && (s.state == Retained || (s.state == Stopped && s.resumes == 1))
  }

  /** An idle due job below its attempt limit can always be selected: the limit on the total
      number of intents never refuses what the attempt limit allows. */
  lemma IntentLimitNeverBinds(c: Setting, run: seq<Action>)
    requires Legal(c, run)
    ensures var s := After(c, run);
            Enabled(c, Select(Original), s)
            <==> s.pc == Idle && Active(s) && s.due && s.attempts < c.maxAttempts
  {
    RunKeepsInv(c, run);
  }

  lemma SomethingLeftUntilSettled(c: Setting, s: State) returns (a: Action)
    requires Inv(c, s) && !Settled(s)
    ensures Enabled(c, a, s) && !a.Crash?
  {
    match s.pc {
      case New => a := Enqueue;
      case Intent => a := IntentCommit;
      case InTransport => a := Transport(Denied, false);
      case Outcome => a := OutcomeCommit;
      case NeedsReopen => a := Reopen;
      case Closed => a := Reopen;
      case Idle =>
        a := if !s.due then MakeDue
             else if s.state == Stopped then Resume
             else if s.attempts < c.maxAttempts then Select(Original)
             else Exhausted;
    }
  }

  /** A run can stop exactly where the job is idle and due, and either retained under a checked
      receipt held by the relay or stopped with its one resume used. */
  lemma QuietExactlyWhenSettled(c: Setting, run: seq<Action>)
    requires Legal(c, run)
    ensures Quiet(c, After(c, run)) <==> Settled(After(c, run))
    ensures After(c, run).state == Retained ==> After(c, run).saved.Valid() && After(c, run).remote
  {
    RunKeepsInv(c, run);
    if !Settled(After(c, run)) {
      var a := SomethingLeftUntilSettled(c, After(c, run));
    }
  }

  // ---------------------------------------------------------------------------------------
  // What history says about the job

  /** Some transport left a copy at the relay, whether or not its outcome was ever recorded. */
  predicate CopyLeftAtRelay(run: seq<Action>) {
    run != [] && (CopyLeftAtRelay(run[..|run| - 1]) || (run[|run| - 1].Transport? && run[|run| - 1].retained))
  }

  function Committed(run: seq<Action>): nat {
    if run == [] then 0
    else Committed(run[..|run| - 1]) + if run[|run| - 1].IntentCommit? then 1 else 0
  }

  function HandedToTransport(run: seq<Action>): nat {
    if run == [] then 0
    else HandedToTransport(run[..|run| - 1]) + if run[|run| - 1].Transport? then 1 else 0
  }

  /** The result transport reported last. */
  function Reported(run: seq<Action>): Result {
    if run == [] then INITIAL.outcome
    else if run[|run| - 1].Transport? then run[|run| - 1].o
    else Reported(run[..|run| - 1])
  }

  /** The committed intents whose effect at the relay history leaves open: a definite refusal
      accounts for the latest one, a checked receipt for all of them, and nothing else for any. */
  function Unaccounted(run: seq<Action>): set<nat> {
    if run == [] then {} else
    var before, a := run[..|run| - 1], run[|run| - 1];
    if a.IntentCommit? then Unaccounted(before) + {Committed(run)}
    else if !a.OutcomeCommit? then Unaccounted(before)
    else match Reported(before)
         case Receipt => {}
         case Denied => Unaccounted(before) - {Committed(before)}
         case Capacity => Unaccounted(before) - {Committed(before)}
         case Permanent => Unaccounted(before) - {Committed(before)}
         case _ => Unaccounted(before)
  }

  lemma ClassifiedUnresolved(c: Setting, s: State)
    requires s.current == s.intents
    ensures Classified(c, s).outcome == s.outcome
    ensures Classified(c, s).unresolved ==
            match s.outcome
            case Receipt => {}
            case Denied => s.unresolved - {s.intents}
            case Capacity => s.unresolved - {s.intents}
            case Permanent => s.unresolved - {s.intents}
            case _ => s.unresolved
  {
  }

  lemma UnresolvedStep(c: Setting, s: State, a: Action)
    requires (s.pc == Intent ==> s.current == s.intents + 1) && Enabled(c, a, s)
    ensures var s' := Apply(c, a, s);
            && (!a.OutcomeCommit? ==> s'.outcome == if a.Transport? then a.o else s.outcome)
            && (a.IntentCommit? ==> s'.unresolved == s.unresolved + {s'.intents})
            && (!a.IntentCommit? && !a.OutcomeCommit? ==> s'.unresolved == s.unresolved)
  {
  }

  lemma {:induction false} UnresolvedIsUnaccounted(c: Setting, run: seq<Action>)
    requires Legal(c, run)
    ensures After(c, run).outcome == Reported(run)
    ensures After(c, run).unresolved == Unaccounted(run)
    decreases |run|
  {
    if run != [] {
      var before := run[..|run| - 1];
      UnresolvedIsUnaccounted(c, before);
      HistoryAgrees(c, before);
      HistoryAgrees(c, run);
      RunKeepsInv(c, before);
      if run[|run| - 1].OutcomeCommit? {
        ClassifiedUnresolved(c, After(c, before));
      } else {
        UnresolvedStep(c, After(c, before), run[|run| - 1]);
      }
    }
  }

  lemma HistoryStep(c: Setting, s: State, a: Action)
    requires Inv(c, s) && Enabled(c, a, s)
    ensures var s' := Apply(c, a, s);
            && (s'.remote <==> s.remote || (a.Transport? && a.retained))
            && s'.intents == s.intents + (if a.IntentCommit? then 1 else 0)
            && |s'.sends| == |s.sends| + (if a.Transport? then 1 else 0)
  {
    if a.Transport? {
      assert SendOf(s) !in s.sends;
    }
  }

  lemma {:induction false} HistoryAgrees(c: Setting, run: seq<Action>)
    requires Legal(c, run)
    ensures After(c, run).remote <==> CopyLeftAtRelay(run)
    ensures After(c, run).intents == Committed(run)
    ensures |After(c, run).sends| == HandedToTransport(run)
    decreases |run|
  {
    if run != [] {
      var before := run[..|run| - 1];
      HistoryAgrees(c, before);
      RunKeepsInv(c, before);
      HistoryStep(c, After(c, before), run[|run| - 1]);
    }
  }

  /** A job shown as pending, or as stopped without the flag, has never left a copy at the relay
      and has no attempt unaccounted for; every other unretained job carries the flag. */
  lemma UncertaintySurvivesHistory(c: Setting, run: seq<Action>)
    requires Legal(c, run)
    ensures var s := After(c, run);
            && (s.state == Pending || (s.state == Stopped && !s.uncertain)
                ==> !CopyLeftAtRelay(run) && Unaccounted(run) == {})
            && (s.state == Uncertain ==> s.uncertain)
            && (CopyLeftAtRelay(run) ==> s.state == Retained || s.uncertain)
            && (s.uncertain <==> Unaccounted(run) != {})
  {
    RunKeepsInv(c, run);
    HistoryAgrees(c, run);
    UnresolvedIsUnaccounted(c, run);
  }

  /** Every committed intent is charged, spent before the resume, or returned as an outage; and
      each reaches transport at most once, as the original job, after its commit. */
  lemma IntentsAreConserved(c: Setting, run: seq<Action>)
    requires Legal(c, run)
    ensures var s := After(c, run);
            && s.attempts + s.spent + s.classified == Committed(run)
            && HandedToTransport(run) == |s.sends| <= Committed(run) <= 2 * c.maxAttempts + c.outageBudget
            && (forall t | t in s.sends :: 1 <= t.serial <= Committed(run) && t.binding == Original)
            && (forall t, u | t in s.sends && u in s.sends :: t.serial == u.serial ==> t == u)
  {
    RunKeepsInv(c, run);
    HistoryAgrees(c, run);
    BudgetsBoundIntents(c, After(c, run));
  }

  lemma RetainedStep(c: Setting, s: State, a: Action)
    requires Inv(c, s) && Enabled(c, a, s) && s.state == Retained
    ensures var s' := Apply(c, a, s);
            s'.state == Retained && s'.saved == s.saved && s'.sends == s.sends && s'.intents == s.intents
  {
  }

  /** Retention is final: no continuation sends again or touches the saved receipt. */
  lemma {:induction false} RetentionIsFinal(c: Setting, earlier: seq<Action>, later: seq<Action>)
    requires Legal(c, earlier) && Legal(c, later) && earlier <= later
    requires After(c, earlier).state == Retained
    ensures var s, s' := After(c, earlier), After(c, later);
            s'.state == Retained && s'.saved == s.saved && s'.sends == s.sends && s'.intents == s.intents
    decreases |later|
  {
    if |earlier| < |later| {
      var before := later[..|later| - 1];
      RetentionIsFinal(c, earlier, before);
      RunKeepsInv(c, before);
      RetainedStep(c, After(c, before), later[|later| - 1]);
    } else {
      assert earlier == later;
    }
  }
}
