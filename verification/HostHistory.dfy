/** What the history of a sealed host commit says, by itself, about the state it leaves and about
what may happen next. Nothing here looks at a state: each reading follows the run alone, and the
laws say that the machine's state is exactly what its history says.
*/
module HostHistory {
  import opened HostRecovery

  // ---------------------------------------------------------------------------------------
  // Readings

  /** The marker that has reached the disk for good: publishing writes it through, a fence, the
      directory reaching the disk by itself, or finishing clears it. */
  function DurableMarker(run: seq<Action>): Marker {
    if run == [] then NoMarker
    else
      match run[|run| - 1]
      case MarkFiles => FilesMarker
      case SealFiles => CommittingMarker
      case SyncMarker => NoMarker
      case PersistUnlink => NoMarker
      case Finish => NoMarker
      case _ => DurableMarker(run[..|run| - 1])
  }

  /** The marker that can be seen: unlinking hides it at once, a power loss brings back what had
      reached the disk. */
  function VisibleMarker(run: seq<Action>): Marker {
    if run == [] then NoMarker
    else
      match run[|run| - 1]
      case MarkFiles => FilesMarker
      case SealFiles => CommittingMarker
      case UnlinkPresent => NoMarker
      case PowerLoss => DurableMarker(run[..|run| - 1])
      case _ => VisibleMarker(run[..|run| - 1])
  }

  /** The target's bytes are the new ones. */
  predicate IsNew(run: seq<Action>, t: Target) {
    run != [] &&
    match run[|run| - 1]
    case WriteFile(f) => t == DataFile(f) || IsNew(run[..|run| - 1], t)
    case WriteConfig => t == HostConfig || IsNew(run[..|run| - 1], t)
    case RestoreTarget(u) => t != u && IsNew(run[..|run| - 1], t)
    case DriftFile(f) => t != DataFile(f) && IsNew(run[..|run| - 1], t)
    case _ => IsNew(run[..|run| - 1], t)
  }

  predicate IsBackedUp(run: seq<Action>, t: Target) {
    run != [] &&
    match run[|run| - 1]
    case MakeBackup(u) => t == u || IsBackedUp(run[..|run| - 1], t)
    case DropBackup(u) => t != u && IsBackedUp(run[..|run| - 1], t)
    case _ => IsBackedUp(run[..|run| - 1], t)
  }

  /** The target still waits to be restored, since recovery last decided to restore. */
  predicate AwaitsRestore(run: seq<Action>, t: Target) {
    run != [] &&
    match run[|run| - 1]
    case RecoverRestore => IsBackedUp(run[..|run| - 1], t)
    case RestoreTarget(u) => t != u && AwaitsRestore(run[..|run| - 1], t)
    case ProcessInterruption => false
    case PowerLoss => false
    case _ => AwaitsRestore(run[..|run| - 1], t)
  }

  /** The target's backup is the one last tampered with, and has not been dropped since. */
  predicate IsTampered(run: seq<Action>, t: Target) {
    run != [] &&
    match run[|run| - 1]
    case CorruptBackup(u) => t == u
    case DropBackup(u) => t != u && IsTampered(run[..|run| - 1], t)
    case _ => IsTampered(run[..|run| - 1], t)
  }

  function Interruptions(run: seq<Action>): nat {
    if run == [] then 0 else Interruptions(run[..|run| - 1]) + if run[|run| - 1].IsCrash() then 1 else 0
  }

  /** Where the run stands: an interruption sends it to recovery, and only the step that ends a
      phase leads out of it. */
  function PhaseOf(run: seq<Action>): Phase {
    if run == [] then BackingUp
    else
      match run[|run| - 1]
      case MarkFiles => WritingFiles
      case SealFiles => WritingConfig
      case WriteConfig => WritingComplete
      case WriteComplete => Unlinking
      case UnlinkPresent => Syncing
      case UnlinkAbsent => Syncing
      case SyncMarker => CleaningUp
      case Finish => Done
      case ProcessInterruption => Recovering
      case PowerLoss => Recovering
      case RecoverRestore => Restoring
      case RestoreComplete => Validating
      case ValidateRestore => Unlinking
      case RecoverKeep => Unlinking
      case Refuse => Uncertain
      case _ => PhaseOf(run[..|run| - 1])
  }

  // ---------------------------------------------------------------------------------------
  // The state is what history says

  ghost predicate PhaseAgrees(run: seq<Action>, s: State) {
    && s.pc == PhaseOf(run)
    && s.durable == DurableMarker(run)
    && s.marker == VisibleMarker(run)
    && s.crashes == Interruptions(run)
  }

  ghost predicate BytesAgree(run: seq<Action>, s: State) {
    forall t :: t in s.live <==> IsNew(run, t)
  }

  ghost predicate BackupsAgree(run: seq<Action>, s: State) {
    forall t :: t in s.backups <==> IsBackedUp(run, t)
  }

  ghost predicate RestoresAgree(run: seq<Action>, s: State) {
    forall t :: t in s.todo <==> AwaitsRestore(run, t)
  }

  ghost predicate TamperingAgrees(run: seq<Action>, s: State) {
    forall t :: t in s.tampered <==> IsTampered(run, t)
  }

  ghost predicate Agrees(run: seq<Action>, s: State) {
    && PhaseAgrees(run, s) && BytesAgree(run, s)
    && BackupsAgree(run, s) && RestoresAgree(run, s) && TamperingAgrees(run, s)
  }

  lemma PhaseStep(c: Setting, run: seq<Action>, s: State)
    requires run != [] && PhaseAgrees(run[..|run| - 1], s) && Enabled(c, run[|run| - 1], s)
    ensures PhaseAgrees(run, Apply(c, run[|run| - 1], s))
  {
  }

  lemma BytesStep(c: Setting, run: seq<Action>, s: State)
    requires run != [] && BytesAgree(run[..|run| - 1], s)
    ensures BytesAgree(run, Apply(c, run[|run| - 1], s))
  {
    var before := run[..|run| - 1];
    forall t ensures t in Apply(c, run[|run| - 1], s).live <==> IsNew(run, t) {
      assert t in s.live <==> IsNew(before, t);
    }
  }

  lemma BackupsStep(c: Setting, run: seq<Action>, s: State)
    requires run != [] && BackupsAgree(run[..|run| - 1], s)
    ensures BackupsAgree(run, Apply(c, run[|run| - 1], s))
  {
    var before := run[..|run| - 1];
    forall t ensures t in Apply(c, run[|run| - 1], s).backups <==> IsBackedUp(run, t) {
      assert t in s.backups <==> IsBackedUp(before, t);
    }
  }

  lemma RestoresStep(c: Setting, run: seq<Action>, s: State)
    requires run != [] && BackupsAgree(run[..|run| - 1], s) && RestoresAgree(run[..|run| - 1], s)
    ensures RestoresAgree(run, Apply(c, run[|run| - 1], s))
  {
    var before := run[..|run| - 1];
    forall t ensures t in Apply(c, run[|run| - 1], s).todo <==> AwaitsRestore(run, t) {
      assert t in s.todo <==> AwaitsRestore(before, t);
      assert t in s.backups <==> IsBackedUp(before, t);
    }
  }

  lemma TamperingStep(c: Setting, run: seq<Action>, s: State)
    requires run != [] && TamperingAgrees(run[..|run| - 1], s)
    ensures TamperingAgrees(run, Apply(c, run[|run| - 1], s))
  {
    var before := run[..|run| - 1];
    forall t ensures t in Apply(c, run[|run| - 1], s).tampered <==> IsTampered(run, t) {
      assert t in s.tampered <==> IsTampered(before, t);
    }
  }

  /** Phase, both markers, the bytes of every target, every backup, every restore outstanding and
      every tampered backup are what the history of the run says. */
  lemma {:induction false} StateIsHistory(c: Setting, run: seq<Action>)
    requires Legal(c, run)
    ensures Agrees(run, After(c, run))
    decreases |run|
  {
    if run != [] {
      StateIsHistory(c, run[..|run| - 1]);
      PhaseStep(c, run, After(c, run[..|run| - 1]));
      BytesStep(c, run, After(c, run[..|run| - 1]));
      BackupsStep(c, run, After(c, run[..|run| - 1]));
      RestoresStep(c, run, After(c, run[..|run| - 1]));
      TamperingStep(c, run, After(c, run[..|run| - 1]));
    }
  }

  /** A power loss brings back exactly the marker that had reached the disk; a process interruption
      leaves the one that could be seen. */
  lemma PowerLossBringsBack(c: Setting, run: seq<Action>)
    requires run != [] && Legal(c, run)
    ensures run[|run| - 1] == PowerLoss ==> After(c, run).marker == DurableMarker(run[..|run| - 1])
    ensures run[|run| - 1] == ProcessInterruption ==> After(c, run).marker == VisibleMarker(run[..|run| - 1])
  {
    StateIsHistory(c, run);
  }

  /** The visible marker never promises more than a power loss would bring back. */
  lemma VisibleMarkerIsDurable(c: Setting, run: seq<Action>)
    requires Legal(c, run)
    ensures VisibleMarker(run) == NoMarker || VisibleMarker(run) == DurableMarker(run)
  {
    StateIsHistory(c, run);
    RunKeepsInv(c, run);
  }

  // ---------------------------------------------------------------------------------------
  // What may happen next

  predicate AllBackedUp(c: Setting, run: seq<Action>) {
    forall t | t in c.Targets() :: IsBackedUp(run, t)
  }

  /** What may follow a run, from its history. Recovery restores exactly if a marker can be seen and
      the completion record was never written, and otherwise keeps; a fault can strike whatever
      recovery is about to rely on, and leaves only the refusal. */
  predicate MayFollow(c: Setting, run: seq<Action>, a: Action) {
    var pc := PhaseOf(run);
    var restoring := VisibleMarker(run) != NoMarker && WriteComplete !in run;
    match a
    case MakeBackup(t) => pc == BackingUp && t in c.Targets() && !IsBackedUp(run, t)
    case MarkFiles => pc == BackingUp && AllBackedUp(c, run)
    case WriteFile(f) => pc == WritingFiles && f in c.files && !IsNew(run, DataFile(f))
    case SealFiles => pc == WritingFiles && forall f | f in c.files :: IsNew(run, DataFile(f))
    case WriteConfig => pc == WritingConfig
    case WriteComplete => pc == WritingComplete
    case UnlinkPresent => pc == Unlinking && VisibleMarker(run) != NoMarker
    case UnlinkAbsent => pc == Unlinking && VisibleMarker(run) == NoMarker
    case SyncMarker => pc == Syncing
    case DropBackup(t) => pc == CleaningUp && t in c.Targets() && IsBackedUp(run, t)
    case Finish => pc == CleaningUp && forall t | t in c.Targets() :: !IsBackedUp(run, t)
    case ProcessInterruption => pc != Done && pc != Uncertain && Interruptions(run) < c.crashBudget
    case PowerLoss => pc != Done && pc != Uncertain && Interruptions(run) < c.crashBudget
    case PersistUnlink => VisibleMarker(run) == NoMarker && DurableMarker(run) != NoMarker
    case RecoverRestore => pc == Recovering && Honest(run) && restoring
    case RestoreTarget(t) => pc == Restoring && t in c.Targets() && AwaitsRestore(run, t)
    case RestoreComplete => pc == Restoring && forall t | t in c.Targets() :: !AwaitsRestore(run, t)
    case ValidateRestore => pc == Validating
    case RecoverKeep => pc == Recovering && Honest(run) && !restoring
    case Refuse => pc == Recovering && !Honest(run)
    case CorruptBackup(t) =>
      c.allowCorruption && pc == Recovering && Honest(run) && restoring && t in c.Targets()
    case DriftFile(f) =>
      c.allowCorruption && pc == Recovering && Honest(run) && WriteComplete in run && f in c.files
    case Read =>
      || (WriteComplete in run && forall t | t in c.Targets() :: IsNew(run, t))
      || (WriteComplete !in run && forall t | t in c.Targets() :: !IsNew(run, t))
  }

  /** Recovery's own decisions, the faults that can precede them, and reading. */
  predicate IsRecoveryStep(a: Action) {
    a.RecoverRestore? || a.RecoverKeep? || a.ValidateRestore? || a.Refuse? || a.IsDamage() || a.Read?
  }

  lemma RecoveryFromFacts(c: Setting, run: seq<Action>, s: State, a: Action)
    requires Inv(c, s) && Agrees(run, s) && IsRecoveryStep(a)
    requires (s.complete <==> WriteComplete in run) && (s.damaged <==> !Honest(run))
    ensures Enabled(c, a, s) <==> MayFollow(c, run, a)
  {
    assert forall t | t in s.live :: t in c.Targets();
  }

  lemma EnabledFromFacts(c: Setting, run: seq<Action>, s: State, a: Action)
    requires Bounded(c, s) && Agrees(run, s) && !IsRecoveryStep(a)
    ensures Enabled(c, a, s) <==> MayFollow(c, run, a)
  {
    assert forall t | t in s.backups || t in s.todo :: t in c.Targets();
  }

  /** Exactly which actions may follow a run is settled by its history. */
  lemma HistoryDecidesWhatMayFollow(c: Setting, run: seq<Action>, a: Action)
    requires Legal(c, run)
    ensures Enabled(c, a, After(c, run)) <==> MayFollow(c, run, a)
  {
    StateIsHistory(c, run);
    RunKeepsInv(c, run);
    DamageIsRecorded(c, run);
    CompletionIsPermanent(c, run);
    if IsRecoveryStep(a) {
      RecoveryFromFacts(c, run, After(c, run), a);
    } else {
      EnabledFromFacts(c, run, After(c, run), a);
    }
  }
}
