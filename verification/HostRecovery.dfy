/** Sealed host recovery: replacing a set of data files and a configuration as one commit.

A run backs every target up, publishes a marker, writes the data files, the configuration and
the completion record, then unlinks the marker, fences the directory and drops the backups.
A process interruption or a power loss may strike between any two steps; recovery then either
restores every backup or keeps the new snapshot. The set of data files and the number of
interruptions are parameters.
*/
module HostRecovery {
  import opened Counting

  datatype Target = DataFile(name: string) | HostConfig

  datatype Marker = NoMarker | FilesMarker | CommittingMarker

  datatype Phase =
    | BackingUp | WritingFiles | WritingConfig | WritingComplete
    | Unlinking | Syncing | CleaningUp
    | Recovering | Restoring | Validating
    | Done | Uncertain

  /** The replaced data files, the crash budget, and whether integrity faults may strike. */
  datatype Setting = Setting(files: set<string>, crashBudget: nat, allowCorruption: bool) {
    function Targets(): set<Target> {
      (set f | f in files :: DataFile(f)) + {HostConfig}
    }
  }

  /** What a refusal records, and what a reader or a later recovery can see. */
  datatype Evidence = Evidence(live: set<Target>, complete: bool, marker: Marker,
                               backups: set<Target>, tampered: set<Target>)

  /** `live` holds the targets whose visible bytes are the new version. `marker` is the visible
      marker and `durable` the one a power loss brings back. */
  datatype State = State(
    pc: Phase,
    live: set<Target>,
    complete: bool,
    marker: Marker,
    durable: Marker,
    backups: set<Target>,
    todo: set<Target>,
    crashes: nat,
    tampered: set<Target>,
    damaged: bool,
    badRead: bool,
    refusedAt: Evidence)
  {
    function Visible(): Evidence {
      Evidence(live, complete, marker, backups, tampered)
    }

    predicate PairMatches() {
      (HostConfig in live) == complete
    }

    predicate WholeSnapshot(c: Setting) {
      && PairMatches()
      && forall f | f in c.files :: (DataFile(f) in live) == complete
    }

    predicate NeedsRestore() {
      || marker == FilesMarker
      || (marker == CommittingMarker && (!PairMatches() || HostConfig !in live))
    }

    predicate CanKeep() {
      || (marker == NoMarker && PairMatches())
      || (marker == CommittingMarker && PairMatches() && HostConfig in live && HostConfig in backups)
    }

    predicate CanRestore() {
      NeedsRestore() && HostConfig in backups && tampered == {}
    }
  }

  const INITIAL := State(BackingUp, {}, false, NoMarker, NoMarker, {}, {}, 0, {}, false, false,
                         Evidence({}, false, NoMarker, {}, {}))

  datatype Action =
    | MakeBackup(t: Target)
    | MarkFiles
    | WriteFile(f: string)
    | SealFiles
    | WriteConfig
    | WriteComplete
    | UnlinkPresent
    | UnlinkAbsent
    | SyncMarker
    | DropBackup(t: Target)
    | Finish
    | ProcessInterruption
    | PowerLoss
    | PersistUnlink
    | RecoverRestore
    | RestoreTarget(t: Target)
    | RestoreComplete
    | ValidateRestore
    | RecoverKeep
    | Refuse
    | CorruptBackup(t: Target)
    | DriftFile(f: string)
    | Read
  {
    predicate IsCrash() {
      ProcessInterruption? || PowerLoss?
    }

    predicate IsDamage() {
      CorruptBackup? || DriftFile?
    }
  }

  predicate Enabled(c: Setting, a: Action, s: State) {
    match a
    case MakeBackup(t) => s.pc == BackingUp && t in c.Targets() && t !in s.backups
    case MarkFiles => s.pc == BackingUp && s.backups == c.Targets()
    case WriteFile(f) => s.pc == WritingFiles && f in c.files && DataFile(f) !in s.live
    case SealFiles => s.pc == WritingFiles && forall f | f in c.files :: DataFile(f) in s.live
    case WriteConfig => s.pc == WritingConfig
    case WriteComplete => s.pc == WritingComplete
    case UnlinkPresent => s.pc == Unlinking && s.marker != NoMarker
    case UnlinkAbsent => s.pc == Unlinking && s.marker == NoMarker
    case SyncMarker => s.pc == Syncing
    case DropBackup(t) => s.pc == CleaningUp && t in c.Targets() && t in s.backups
    case Finish => s.pc == CleaningUp && s.backups == {}
    case ProcessInterruption => s.pc != Done && s.pc != Uncertain && s.crashes < c.crashBudget
    case PowerLoss => s.pc != Done && s.pc != Uncertain && s.crashes < c.crashBudget
    case PersistUnlink => s.marker == NoMarker && s.durable != NoMarker
    case RecoverRestore => s.pc == Recovering && s.CanRestore()
    case RestoreTarget(t) => s.pc == Restoring && t in c.Targets() && t in s.todo
    case RestoreComplete => s.pc == Restoring && s.todo == {}
    case ValidateRestore => s.pc == Validating && s.WholeSnapshot(c)
    case RecoverKeep => s.pc == Recovering && s.CanKeep() && s.WholeSnapshot(c)
    case Refuse =>
      || (s.pc == Validating && !s.WholeSnapshot(c))
      || (s.pc == Recovering && !s.CanRestore() && !(s.CanKeep() && s.WholeSnapshot(c)))
    case CorruptBackup(t) =>
      c.allowCorruption && !s.damaged && s.pc == Recovering && s.NeedsRestore()
      && t in c.Targets() && t in s.backups
    case DriftFile(f) =>
      c.allowCorruption && !s.damaged && s.pc == Recovering && s.CanKeep()
      && HostConfig in s.live && f in c.files
    case Read => !s.badRead && s.PairMatches() && s.WholeSnapshot(c)
  }

  function Apply(c: Setting, a: Action, s: State): State {
    match a
    case MakeBackup(t) => s.(backups := s.backups + {t})
    case MarkFiles => s.(pc := WritingFiles, marker := FilesMarker, durable := FilesMarker)
    case WriteFile(f) => s.(live := s.live + {DataFile(f)})
    case SealFiles => s.(pc := WritingConfig, marker := CommittingMarker, durable := CommittingMarker)
    case WriteConfig => s.(pc := WritingComplete, live := s.live + {HostConfig})
    case WriteComplete => s.(pc := Unlinking, complete := true)
    case UnlinkPresent => s.(pc := Syncing, marker := NoMarker)
    case UnlinkAbsent => s.(pc := Syncing)
    case SyncMarker => s.(pc := CleaningUp, durable := NoMarker)
    case DropBackup(t) => s.(backups := s.backups - {t}, tampered := s.tampered - {t})
    case Finish => s.(pc := Done, durable := NoMarker)
    case ProcessInterruption => s.(pc := Recovering, todo := {}, crashes := s.crashes + 1)
    case PowerLoss => s.(pc := Recovering, todo := {}, marker := s.durable, crashes := s.crashes + 1)
    case PersistUnlink => s.(durable := NoMarker)
    case RecoverRestore => s.(pc := Restoring, todo := s.backups)
    case RestoreTarget(t) => s.(live := s.live - {t}, todo := s.todo - {t})
    case RestoreComplete => s.(pc := Validating, complete := HostConfig in s.live)
    case ValidateRestore => s.(pc := Unlinking)
    case RecoverKeep => s.(pc := Unlinking)
    case Refuse => s.(pc := Uncertain, refusedAt := s.Visible())
    case CorruptBackup(t) => s.(tampered := {t}, damaged := true)
    case DriftFile(f) => s.(live := s.live - {DataFile(f)}, damaged := true)
    case Read => s.(badRead := !s.WholeSnapshot(c))
  }

  // ---------------------------------------------------------------------------------------
  // Runs

  function After(c: Setting, run: seq<Action>): State {
    if run == [] then INITIAL else Apply(c, run[|run| - 1], After(c, run[..|run| - 1]))
  }

  predicate Legal(c: Setting, run: seq<Action>) {
    run == []
    || (Legal(c, run[..|run| - 1])
        && Enabled(c, run[|run| - 1], After(c, run[..|run| - 1])))
  }

  lemma Extend(c: Setting, run: seq<Action>, a: Action) returns (longer: seq<Action>)
    requires Legal(c, run) && Enabled(c, a, After(c, run))
    ensures longer == run + [a] && Legal(c, longer)
    ensures After(c, longer) == Apply(c, a, After(c, run))
  {
    longer := run + [a];
    assert longer[..|longer| - 1] == run;
  }

  predicate AllOld(s: State) {
    s.live == {} && !s.complete
  }

  predicate AllNew(c: Setting, s: State) {
    s.live == c.Targets() && s.complete
  }

  /** Only reading, or a further interruption, is possible. */
  ghost predicate Quiescent(c: Setting, s: State) {
    forall a | Enabled(c, a, s) :: a.Read? || a.IsCrash()
  }

  // ---------------------------------------------------------------------------------------
  // The inductive invariant

  /** Facts that hold whether or not an integrity fault struck. */
  predicate Bounded(c: Setting, s: State) {
    && s.live <= c.Targets()
    && s.backups <= c.Targets()
    && s.todo <= c.Targets()
    && s.tampered <= s.backups
    && s.crashes <= c.crashBudget
    && (s.damaged ==> c.allowCorruption)
    && !s.badRead
    && (s.pc == Uncertain ==> s.Visible() == s.refusedAt)
  }

  /** The two copies of the marker, and the backups they oblige the run to retain. */
  predicate MarkersAgree(c: Setting, s: State) {
    && (s.marker != NoMarker ==> s.durable == s.marker)
    && (s.durable != NoMarker ==> s.backups == c.Targets())
    && (s.durable == FilesMarker ==> !s.complete)
  }

  /** Which targets an undamaged run has written, from the markers and the completion record. */
  predicate Written(c: Setting, s: State) {
    && s.tampered == {}
    && (s.complete ==> s.live == c.Targets())
    && (s.marker == NoMarker && !s.complete ==> s.live == {})
  }

  predicate PhaseFacts(c: Setting, s: State) {
    match s.pc
    case BackingUp => s.marker == s.durable == NoMarker && !s.complete
    case WritingFiles => s.marker == FilesMarker && HostConfig !in s.live
    case WritingConfig =>
      s.marker == CommittingMarker && !s.complete && HostConfig !in s.live
      && forall f | f in c.files :: DataFile(f) in s.live
    case WritingComplete => s.marker == CommittingMarker && !s.complete && s.live == c.Targets()
    case Restoring => s.marker != NoMarker && !s.complete && s.live <= s.todo
    case Validating => s.marker != NoMarker && AllOld(s)
    case Unlinking => AllOld(s) || AllNew(c, s)
    case Syncing => s.marker == NoMarker
    case CleaningUp => s.marker == s.durable == NoMarker
    case Done => s.marker == s.durable == NoMarker && s.backups == {}
    case Recovering => true
    case Uncertain => s.damaged
  }

  /** A damaged run waits for its refusal or has been refused, with nothing left to act on:
      either a restore is due from a tampered backup, or a data file behind a matching new
      configuration has drifted. */
  predicate Condemned(c: Setting, s: State) {
    && (s.pc == Recovering || s.pc == Uncertain)
    && (|| (s.tampered != {} && s.NeedsRestore())
        || (s.complete && HostConfig in s.live && !s.WholeSnapshot(c)))
  }

  predicate Inv(c: Setting, s: State) {
    && Bounded(c, s)
    && MarkersAgree(c, s)
    && if s.damaged then Condemned(c, s) else Written(c, s) && PhaseFacts(c, s)
  }

  lemma StepKeepsInv(c: Setting, s: State, a: Action)
    requires Inv(c, s) && Enabled(c, a, s)
    ensures Inv(c, Apply(c, a, s))
  {
    if s.damaged {
      DamagedStepKeepsInv(c, s, a);
    } else if a.IsDamage() {
      DamageKeepsInv(c, s, a);
    } else {
      HonestStepKeepsInv(c, s, a);
    }
  }

  lemma DamagedStepKeepsInv(c: Setting, s: State, a: Action)
    requires Inv(c, s) && Enabled(c, a, s) && s.damaged
    ensures Inv(c, Apply(c, a, s))
  {
  }

  lemma DamageKeepsInv(c: Setting, s: State, a: Action)
    requires Inv(c, s) && Enabled(c, a, s) && !s.damaged && a.IsDamage()
    ensures Inv(c, Apply(c, a, s))
  {
  }

  lemma HonestStepKeepsInv(c: Setting, s: State, a: Action)
    requires Inv(c, s) && Enabled(c, a, s) && !s.damaged && !a.IsDamage()
    ensures Inv(c, Apply(c, a, s))
  {
  }

  /** A validated restore is exactly the old version, still backed up in full, and leaving it for
      the unlink keeps the invariant. */
  lemma ValidatedRestoreIsOld(c: Setting, s: State)
    requires Inv(c, s) && Enabled(c, ValidateRestore, s)
    ensures AllOld(s) && s.backups == c.Targets() && s.marker != NoMarker && !s.damaged
    ensures Inv(c, Apply(c, ValidateRestore, s))
  {
    StepKeepsInv(c, s, ValidateRestore);
  }

  lemma {:induction false} RunKeepsInv(c: Setting, run: seq<Action>)
    requires Legal(c, run)
    ensures Inv(c, After(c, run))
    decreases |run|
  {
    if run != [] {
      var before := run[..|run| - 1];
      RunKeepsInv(c, before);
      StepKeepsInv(c, After(c, before), run[|run| - 1]);
    }
  }

  /** The five invariants the finite model checks, for every file set and crash budget. */
  lemma CheckedInvariants(c: Setting, run: seq<Action>)
    requires Legal(c, run)
    ensures var s := After(c, run);
            && (s.pc == Restoring ==> c.Targets() <= s.backups)
            && (s.pc == Recovering && s.marker != NoMarker && !s.damaged ==> HostConfig in s.backups)
            && !s.badRead
            && (s.pc == Done ==> s.WholeSnapshot(c))
            && (s.pc == Uncertain ==> s.Visible() == s.refusedAt)
  {
    RunKeepsInv(c, run);
  }

  // ---------------------------------------------------------------------------------------
  // Refusal

  predicate Honest(run: seq<Action>) {
    forall a | a in run :: !a.IsDamage()
  }

  lemma HonestSoFar(run: seq<Action>, a: Action)
    ensures Honest(run + [a]) <==> Honest(run) && !a.IsDamage()
  {
    assert (run + [a])[|run|] == a;
    assert forall b | b in run :: b in run + [a];
  }

  lemma OnlyFaultsDamage(c: Setting, s: State, a: Action)
    requires Enabled(c, a, s)
    ensures Apply(c, a, s).damaged <==> s.damaged || a.IsDamage()
  {
  }

  lemma {:induction false} DamageIsRecorded(c: Setting, run: seq<Action>)
    requires Legal(c, run)
    ensures After(c, run).damaged <==> !Honest(run)
    decreases |run|
  {
    if run != [] {
      var before, a := run[..|run| - 1], run[|run| - 1];
      DamageIsRecorded(c, before);
      OnlyFaultsDamage(c, After(c, before), a);
      HonestSoFar(before, a);
      assert run == before + [a];
    }
  }

  /** Refusal is possible exactly while recovering from an integrity fault; in particular an
      honest run is never refused, whatever the interruptions. */
  lemma RefusalExactlyOnDamage(c: Setting, run: seq<Action>)
    requires Legal(c, run)
    ensures Enabled(c, Refuse, After(c, run))
            <==> !Honest(run) && After(c, run).pc == Recovering
    ensures Honest(run) ==> After(c, run).pc != Uncertain
  {
    RunKeepsInv(c, run);
    DamageIsRecorded(c, run);
  }

  // ---------------------------------------------------------------------------------------
  // Termination

  function PhaseRank(pc: Phase): (rank: nat)
    ensures rank < 11
  {
    match pc
    case BackingUp => 10
    case WritingFiles => 9
    case WritingConfig => 8
    case WritingComplete => 7
    case Recovering => 6
    case Restoring => 5
    case Validating => 4
    case Unlinking => 3
    case Syncing => 2
    case CleaningUp => 1
    case Done => 0
    case Uncertain => 0
  }

  /** The targets the current phase has still to handle. */
  function Remaining(c: Setting, s: State): set<Target> {
    match s.pc
    case BackingUp => c.Targets() - s.backups
    case WritingFiles => c.Targets() - s.live
    case CleaningUp => s.backups
    case Restoring => s.todo
    case _ => {}
  }

  function Base(c: Setting): nat {
    2 * |c.Targets()| + 2
  }

  function Major(c: Setting, s: State): nat
    requires s.crashes <= c.crashBudget
  {
    ((c.crashBudget - s.crashes) * 2 + if s.damaged then 0 else 1) * 11 + PhaseRank(s.pc)
  }

  function Minor(c: Setting, s: State): nat {
    2 * |Remaining(c, s)| + if s.durable == NoMarker then 0 else 1
  }

  /** What every step except a read must spend. */
  function Fuel(c: Setting, s: State): nat
    requires s.crashes <= c.crashBudget
  {
    Major(c, s) * Base(c) + Minor(c, s)
  }

  lemma MinorBounded(c: Setting, s: State)
    requires Inv(c, s)
    ensures Minor(c, s) < Base(c)
  {
    SubsetSize(Remaining(c, s), c.Targets());
  }

  /** The steps that stay in their phase and take one target off its list. */
  predicate HandlesOneTarget(a: Action) {
    a.MakeBackup? || a.WriteFile? || a.DropBackup? || a.RestoreTarget?
  }

  lemma TakenOff(before: set<Target>, t: Target, after: set<Target>)
    requires t in before && after == before - {t}
    ensures |after| < |before|
  {
  }

  lemma HandlingKeepsPhase(c: Setting, s: State, a: Action)
    requires Enabled(c, a, s) && HandlesOneTarget(a)
    ensures var s' := Apply(c, a, s);
            && s'.pc == s.pc && s'.crashes == s.crashes && s'.damaged == s.damaged
            && s'.durable == s.durable
  {
  }

  lemma BackupShrinksTheList(c: Setting, s: State, t: Target)
    requires Enabled(c, MakeBackup(t), s)
    ensures |Remaining(c, Apply(c, MakeBackup(t), s))| < |Remaining(c, s)|
  {
    TakenOff(c.Targets() - s.backups, t, c.Targets() - (s.backups + {t}));
  }

  lemma WriteShrinksTheList(c: Setting, s: State, f: string)
    requires Enabled(c, WriteFile(f), s)
    ensures |Remaining(c, Apply(c, WriteFile(f), s))| < |Remaining(c, s)|
  {
    TakenOff(c.Targets() - s.live, DataFile(f), c.Targets() - (s.live + {DataFile(f)}));
  }

  lemma HandledTargetLeavesTheList(c: Setting, s: State, a: Action)
    requires Enabled(c, a, s) && HandlesOneTarget(a)
    ensures |Remaining(c, Apply(c, a, s))| < |Remaining(c, s)|
  {
    match a {
      case MakeBackup(t) => BackupShrinksTheList(c, s, t);
      case WriteFile(f) => WriteShrinksTheList(c, s, f);
      case DropBackup(t) => TakenOff(s.backups, t, s.backups - {t});
      case RestoreTarget(t) => TakenOff(s.todo, t, s.todo - {t});
    }
  }

  lemma OtherStepsAdvance(c: Setting, s: State, a: Action)
    requires Inv(c, s) && Enabled(c, a, s) && !a.Read? && !HandlesOneTarget(a) && !a.PersistUnlink?
    ensures var s' := Apply(c, a, s);
            || (s.crashes < s'.crashes <= c.crashBudget)
            || (s'.crashes == s.crashes && s'.damaged && !s.damaged)
            || (s'.crashes == s.crashes && s'.damaged == s.damaged && PhaseRank(s'.pc) < PhaseRank(s.pc))
  {
  }

  lemma StepSpendsFuel(c: Setting, s: State, a: Action)
    requires Inv(c, s) && Enabled(c, a, s) && !a.Read?
    ensures Apply(c, a, s).crashes <= c.crashBudget
    ensures Fuel(c, Apply(c, a, s)) < Fuel(c, s)
  {
    var s' := Apply(c, a, s);
    StepKeepsInv(c, s, a);
    MinorBounded(c, s');
    if HandlesOneTarget(a) {
      HandlingKeepsPhase(c, s, a);
      HandledTargetLeavesTheList(c, s, a);
    } else if !a.PersistUnlink? {
      OtherStepsAdvance(c, s, a);
      DigitsDecrease(Major(c, s), Minor(c, s), Major(c, s'), Minor(c, s'), Base(c));
    }
  }

  /** An admitted read changes nothing at all. */
  lemma ReadStutters(c: Setting, s: State)
    requires Inv(c, s) && Enabled(c, Read, s)
    ensures Apply(c, Read, s) == s
  {
  }

  function Effects(run: seq<Action>): nat {
    if run == [] then 0
    else Effects(run[..|run| - 1]) + if run[|run| - 1].Read? then 0 else 1
  }

  lemma {:induction false} EffectsAreFuelled(c: Setting, run: seq<Action>)
    requires Legal(c, run)
    ensures After(c, run).crashes <= c.crashBudget
    ensures Effects(run) + Fuel(c, After(c, run)) <= Fuel(c, INITIAL)
    decreases |run|
  {
    if run != [] {
      var before, a := run[..|run| - 1], run[|run| - 1];
      EffectsAreFuelled(c, before);
      RunKeepsInv(c, before);
      RunKeepsInv(c, run);
      if a.Read? {
        ReadStutters(c, After(c, before));
      } else {
        StepSpendsFuel(c, After(c, before), a);
      }
    }
  }

  /** Every run ends: its reads aside, it is shorter than a bound fixed by the number of data
      files and the crash budget. */
  lemma RunsTerminate(c: Setting, run: seq<Action>)
    requires Legal(c, run)
    ensures Effects(run) < 22 * (c.crashBudget + 1) * (2 * |c.files| + 4)
  {
    EffectsAreFuelled(c, run);
    InitialFuel(c);
  }

  lemma InitialFuel(c: Setting)
    ensures Fuel(c, INITIAL) < 22 * (c.crashBudget + 1) * (2 * |c.files| + 4)
  {
    MinorBounded(c, INITIAL);
    TargetCount(c);
    DigitsDecrease(Major(c, INITIAL) + 1, 0, Major(c, INITIAL), Minor(c, INITIAL), Base(c));
  }

  lemma TargetCount(c: Setting)
    ensures |c.Targets()| == |c.files| + 1
  {
    DataFileCount(c.files);
    assert HostConfig !in (set f | f in c.files :: DataFile(f));
  }

  lemma DataFileCount(files: set<string>)
    ensures |(set f | f in files :: DataFile(f))| == |files|
  {
    if files != {} {
      var f :| f in files;
      DataFileCount(files - {f});
      assert (set g | g in files :: DataFile(g))
          == (set g | g in files - {f} :: DataFile(g)) + {DataFile(f)};
    }
  }

  // ---------------------------------------------------------------------------------------
  // The commit point

  lemma CompletionStep(c: Setting, s: State, a: Action)
    requires Inv(c, s) && Enabled(c, a, s)
    ensures Apply(c, a, s).complete <==> s.complete || a == WriteComplete
  {
  }

  /** Restoring never happens behind a written completion record, so the record is present
      exactly from WriteComplete on. */
  lemma {:induction false} CompletionIsPermanent(c: Setting, run: seq<Action>)
    requires Legal(c, run)
    ensures After(c, run).complete <==> WriteComplete in run
    decreases |run|
  {
    if run != [] {
      var before, a := run[..|run| - 1], run[|run| - 1];
      CompletionIsPermanent(c, before);
      RunKeepsInv(c, before);
      CompletionStep(c, After(c, before), a);
      assert run == before + [a];
    }
  }

  /** All or nothing, decided by the single WriteComplete step. */
  lemma FinishedRunIsAllOrNothing(c: Setting, run: seq<Action>)
    requires Legal(c, run) && After(c, run).pc == Done
    ensures Honest(run)
    ensures if WriteComplete in run then AllNew(c, After(c, run)) else AllOld(After(c, run))
    ensures var s := After(c, run); s.marker == s.durable == NoMarker && s.backups == {}
  {
    RunKeepsInv(c, run);
    DamageIsRecorded(c, run);
    CompletionIsPermanent(c, run);
  }

  /** A reader is only ever shown one whole version, and later readers never an older one. */
  lemma ReadsNeverGoBack(c: Setting, earlier: seq<Action>, later: seq<Action>)
    requires Legal(c, earlier) && Legal(c, later) && earlier <= later
    requires Enabled(c, Read, After(c, earlier)) && Enabled(c, Read, After(c, later))
    ensures AllOld(After(c, earlier)) || AllNew(c, After(c, earlier))
    ensures AllNew(c, After(c, earlier)) ==> AllNew(c, After(c, later))
    ensures AllNew(c, After(c, earlier)) <==> WriteComplete in earlier
  {
    RunKeepsInv(c, earlier);
    RunKeepsInv(c, later);
    CompletionIsPermanent(c, earlier);
    CompletionIsPermanent(c, later);
    WholeMeansOneVersion(c, After(c, earlier));
    WholeMeansOneVersion(c, After(c, later));
  }

  lemma WholeMeansOneVersion(c: Setting, s: State)
    requires s.live <= c.Targets() && s.WholeSnapshot(c)
    ensures if s.complete then AllNew(c, s) else AllOld(s)
  {
  }

  // ---------------------------------------------------------------------------------------
  // Progress

  /** A step of the protocol itself: neither a read nor anything the environment does. */
  predicate IsProtocolStep(a: Action) {
    !a.Read? && !a.IsCrash() && !a.IsDamage()
  }

  lemma NextProtocolStep(c: Setting, s: State) returns (a: Action)
    requires Inv(c, s) && !s.damaged && s.pc != Done
    ensures Enabled(c, a, s) && IsProtocolStep(a)
  {
    match s.pc {
      case BackingUp =>
        if s.backups == c.Targets() {
          a := MarkFiles;
        } else {
          assert c.Targets() - s.backups != {};
          var t :| t in c.Targets() - s.backups;
          a := MakeBackup(t);
        }
      case WritingFiles =>
        if f :| f in c.files && DataFile(f) !in s.live {
          a := WriteFile(f);
        } else {
          a := SealFiles;
        }
      case WritingConfig => a := WriteConfig;
      case WritingComplete => a := WriteComplete;
      case Unlinking => a := if s.marker == NoMarker then UnlinkAbsent else UnlinkPresent;
      case Syncing => a := SyncMarker;
      case CleaningUp =>
        if s.backups == {} {
          a := Finish;
        } else {
          var t :| t in s.backups;
          a := DropBackup(t);
        }
      case Recovering => a := if s.CanRestore() then RecoverRestore else RecoverKeep;
      case Restoring =>
        if s.todo == {} {
          a := RestoreComplete;
        } else {
          var t :| t in s.todo;
          a := RestoreTarget(t);
        }
      case Validating => a := ValidateRestore;
    }
  }

  /** Finished, or refused with the durable marker settled. */
  predicate AtTheEnd(s: State) {
    s.pc == Done || (s.pc == Uncertain && (s.marker == NoMarker ==> s.durable == NoMarker))
  }

  lemma NothingLeftAtTheEnd(c: Setting, s: State, a: Action)
    requires Inv(c, s) && AtTheEnd(s) && Enabled(c, a, s)
    ensures a.Read?
  {
  }

  lemma SomethingLeftBeforeTheEnd(c: Setting, s: State) returns (a: Action)
    requires Inv(c, s) && !AtTheEnd(s)
    ensures Enabled(c, a, s) && !a.Read? && !a.IsCrash()
  {
    if !s.damaged {
      a := NextProtocolStep(c, s);
    } else {
      a := if s.pc == Recovering then Refuse else PersistUnlink;
    }
  }

  /** Nothing but reads and interruptions is possible exactly at the end: an honest run is
      finished, a damaged one has been refused and its durable marker has settled. */
  lemma QuietOnlyAtTheEnd(c: Setting, run: seq<Action>)
    requires Legal(c, run)
    ensures Quiescent(c, After(c, run)) <==> AtTheEnd(After(c, run))
    ensures Honest(run) && Quiescent(c, After(c, run)) ==> After(c, run).pc == Done
  {
    RunKeepsInv(c, run);
    DamageIsRecorded(c, run);
    var s := After(c, run);
    if AtTheEnd(s) {
      forall a | Enabled(c, a, s) ensures a.Read? {
        NothingLeftAtTheEnd(c, s, a);
      }
    } else {
      var a := SomethingLeftBeforeTheEnd(c, s);
    }
  }

  /** `steps` can be taken one after the other from `s` and lead to `end`. */
  predicate Leads(c: Setting, s: State, steps: seq<Action>, end: State)
    decreases |steps|
  {
    if steps == [] then s == end
    else Enabled(c, steps[0], s) && Leads(c, Apply(c, steps[0], s), steps[1..], end)
  }

  lemma {:induction false} FinishFrom(c: Setting, s: State) returns (rest: seq<Action>, end: State)
    requires Inv(c, s) && !s.damaged
    ensures Leads(c, s, rest, end) && end.pc == Done
    ensures forall a | a in rest :: IsProtocolStep(a)
    decreases Fuel(c, s)
  {
    rest, end := [], s;
    if s.pc != Done {
      var a := NextProtocolStep(c, s);
      StepKeepsInv(c, s, a);
      StepSpendsFuel(c, s, a);
      ProtocolStepsAreHonest(c, s, a);
      rest, end := FinishFrom(c, Apply(c, a, s));
      rest := [a] + rest;
    }
  }

  lemma ProtocolStepsAreHonest(c: Setting, s: State, a: Action)
    requires IsProtocolStep(a) && !s.damaged
    ensures !Apply(c, a, s).damaged
  {
  }

  lemma {:induction false} LeadsExtendsRun(c: Setting, run: seq<Action>, rest: seq<Action>, end: State)
    requires Legal(c, run) && Leads(c, After(c, run), rest, end)
    ensures Legal(c, run + rest) && After(c, run + rest) == end
    decreases |rest|
  {
    if rest == [] {
      assert run + rest == run;
    } else {
      var longer := Extend(c, run, rest[0]);
      LeadsExtendsRun(c, longer, rest[1..], end);
      assert longer + rest[1..] == run + rest;
    }
  }

  /** From every point of an honest run the protocol can finish by its own steps. */
  lemma HonestRunCanFinish(c: Setting, run: seq<Action>) returns (rest: seq<Action>)
    requires Legal(c, run) && Honest(run)
    ensures Legal(c, run + rest) && After(c, run + rest).pc == Done
    ensures forall a | a in rest :: IsProtocolStep(a)
  {
    RunKeepsInv(c, run);
    DamageIsRecorded(c, run);
    var end;
    rest, end := FinishFrom(c, After(c, run));
    LeadsExtendsRun(c, run, rest, end);
  }

  // ---------------------------------------------------------------------------------------
  // Integrity faults

  predicate SameBytes(s: State, s': State) {
    s'.live == s.live && s'.complete == s.complete && s'.backups == s.backups && s'.tampered == s.tampered
  }

  lemma DamagedStep(c: Setting, s: State, a: Action)
    requires Inv(c, s) && Enabled(c, a, s) && s.damaged
    ensures SameBytes(s, Apply(c, a, s)) && Apply(c, a, s).damaged
  {
  }

  /** After an integrity fault nothing is restored, written, cleaned up or finished: the bytes,
      the completion record and the tampered backup stay exactly as the fault left them. */
  lemma {:induction false} DamageFreezesEvidence(c: Setting, earlier: seq<Action>, later: seq<Action>)
    requires Legal(c, earlier) && Legal(c, later) && earlier <= later && !Honest(earlier)
    ensures SameBytes(After(c, earlier), After(c, later))
    ensures After(c, later).pc == Recovering || After(c, later).pc == Uncertain
    ensures After(c, later).damaged
    decreases |later|
  {
    RunKeepsInv(c, later);
    if |earlier| < |later| {
      var before := later[..|later| - 1];
      DamageFreezesEvidence(c, earlier, before);
      RunKeepsInv(c, before);
      DamagedStep(c, After(c, before), later[|later| - 1]);
    } else {
      assert earlier == later;
      DamageIsRecorded(c, later);
    }
  }

  predicate InRecovery(s: State) {
    && s.crashes > 0
    && (s.pc.Recovering? || s.pc.Restoring? || s.pc.Validating? || s.pc.Unlinking?
        || s.pc.Syncing? || s.pc.CleaningUp? || s.pc.Done? || s.pc.Uncertain?)
  }

  lemma InterruptionStartsRecovery(c: Setting, s: State, a: Action)
    requires Inv(c, s) && Enabled(c, a, s) && (a.IsCrash() || InRecovery(s))
    ensures InRecovery(Apply(c, a, s)) && Apply(c, a, s).complete == s.complete
  {
  }

  lemma OnlyInterruptionsCount(c: Setting, s: State, a: Action)
    requires Enabled(c, a, s) && !a.IsCrash()
    ensures Apply(c, a, s).crashes == s.crashes
  {
  }

  lemma {:induction false} InterruptedMeansInRecovery(c: Setting, run: seq<Action>)
    requires Legal(c, run) && After(c, run).crashes > 0
    ensures InRecovery(After(c, run))
    decreases |run|
  {
    var before, a := run[..|run| - 1], run[|run| - 1];
    var s := After(c, before);
    RunKeepsInv(c, before);
    if !a.IsCrash() {
      OnlyInterruptionsCount(c, s, a);
      InterruptedMeansInRecovery(c, before);
    }
    InterruptionStartsRecovery(c, s, a);
  }

  /** The first interruption decides the outcome: whether the new version survives is settled
      by whether the completion record was already written. */
  lemma {:induction false} InterruptionDecides(c: Setting, earlier: seq<Action>, later: seq<Action>)
    requires Legal(c, earlier) && Legal(c, later) && earlier <= later
    requires After(c, earlier).crashes > 0
    ensures After(c, later).complete == After(c, earlier).complete
    ensures After(c, later).crashes > 0
    decreases |later|
  {
    if |earlier| < |later| {
      var before := later[..|later| - 1];
      InterruptionDecides(c, earlier, before);
      InterruptedMeansInRecovery(c, before);
      RunKeepsInv(c, before);
      InterruptionStartsRecovery(c, After(c, before), later[|later| - 1]);
    } else {
      assert earlier == later;
    }
  }
}
