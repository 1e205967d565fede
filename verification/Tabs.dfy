/** Several browser tabs synchronising one durable history, interleaved at every await.

A tab prepares a candidate, asks storage to publish it, and only then commits it to its client.
Publication can succeed unseen; a tab can be closed at any point; any other tab may run between
any two steps.
*/
module Tabs {
  import opened Wrappers
  import opened CertifiedHistory

  /** `client` is the verified in-memory frontier, `head` the durable head it is known to equal,
      `target` the durable head to be replayed up to. */
  datatype Tab =
    | Closed
    | Open(client: Frontier, head: Head, target: Head, staged: Option<Candidate>)
    | Failed

  datatype World = World(chain: seq<Record>, tabs: map<nat, Tab>) {
    function At(t: nat): Tab {
      if t in tabs then tabs[t] else Closed
    }
  }

  const INITIAL := World([], map[])

  datatype Action =
    | OpenTab(t: nat)
    | Replay(t: nat)
    | Stage(t: nat, bundle: Bytes)
    | PublishAndCommit(t: nat)
    | PublishUnseen(t: nat)
    | LoseTab(t: nat)

  predicate Ready(tab: Tab) {
    tab.Open? && tab.head == tab.target
  }

  predicate Enabled(v: Verifier, a: Action, w: World) {
    match a
    case OpenTab(t) => w.At(t) == Closed
    case Replay(t) =>
      w.At(t).Open? && w.At(t).head.frontier.height < w.At(t).target.frontier.height
      && w.At(t).head.frontier.height < |w.chain|
    case Stage(t, bundle) =>
      Ready(w.At(t)) && w.At(t).staged == None && 0 < |bundle| <= MAX_BUNDLE_BYTES
      && v.Prepare(w.At(t).client, bundle).Some?
    case PublishAndCommit(t) => w.At(t).Open? && w.At(t).staged.Some?
    case PublishUnseen(t) => w.At(t).Open? && w.At(t).staged.Some?
    case LoseTab(t) => w.At(t) != Closed
  }

  /** One step of recovery: check the next stored record against the client, then commit it. */
  function AfterReplay(v: Verifier, tab: Tab, r: Record): Tab
    requires tab.Open?
  {
    match Replayed(v, Position(tab.client, tab.head), r)
    case None => Failed
    case Some(at) => tab.(client := at.client, head := at.head)
  }

  function Apply(v: Verifier, a: Action, w: World): World
    requires Enabled(v, a, w)
  {
    match a
    case OpenTab(t) =>
      w.(tabs := w.tabs[t := Open(v.Genesis().frontier, v.Genesis(),
                                  HeadAt(v.Genesis(), w.chain, |w.chain|), None)])
    case Replay(t) =>
      w.(tabs := w.tabs[t := AfterReplay(v, w.At(t), w.chain[w.At(t).head.frontier.height])])
    case Stage(t, bundle) => w.(tabs := w.tabs[t := w.At(t).(staged := v.Prepare(w.At(t).client, bundle))])
    case PublishAndCommit(t) =>
      var tab := w.At(t);
      var r := RecordFor(tab.head, tab.staged.value);
      (match Publish(v, w.chain, tab.head, r)
       case None => w.(tabs := w.tabs[t := Failed])
       case Some(chain) =>
         World(chain, w.tabs[t := if tab.staged.value.base == tab.client
                                  then Open(tab.staged.value.next, r.head, r.head, None)
                                  else Failed]))
    case PublishUnseen(t) =>
      var tab := w.At(t);
      (match Publish(v, w.chain, tab.head, RecordFor(tab.head, tab.staged.value))
       case None => w.(tabs := w.tabs[t := Failed])
       case Some(chain) => World(chain, w.tabs[t := Failed]))
    case LoseTab(t) => w.(tabs := w.tabs[t := Closed])
  }

  predicate Legal(v: Verifier, run: seq<Action>)
    decreases |run|, 0
  {
    run == []
    || (Legal(v, run[..|run| - 1])
        && Enabled(v, run[|run| - 1], After(v, run[..|run| - 1])))
  }

  function After(v: Verifier, run: seq<Action>): World
    requires Legal(v, run)
    decreases |run|, 1
  {
    if run == [] then INITIAL else Apply(v, run[|run| - 1], After(v, run[..|run| - 1]))
  }

  // ---------------------------------------------------------------------------------------
  // Invariants

  /** An open tab's memory is a position on the durable chain, never beyond it. */
  predicate Faithful(v: Verifier, chain: seq<Record>, tab: Tab) {
    tab.Open? ==>
      && tab.client == tab.head.frontier
      && OnChain(v, chain, tab.head)
      && OnChain(v, chain, tab.target)
      && tab.head.frontier.height <= tab.target.frontier.height
      && (tab.staged.Some? ==>
            tab.head == tab.target && v.Certifies(RecordFor(tab.head, tab.staged.value))
            && tab.staged.value.base == tab.client)
  }

  predicate Inv(v: Verifier, w: World) {
    && Certified(v, v.Genesis(), w.chain)
    && forall t | t in w.tabs :: Faithful(v, w.chain, w.tabs[t])
  }

  lemma ReplayStaysOnChain(v: Verifier, w: World, t: nat)
    requires Inv(v, w) && Enabled(v, Replay(t), w)
    ensures var tab := AfterReplay(v, w.At(t), w.chain[w.At(t).head.frontier.height]);
            tab.Open? && Faithful(v, w.chain, tab)
            && tab.head.frontier.height == w.At(t).head.frontier.height + 1
            && tab.target == w.At(t).target && tab.staged == None
  {
    var h := w.At(t).head.frontier.height;
    HeightsCount(v, v.Genesis(), w.chain, h);
    HeightsCount(v, v.Genesis(), w.chain, h + 1);
    assert Linked(v, v.Genesis(), w.chain, h);
  }

  lemma StepKeepsInv(v: Verifier, w: World, a: Action)
    requires Inv(v, w) && Enabled(v, a, w)
    ensures Inv(v, Apply(v, a, w)) && w.chain <= Apply(v, a, w).chain
  {
    match a {
      case OpenTab(t) => HeightsCount(v, v.Genesis(), w.chain, |w.chain|);
      case Replay(t) => ReplayStaysOnChain(v, w, t);
      case PublishAndCommit(t) =>
        var tab := w.At(t);
        var r := RecordFor(tab.head, tab.staged.value);
        if Publish(v, w.chain, tab.head, r).Some? {
          PublishKeepsCertified(v, w.chain, tab.head, r);
        }
      case PublishUnseen(t) =>
        var tab := w.At(t);
        var r := RecordFor(tab.head, tab.staged.value);
        if Publish(v, w.chain, tab.head, r).Some? {
          PublishKeepsCertified(v, w.chain, tab.head, r);
        }
      case _ =>
    }
  }

  lemma {:induction false} RunKeepsInv(v: Verifier, run: seq<Action>)
    requires Legal(v, run)
    ensures Inv(v, After(v, run))
    decreases |run|
  {
    if run != [] {
      RunKeepsInv(v, run[..|run| - 1]);
      StepKeepsInv(v, After(v, run[..|run| - 1]), run[|run| - 1]);
    }
  }

  /** Durable history is append-only across every interleaving, loss and unseen publication. */
  lemma {:induction false} HistoryOnlyGrows(v: Verifier, earlier: seq<Action>, later: seq<Action>)
    requires Legal(v, earlier) && Legal(v, later) && earlier <= later
    ensures After(v, earlier).chain <= After(v, later).chain
    decreases |later|
  {
    if |earlier| < |later| {
      var before := later[..|later| - 1];
      HistoryOnlyGrows(v, earlier, before);
      RunKeepsInv(v, before);
      StepKeepsInv(v, After(v, before), later[|later| - 1]);
    } else {
      assert earlier == later;
    }
  }

  /** Durable history is one linear chain of certified records from genesis, and every open tab
      has verified exactly some beginning of it: persistence precedes commitment. */
  lemma TabsShareOneChain(v: Verifier, run: seq<Action>, t: nat)
    requires Legal(v, run)
    ensures Certified(v, v.Genesis(), After(v, run).chain)
    ensures After(v, run).At(t).Open? ==>
              var tab := After(v, run).At(t);
              tab.client.height <= |After(v, run).chain| && tab.client == tab.head.frontier
              && var verified := After(v, run).chain[..tab.client.height];
              Certified(v, v.Genesis(), verified) && tab.head == HeadAt(v.Genesis(), verified, |verified|)
  {
    RunKeepsInv(v, run);
    var w := After(v, run);
    if w.At(t).Open? {
      CertifiedPrefix(v, v.Genesis(), w.chain, w.At(t).client.height);
    }
  }

  /** A tab left behind cannot publish: whatever it staged, history stays as it is. */
  lemma StaleTabNeverForks(v: Verifier, run: seq<Action>, t: nat, a: Action)
    requires Legal(v, run) && Enabled(v, a, After(v, run))
    requires a == PublishAndCommit(t) || a == PublishUnseen(t)
    requires After(v, run).At(t).head.frontier.height < |After(v, run).chain|
    ensures Apply(v, a, After(v, run)).chain == After(v, run).chain
    ensures Apply(v, a, After(v, run)).At(t) == Failed
  {
    RunKeepsInv(v, run);
    var w := After(v, run);
    HeightsCount(v, v.Genesis(), w.chain, |w.chain|);
  }

  /** A current tab's publication always succeeds, and with it the commit. */
  lemma CurrentTabPublishes(v: Verifier, run: seq<Action>, t: nat)
    requires Legal(v, run) && Enabled(v, PublishAndCommit(t), After(v, run))
    requires After(v, run).At(t).head.frontier.height == |After(v, run).chain|
    ensures var w, w' := After(v, run), Apply(v, PublishAndCommit(t), After(v, run));
            w'.chain == w.chain + [RecordFor(w.At(t).head, w.At(t).staged.value)]
            && Ready(w'.At(t)) && w'.At(t).client == w.At(t).staged.value.next
  {
    RunKeepsInv(v, run);
    var w := After(v, run);
    HeightsCount(v, v.Genesis(), w.chain, |w.chain|);
  }

  lemma Extend(v: Verifier, run: seq<Action>, a: Action)
    requires Legal(v, run) && Enabled(v, a, After(v, run))
    ensures Legal(v, run + [a]) && After(v, run + [a]) == Apply(v, a, After(v, run))
  {
    var longer := run + [a];
    assert longer[..|longer| - 1] == run;
  }

  /** A tab at the end of the chain can publish whatever bundle its frontier's validators certify: the
      chain grows by exactly the record with the certified commitment and identifier. */
  lemma CertifiedBundleCanBePublished(v: Verifier, run: seq<Action>, t: nat, bundle: Bytes)
    requires Legal(v, run) && Ready(After(v, run).At(t)) && After(v, run).At(t).staged == None
    requires After(v, run).At(t).head.frontier.height == |After(v, run).chain| < 0xFFFF_FFFF_FFFF_FFFF
    requires 0 < |bundle| <= 6 * 64 * 1024 + 148 && v.check(After(v, run).At(t).client, bundle).Some?
    ensures
      var w, longer := After(v, run), run + [Stage(t, bundle)] + [PublishAndCommit(t)];
      && Legal(v, longer)
      && var head, (state, id) := w.At(t).head, v.check(w.At(t).client, bundle).value;
      After(v, longer).chain
      == w.chain + [Record(head, Head(head.scope, Frontier(head.frontier.height + 1, state), id), bundle)]
  {
    RunKeepsInv(v, run);
    Extend(v, run, Stage(t, bundle));
    var staged := run + [Stage(t, bundle)];
    Extend(v, staged, PublishAndCommit(t));
    CurrentTabPublishes(v, staged, t);
  }

  // ---------------------------------------------------------------------------------------
  // What a tab owes to the history it found

  /** The durable history at the moment the tab was last opened. */
  function FoundAtOpening(v: Verifier, run: seq<Action>, t: nat): seq<Record>
    requires Legal(v, run)
  {
    if run == [] then []
    else
      var before := run[..|run| - 1];
      if run[|run| - 1] == OpenTab(t) then After(v, before).chain else FoundAtOpening(v, before, t)
  }

  /** What the tab itself has appended since it was last opened. */
  predicate HasPublished(run: seq<Action>, t: nat) {
    run != [] && run[|run| - 1] != OpenTab(t)
    && (run[|run| - 1] == PublishAndCommit(t) || HasPublished(run[..|run| - 1], t))
  }

  lemma OtherTabsStay(v: Verifier, w: World, a: Action, t: nat)
    requires Enabled(v, a, w) && TabOf(a) != t
    ensures Apply(v, a, w).At(t) == w.At(t)
  {
  }

  function TabOf(a: Action): nat {
    match a
    case OpenTab(t) => t
    case Replay(t) => t
    case Stage(t, _) => t
    case PublishAndCommit(t) => t
    case PublishUnseen(t) => t
    case LoseTab(t) => t
  }

  /** An open tab's target is the head it found when it was opened, until it publishes, and lies
      beyond that head afterwards. */
  lemma {:induction false} TargetIsWhatWasFound(v: Verifier, run: seq<Action>, t: nat)
    requires Legal(v, run) && After(v, run).At(t).Open?
    ensures var tab, found := After(v, run).At(t), FoundAtOpening(v, run, t);
            && found <= After(v, run).chain
            && tab.target.frontier.height >= |found|
            && (!HasPublished(run, t) ==> tab.target == HeadAt(v.Genesis(), found, |found|))
    decreases |run|
  {
    var before, a := run[..|run| - 1], run[|run| - 1];
    var w := After(v, before);
    RunKeepsInv(v, before);
    StepKeepsInv(v, w, a);
    if a == OpenTab(t) {
      HeightsCount(v, v.Genesis(), w.chain, |w.chain|);
    } else {
      if TabOf(a) != t {
        OtherTabsStay(v, w, a, t);
      }
      TargetIsWhatWasFound(v, before, t);
    }
  }

  /** A tab that may publish has first replayed, record by record, all it found when it was opened. */
  lemma ReadyTabHasCaughtUp(v: Verifier, run: seq<Action>, t: nat)
    requires Legal(v, run) && Ready(After(v, run).At(t))
    ensures After(v, run).At(t).client.height >= |FoundAtOpening(v, run, t)|
  {
    TargetIsWhatWasFound(v, run, t);
    RunKeepsInv(v, run);
  }

  // ---------------------------------------------------------------------------------------
  // What may happen to a tab

  /** A closed tab can only be opened, and only a closed tab can. A failed tab can only be lost. A tab
      with a staged candidate publishes it, seen or unseen, or is lost. One without replays what is
      left to replay, and only when nothing is left stages what its validators certify. */
  lemma TabsLife(v: Verifier, run: seq<Action>, a: Action)
    requires Legal(v, run)
    ensures
      var w := After(v, run);
      var tab := w.At(TabOf(a));
      Enabled(v, a, w) <==>
        match tab
        case Closed => a.OpenTab?
        case Failed => a.LoseTab?
        case Open(client, head, target, staged) =>
          || a.LoseTab?
          || (staged.Some? && (a.PublishAndCommit? || a.PublishUnseen?))
          || (staged == None && client != target.frontier && a.Replay?)
          || (staged == None && head == target && a.Stage? && 0 < |a.bundle| <= 6 * 64 * 1024 + 148
              && client.height < 0xFFFF_FFFF_FFFF_FFFF && v.check(client, a.bundle).Some?)
  {
    RunKeepsInv(v, run);
    var w := After(v, run);
    var tab := w.At(TabOf(a));
    if tab.Open? {
      assert Faithful(v, w.chain, tab);
      HeightsCount(v, v.Genesis(), w.chain, tab.head.frontier.height);
      HeightsCount(v, v.Genesis(), w.chain, tab.target.frontier.height);
    }
  }

  /** Losing a tab leaves the history and forgets the tab; an unseen publication by a tab at the end of
      the chain is kept although the tab fails. */
  lemma LossesKeepHistory(v: Verifier, run: seq<Action>, t: nat, a: Action)
    requires Legal(v, run) && Enabled(v, a, After(v, run)) && TabOf(a) == t
    ensures a.LoseTab? ==>
              Apply(v, a, After(v, run)).chain == After(v, run).chain && Apply(v, a, After(v, run)).At(t) == Closed
    ensures a.PublishUnseen? && After(v, run).At(t).head.frontier.height == |After(v, run).chain| ==>
              var w := After(v, run);
              && Apply(v, a, w).chain == w.chain + [RecordFor(w.At(t).head, w.At(t).staged.value)]
              && Apply(v, a, w).At(t) == Failed
  {
    RunKeepsInv(v, run);
    var w := After(v, run);
    HeightsCount(v, v.Genesis(), w.chain, |w.chain|);
  }

  /** From wherever it stands in replay, a tab can replay all that is left. */
  lemma {:induction false} ReplayCanFinish(v: Verifier, run: seq<Action>, t: nat) returns (longer: seq<Action>)
    requires Legal(v, run) && After(v, run).At(t).Open? && After(v, run).At(t).staged == None
    ensures Legal(v, longer) && run <= longer && After(v, longer).chain == After(v, run).chain
    ensures Ready(After(v, longer).At(t)) && After(v, longer).At(t).target == After(v, run).At(t).target
    decreases After(v, run).At(t).target.frontier.height - After(v, run).At(t).head.frontier.height
  {
    RunKeepsInv(v, run);
    var w := After(v, run);
    var tab := w.At(t);
    assert Faithful(v, w.chain, tab);
    if tab.head.frontier.height == tab.target.frontier.height {
      longer := run;
    } else {
      Extend(v, run, Replay(t));
      ReplayStaysOnChain(v, w, t);
      longer := ReplayCanFinish(v, run + [Replay(t)], t);
    }
  }

  /** A tab that was closed, lost or never open can be opened again and brought to the end of history. */
  lemma ReopenedTabCanCatchUp(v: Verifier, run: seq<Action>, t: nat) returns (longer: seq<Action>)
    requires Legal(v, run) && After(v, run).At(t) == Closed
    ensures Legal(v, longer) && run <= longer && After(v, longer).chain == After(v, run).chain
    ensures Ready(After(v, longer).At(t)) && After(v, longer).At(t).client.height == |After(v, run).chain|
  {
    Extend(v, run, OpenTab(t));
    var reopened := run + [OpenTab(t)];
    longer := ReplayCanFinish(v, reopened, t);
    RunKeepsInv(v, run);
    RunKeepsInv(v, longer);
    HeightsCount(v, v.Genesis(), After(v, run).chain, |After(v, run).chain|);
  }
}
