/** Durable history as one tab sees it, and bounded replay of it after a reload.

Storage may be intact, in which case it holds a certified chain that other tabs extend at any
await, or not, in which case a page is anything that passes framing. Storage is calm while no other
tab touches it and no write fails.
*/
module CertifiedReplay {
  import opened Wrappers
  import opened CertifiedHistory

  const REPLAY_PER_ACTION: nat := 256
  const MAX_BOOTSTRAP_BYTES: nat := 40 * 1024 * 1024

  // ---------------------------------------------------------------------------------------
  // Storage

  class History {
    const v: Verifier
    const intact: bool
    const calm: bool
    var bootstrap: Option<Bytes>
    var chain: seq<Record>
    ghost var initialisations: nat
    ghost var lastPage: Option<Page>

    predicate Valid()
      reads this
    {
      intact ==> Certified(v, v.Genesis(), chain) && (bootstrap == None ==> chain == [])
    }

    constructor (v: Verifier, intact: bool, calm: bool)
      ensures Valid() && this.v == v && this.intact == intact && this.calm == calm
      ensures bootstrap == None && chain == [] && initialisations == 0
    {
      this.v := v;
      this.intact := intact;
      this.calm := calm;
      initialisations, lastPage := 0, None;
      bootstrap := None;
      chain := [];
    }

    /** What other tabs may do while this one awaits: initialise, and append certified records. */
    method Interfere()
      requires Valid()
      modifies this
      ensures Valid() && old(chain) <= chain && (old(bootstrap).Some? ==> bootstrap == old(bootstrap))
      ensures initialisations == old(initialisations)
      ensures calm ==> chain == old(chain) && bootstrap == old(bootstrap)
    {
      if calm {
        return;
      }
      if bootstrap == None {
        bootstrap := *;
      }
      var more: seq<Record> := *;
      if bootstrap.Some? && (intact ==> Certified(v, v.Genesis(), chain + more)) {
        chain := chain + more;
      }
    }

    method ReadPage(start: nat) returns (page: Option<Page>)
      requires Valid() && start >= 1
      modifies this
      ensures Valid() && old(chain) <= chain && (old(bootstrap).Some? ==> bootstrap == old(bootstrap))
      ensures initialisations == old(initialisations)
      ensures calm ==> chain == old(chain) && bootstrap == old(bootstrap)
      ensures lastPage == page && (page.Some? ==> PageFramed(v, page.value, start))
      ensures intact && start <= |chain| ==>
                exists n :: 1 <= n <= MAX_PAGE_RECORDS && start - 1 + n <= |chain|
                            && page == Some(ChainPage(v, chain, start, n))
    {
      Interfere();
      page := *;
      if intact && start <= |chain| {
        var n: nat :| 1 <= n <= MAX_PAGE_RECORDS && start - 1 + n <= |chain|;
        ChainPageFramed(v, chain, start, n);
        page := Some(ChainPage(v, chain, start, n));
      } else if page.Some? && !PageFramed(v, page.value, start) {
        page := None;
      }
      lastPage := page;
    }

    method LoadBootstrap() returns (stored: Option<Bytes>)
      requires Valid()
      modifies this
      ensures Valid() && old(chain) <= chain && (old(bootstrap).Some? ==> bootstrap == old(bootstrap))
      ensures initialisations == old(initialisations)
      ensures calm ==> chain == old(chain) && bootstrap == old(bootstrap)
      ensures stored == bootstrap
    {
      Interfere();
      stored := bootstrap;
    }

    /** Writes the bootstrap and a height-zero head together, or finds exactly them. */
    method Initialize(raw: Bytes) returns (ok: bool)
      requires Valid()
      modifies this
      ensures Valid() && old(chain) <= chain && (old(bootstrap).Some? ==> bootstrap == old(bootstrap))
      ensures initialisations == old(initialisations) + 1
      ensures ok ==> bootstrap == Some(raw) && chain == []
      ensures raw == [] || |raw| > MAX_BOOTSTRAP_BYTES || old(chain) != []
              || (old(bootstrap).Some? && old(bootstrap) != Some(raw)) ==>
                !ok
      ensures calm && 0 < |raw| <= MAX_BOOTSTRAP_BYTES && old(chain) == []
              && (old(bootstrap) == None || old(bootstrap) == Some(raw)) ==>
                ok
    {
      Interfere();
      initialisations := initialisations + 1;
      ok := *;
      ok := ok || calm;
      if raw == [] || |raw| > MAX_BOOTSTRAP_BYTES || chain != [] || (bootstrap.Some? && bootstrap != Some(raw)) {
        return false;
      }
      bootstrap := Some(raw);
    }

    method LoadHead() returns (stored: Option<Head>)
      requires Valid()
      modifies this
      ensures Valid() && old(chain) <= chain && (old(bootstrap).Some? ==> bootstrap == old(bootstrap))
      ensures initialisations == old(initialisations)
      ensures calm ==> chain == old(chain) && bootstrap == old(bootstrap)
      ensures stored.Some? ==> stored.value.scope == v.scope
      ensures intact ==> stored == if bootstrap == None then None
                                   else Some(HeadAt(v.Genesis(), chain, |chain|))
    {
      Interfere();
      stored := *;
      if intact {
        HeightsCount(v, v.Genesis(), chain, |chain|);
        stored := if bootstrap == None then None else Some(HeadAt(v.Genesis(), chain, |chain|));
      } else if stored.Some? && stored.value.scope != v.scope {
        stored := None;
      }
    }

    /** Appends the record behind its base if that is both the expected and the stored head. Fails if
        the stored head moved, or, unseen by the caller, even after the write completed. */
    method Append(expected: Head, r: Record) returns (ok: bool)
      requires Valid() && v.Certifies(r)
      modifies this
      ensures Valid() && old(chain) <= chain && (old(bootstrap).Some? ==> bootstrap == old(bootstrap))
      ensures initialisations == old(initialisations)
      ensures ok ==> chain != [] && chain[|chain| - 1] == r && r.base == expected
      ensures ok ==> HeadAt(v.Genesis(), chain, |chain| - 1) == expected
      ensures ok && intact ==> OnChain(v, chain, r.head)
      ensures intact && expected.frontier.height < |old(chain)| ==> !ok
      ensures calm ==> bootstrap == old(bootstrap)
      ensures calm && old(bootstrap).Some? && Publish(v, old(chain), expected, r).Some? ==>
                ok && chain == old(chain) + [r]
      ensures calm && Publish(v, old(chain), expected, r) == None ==> !ok && chain == old(chain)
    {
      Interfere();
      ok := *;
      ok := ok || calm;
      if intact {
        HeightsCount(v, v.Genesis(), chain, |chain|);
      }
      var published := Publish(v, chain, expected, r);
      if published == None || bootstrap == None {
        ok := false;
      } else {
        if intact {
          PublishKeepsCertified(v, chain, expected, r);
        }
        chain := published.value;
      }
    }
  }

  // ---------------------------------------------------------------------------------------
  // Sessions

  datatype Error =
    | BootstrapDiffers | BootstrapMissing | InitializeFailed | HeadMissing
    | HeightOverflow | StorageUnavailable | Regressed | NotExtending
    | BadEvidence | MetadataMismatch | StaleBasis | HeadMismatch

  datatype Result<T> = Ok(value: T) | Err(error: Error)

  /** `path` is a certified chain of records leading from one head to another. */
  predicate Reaches(v: Verifier, from: Head, path: seq<Record>, to: Head) {
    Certified(v, from, path) && HeadAt(from, path, |path|) == to
  }

  lemma OneRecord(v: Verifier, r: Record)
    requires v.Certifies(r)
    ensures Reaches(v, r.base, [r], r.head)
  {
    assert Linked(v, r.base, [r], 0);
  }

  lemma ReachesJoins(v: Verifier, from: Head, path: seq<Record>, there: Head, more: seq<Record>, to: Head)
    requires Reaches(v, from, path, there) && Reaches(v, there, more, to)
    ensures Reaches(v, from, path + more, to)
  {
    var whole := path + more;
    forall i | 0 <= i < |whole| ensures Linked(v, from, whole, i) {
      assert if i < |path| then Linked(v, from, path, i) else Linked(v, there, more, i - |path|);
    }
  }

  /** What is wrong with a saved record, if anything is, in the order of the checks. */
  function Flaw(v: Verifier, at: Position, r: Record): (e: Option<Error>)
    ensures e == None <==> Replayed(v, at, r).Some?
  {
    var candidate := v.Prepare(at.client, r.bytes);
    if r.base != at.head then Some(NotExtending)
    else if candidate == None then Some(BadEvidence)
    else if r.head.frontier != candidate.value.next || r.head.bundle != candidate.value.id then Some(MetadataMismatch)
    else None
  }

  /** The page shows a record with this flaw. */
  predicate ShowsFlaw(v: Verifier, at: Position, shown: Option<Page>, e: Error) {
    shown.Some? && exists k | 0 <= k < |shown.value.records| :: Flaw(v, at, shown.value.records[k]) == Some(e)
  }

  /** The error is one that recovery can end with, and its cause is in what storage showed last. */
  predicate Justified(e: Error, v: Verifier, at: Position, target: Head, shown: Option<Page>) {
    match e
    case HeightOverflow => at.head.frontier.height >= MAX_HEIGHT
    case StorageUnavailable => shown == None
    case Regressed =>
      shown.Some? && (shown.value.head.frontier.height < target.frontier.height || shown.value.records == [])
    case HeadMismatch => at.head.frontier.height == target.frontier.height && at.head != target
    case NotExtending => ShowsFlaw(v, at, shown, e)
    case BadEvidence => ShowsFlaw(v, at, shown, e)
    case MetadataMismatch => ShowsFlaw(v, at, shown, e)
    case _ => false
  }

  /** How far one successful recovery call must get. */
  predicate Advanced(before: nat, after: nat, target: nat) {
    before <= after <= target && (after == target || after >= before + REPLAY_PER_ACTION)
  }

  class Session {
    const history: History
    var client: Frontier
    var head: Head
    var target: Head

    /** The client is at the retained head, which intact storage holds on its chain. */
    predicate InStep()
      reads this, history
    {
      && client == head.frontier && head.scope == history.v.scope
      && (history.intact ==> OnChain(history.v, history.chain, head))
    }

    constructor (history: History, genesis: Head, target: Head)
      ensures this.history == history && client == genesis.frontier
      ensures head == genesis && this.target == target
    {
      this.history := history;
      client := genesis.frontier;
      head := genesis;
      this.target := target;
    }

    /** Verify one saved record against the client, and only then commit it. */
    method ReplayRecord(record: Record, ghost from: Head, ghost before: seq<Record>)
      returns (refused: Option<Error>, ghost path: seq<Record>)
      requires InStep() && Reaches(history.v, from, before, head)
      requires record.Framed() && record.head.scope == history.v.scope
      requires history.intact ==> OnChain(history.v, history.chain, record.head)
      modifies this`client, this`head
      ensures InStep() && Reaches(history.v, from, path, head)
      ensures match Replayed(history.v, Position(old(client), old(head)), record)
              case None => refused.Some? && client == old(client) && head == old(head) && path == before
              case Some(next) => refused == None && next == Position(client, head) && path == before + [record]
      ensures refused == Flaw(history.v, Position(old(client), old(head)), record)
    {
      path := before;
      if record.base != head {
        return Some(NotExtending), path;
      }
      var candidate := history.v.Prepare(client, record.bytes);
      if candidate == None {
        return Some(BadEvidence), path;
      }
      if record.head.frontier != candidate.value.next || record.head.bundle != candidate.value.id {
        return Some(MetadataMismatch), path;
      }
      if candidate.value.base != client {
        return Some(StaleBasis), path;
      }
      CertifiedGrows(history.v, from, path, record);
      path := path + [record];
      client := candidate.value.next;
      head := record.head;
      return None, path;
    }

    /** Verify and commit the records of one page, in order, up to the goal. */
    method ReplayPage(page: Page, start: nat, goal: nat, ghost from: Head, ghost before: seq<Record>)
      returns (refused: Option<Error>, replayed: nat, ghost path: seq<Record>)
      requires history.Valid() && PageFramed(history.v, page, start) && page.records != []
      requires InStep() && head.frontier.height == start - 1 < goal
      requires Reaches(history.v, from, before, head)
      requires history.intact ==>
                 && start - 1 + |page.records| <= |history.chain|
                 && page == ChainPage(history.v, history.chain, start, |page.records|)
      modifies this`client, this`head
      ensures InStep() && Reaches(history.v, from, path, head)
      ensures head.frontier.height == start - 1 + replayed <= goal && replayed <= |page.records|
      ensures |path| == |before| + replayed
      ensures refused == None ==> replayed > 0
      ensures (Position(client, head), refused.Some?)
           == ReplayedUpTo(history.v, Position(old(client), old(head)), page.records, goal)
      ensures refused.Some? ==>
                replayed < |page.records|
                && refused == Flaw(history.v, Position(client, head), page.records[replayed])
      ensures history.intact ==> refused == None
    {
      path := before;
      replayed := 0;
      while replayed < |page.records|
        invariant replayed <= |page.records|
        invariant InStep() && head.frontier.height == start - 1 + replayed <= goal
        invariant Reaches(history.v, from, path, head) && |path| == |before| + replayed
        invariant ReplayedUpTo(history.v, Position(client, head), page.records[replayed..], goal)
               == ReplayedUpTo(history.v, Position(old(client), old(head)), page.records, goal)
      {
        ReplayStep(history.v, Position(client, head), page.records, replayed, goal);
        assert RecordFramed(history.v, page, start, replayed);
        var record := page.records[replayed];
        if record.head.frontier.height > goal {
          break;
        }
        if history.intact {
          assert record == history.chain[start - 1 + replayed];
          assert Linked(history.v, history.v.Genesis(), history.chain, head.frontier.height);
        }
        var error, longer := ReplayRecord(record, from, path);
        path := longer;
        if error.Some? {
          return error, replayed, path;
        }
        replayed := replayed + 1;
      }
      return None, replayed, path;
    }

    /** Read the next page of saved records and replay it, up to the target. */
    method ReplayNext(ghost from: Head, ghost before: seq<Record>)
      returns (error: Option<Error>, replayed: nat, ghost path: seq<Record>)
      requires history.Valid() && InStep() && Reaches(history.v, from, before, head)
      requires head.frontier.height < target.frontier.height
      requires history.intact ==> OnChain(history.v, history.chain, target)
      modifies this`client, this`head, history
      ensures history.Valid() && old(history.chain) <= history.chain
      ensures history.initialisations == old(history.initialisations)
      ensures old(history.bootstrap).Some? ==> history.bootstrap == old(history.bootstrap)
      ensures history.calm ==> history.chain == old(history.chain)
      ensures InStep() && Reaches(history.v, from, path, head) && |path| == |before| + replayed
      ensures replayed <= MAX_PAGE_RECORDS && (error == None ==> replayed > 0)
      ensures old(head).frontier.height >= MAX_HEIGHT ==> error == Some(HeightOverflow)
      ensures error == None || replayed > 0 ==>
                history.lastPage.Some? && history.lastPage.value.head.frontier.height >= target.frontier.height
      ensures head.frontier.height == old(head).frontier.height + replayed <= target.frontier.height
      ensures error.Some? ==> Justified(error.value, history.v, Position(client, head), target, history.lastPage)
      ensures history.intact ==> error == None
    {
      path, replayed := before, 0;
      if history.intact {
        assert Linked(history.v, history.v.Genesis(), history.chain, head.frontier.height);
      }
      if head.frontier.height >= MAX_HEIGHT {
        return Some(HeightOverflow), replayed, path;
      }
      var start := head.frontier.height + 1;
      var read := history.ReadPage(start);
      if read == None {
        return Some(StorageUnavailable), replayed, path;
      }
      var page := read.value;
      if history.intact {
        HeightsCount(history.v, history.v.Genesis(), history.chain, |history.chain|);
      }
      if page.head.frontier.height < target.frontier.height || page.records == [] {
        return Some(Regressed), replayed, path;
      }
      error, replayed, path := ReplayPage(page, start, target.frontier.height, from, before);
    }

    /** Replay up to a bounded number of saved records, verifying each before committing it.

        Whatever storage returns, the head moves only along certified records and the client moves
        with it; storage that is intact never makes recovery fail. */
    method Recover() returns (r: Result<bool>, ghost path: seq<Record>)
      requires history.Valid() && InStep()
      requires history.intact ==>
                 OnChain(history.v, history.chain, target) && head.frontier.height <= target.frontier.height
      modifies this`client, this`head, history
      ensures history.Valid() && old(history.chain) <= history.chain
      ensures InStep() && Reaches(history.v, old(head), path, head)
      ensures r == Ok(true) ==> head == target
      ensures r.Err? ==> Justified(r.error, history.v, Position(client, head), target, history.lastPage)
      ensures head.frontier.height == old(head).frontier.height + |path|
      ensures |path| < 272
      ensures r == Ok(false) ==> |path| >= 256 || head.frontier.height > target.frontier.height
      ensures history.initialisations == old(history.initialisations)
      ensures old(history.bootstrap).Some? ==> history.bootstrap == old(history.bootstrap)
      ensures history.calm ==> history.chain == old(history.chain)
      ensures history.intact ==>
                && r.Ok? && (r.value <==> head == target) && OnChain(history.v, history.chain, target)
                && Advanced(old(head).frontier.height, head.frontier.height, target.frontier.height)
    {
      var goal := target.frontier.height;
      var count := 0;
      path := [];
      while head.frontier.height < goal && count < REPLAY_PER_ACTION
        invariant history.Valid() && old(history.chain) <= history.chain
        invariant history.initialisations == old(history.initialisations)
        invariant old(history.bootstrap).Some? ==> history.bootstrap == old(history.bootstrap)
        invariant history.calm ==> history.chain == old(history.chain)
        invariant InStep() && Reaches(history.v, old(head), path, head)
        invariant history.intact ==> head.frontier.height <= goal
        invariant head.frontier.height == old(head).frontier.height + count
        invariant count == |path| < REPLAY_PER_ACTION + MAX_PAGE_RECORDS
        decreases goal - head.frontier.height
      {
        var error, replayed, longer := ReplayNext(old(head), path);
        path := longer;
        count := count + replayed;
        if error.Some? {
          return Err(error.value), path;
        }
      }
      if head.frontier.height == goal && head != target {
        return Err(HeadMismatch), path;
      }
      return Ok(head.frontier.height == goal), path;
    }
  }

  /** Open saved history under a pinned bootstrap, or create it. Saved history is never reset, and
      history that is missing is written only on creation. */
  method OpenSession(history: History, raw: Bytes, create: bool) returns (r: Result<Session>)
    requires history.Valid()
    modifies history
    ensures history.Valid() && old(history.chain) <= history.chain
    ensures old(history.bootstrap).Some? ==> history.bootstrap == old(history.bootstrap)
    ensures r.Ok? ==>
              && fresh(r.value) && r.value.history == history && r.value.InStep()
              && r.value.head == history.v.Genesis()
              && history.bootstrap == Some(raw)
              && (history.intact ==> OnChain(history.v, history.chain, r.value.target))
    ensures history.intact && old(history.bootstrap) == Some(raw) ==>
              r.Ok? && |old(history.chain)| <= r.value.target.frontier.height
    ensures old(history.bootstrap).Some? && old(history.bootstrap) != Some(raw) ==> r == Err(BootstrapDiffers)
    ensures !create ==> history.initialisations == old(history.initialisations) && r != Err(InitializeFailed)
    ensures r.Err? ==>
              match r.error
              case BootstrapDiffers => history.bootstrap.Some? && history.bootstrap != Some(raw)
              case BootstrapMissing => !create && old(history.bootstrap) == None
              case InitializeFailed => create && old(history.bootstrap) == None
              case HeadMissing => !history.intact
              case _ => false
    ensures history.calm && history.intact && create && old(history.bootstrap) == None
            && 0 < |raw| <= MAX_BOOTSTRAP_BYTES ==>
              r.Ok? && r.value.target == history.v.Genesis() && history.chain == []
    ensures history.calm && !create ==> history.chain == old(history.chain) && history.bootstrap == old(history.bootstrap)
    ensures history.calm && history.intact && r.Ok? ==>
              r.value.target == HeadAt(history.v.Genesis(), history.chain, |history.chain|)
  {
    var stored := history.LoadBootstrap();
    match stored {
      case Some(bytes) =>
        if bytes != raw {
          return Err(BootstrapDiffers);
        }
      case None =>
        if !create {
          return Err(BootstrapMissing);
        }
        var ok := history.Initialize(raw);
        if !ok {
          return Err(InitializeFailed);
        }
    }
    var target := history.LoadHead();
    if target == None {
      return Err(HeadMissing);
    }
    if history.intact {
      HeightsCount(history.v, history.v.Genesis(), history.chain, |history.chain|);
    }
    var session := new Session(history, history.v.Genesis(), target.value);
    return Ok(session);
  }

  /** Reload: open saved history and start replaying it. On intact storage that already holds this
      bootstrap the reload cannot fail, and it either finishes or replays a full allowance. */
  method Reload(history: History, raw: Bytes) returns (r: Result<Session>, complete: bool)
    requires history.Valid()
    modifies history
    ensures history.Valid() && old(history.chain) <= history.chain
    ensures old(history.bootstrap).Some? ==> history.bootstrap == old(history.bootstrap)
    ensures history.initialisations == old(history.initialisations)
    ensures old(history.bootstrap).Some? && old(history.bootstrap) != Some(raw) ==> r == Err(BootstrapDiffers)
    ensures r.Ok? ==> fresh(r.value) && r.value.history == history && r.value.InStep()
    ensures r.Ok? ==> history.bootstrap == Some(raw)
    ensures history.calm ==> history.chain == old(history.chain)
    ensures history.calm && history.intact && r.Ok? ==>
              r.value.target == HeadAt(history.v.Genesis(), history.chain, |history.chain|)
    ensures r.Err? ==>
              match r.error
              case BootstrapDiffers => history.bootstrap.Some? && history.bootstrap != Some(raw)
              case BootstrapMissing => old(history.bootstrap) == None
              case InitializeFailed => false
              case StaleBasis => false
              case _ => !history.intact
    ensures r.Ok? && complete ==> r.value.head == r.value.target
    ensures r.Ok? && history.intact ==> OnChain(history.v, history.chain, r.value.target)
    ensures r.Ok? ==> r.value.head.frontier.height < 272
    ensures history.intact && old(history.bootstrap) == Some(raw) ==>
              && r.Ok? && (complete <==> r.value.head == r.value.target)
              && Advanced(0, r.value.head.frontier.height, r.value.target.frontier.height)
              && |old(history.chain)| <= r.value.target.frontier.height
  {
    complete := false;
    r := OpenSession(history, raw, false);
    if r.Ok? {
      var recovered, _ := r.value.Recover();
      match recovered {
        case Ok(done) => complete := done;
        case Err(e) => r := Err(e);
      }
    }
  }

  /** Recovery continued until it reports completion, as the page asks of its user: on intact storage
      it ends with the client verified up to exactly the saved head, after no more calls than the gap
      holds allowances, rounded up. */
  method ContinueRecovery(session: Session) returns (calls: nat)
    requires session.history.Valid() && session.history.intact && session.InStep()
    requires OnChain(session.history.v, session.history.chain, session.target)
    requires session.head.frontier.height <= session.target.frontier.height
    modifies session`client, session`head, session.history
    ensures session.history.Valid() && old(session.history.chain) <= session.history.chain && session.InStep()
    ensures old(session.history.bootstrap).Some? ==> session.history.bootstrap == old(session.history.bootstrap)
    ensures session.history.calm ==> session.history.chain == old(session.history.chain)
    ensures session.head == session.target && session.client == session.target.frontier
    ensures REPLAY_PER_ACTION * calls < Gap(old(session.head), session.target) + REPLAY_PER_ACTION
    ensures Gap(old(session.head), session.target) <= 271 * calls
  {
    calls := 0;
    var complete := session.head.frontier.height == session.target.frontier.height;
    while !complete
      invariant session.history.Valid() && old(session.history.chain) <= session.history.chain
      invariant old(session.history.bootstrap).Some? ==> session.history.bootstrap == old(session.history.bootstrap)
      invariant session.history.calm ==> session.history.chain == old(session.history.chain)
      invariant session.InStep()
      invariant OnChain(session.history.v, session.history.chain, session.target)
      invariant session.head.frontier.height <= session.target.frontier.height
      invariant complete <==> session.head == session.target
      invariant REPLAY_PER_ACTION * calls < Gap(old(session.head), session.target) + REPLAY_PER_ACTION
      invariant Gap(old(session.head), session.head) <= 271 * calls
      invariant !complete ==>
                  REPLAY_PER_ACTION * calls <= Gap(old(session.head), session.head)
      decreases session.target.frontier.height - session.head.frontier.height
    {
      var r, _ := session.Recover();
      complete := r.value;
      calls := calls + 1;
    }
  }

  function Gap(from: Head, to: Head): int {
    to.frontier.height - from.frontier.height
  }

  /** Successive recovery calls, each at least as good as Recover promises, reach the target in
      as many calls as the gap holds allowances, rounded up. */
  lemma {:induction false} RecoveryCallsSuffice(heights: seq<nat>, target: nat)
    requires heights != [] && heights[0] <= target
    requires forall i | 0 <= i < |heights| - 1 :: Advanced(heights[i], heights[i + 1], target)
    requires REPLAY_PER_ACTION * (|heights| - 1) >= target - heights[0]
    ensures heights[|heights| - 1] == target
    decreases |heights|
  {
    if |heights| > 1 {
      assert Advanced(heights[0], heights[1], target);
      var rest := heights[1..];
      if heights[1] == target {
        AtTargetStays(rest, target);
      } else {
        forall i | 0 <= i < |rest| - 1 ensures Advanced(rest[i], rest[i + 1], target) {
          assert Advanced(heights[i + 1], heights[i + 2], target);
        }
        RecoveryCallsSuffice(rest, target);
      }
    }
  }

  lemma {:induction false} AtTargetStays(heights: seq<nat>, target: nat)
    requires heights != [] && heights[0] == target
    requires forall i | 0 <= i < |heights| - 1 :: Advanced(heights[i], heights[i + 1], target)
    ensures heights[|heights| - 1] == target
  {
    if |heights| > 1 {
      assert Advanced(heights[0], heights[1], target);
      AtTargetStays(heights[1..], target);
    }
  }
}
