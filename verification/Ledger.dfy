/** Ledger admission: an append-only, single-tip, hash-chained event log with ordered checks.

Verdict states which check refuses an offered event. Ledger answers by scanning its log;
CachedLedger keeps no log at all but an event map, a tip and a per-actor sequence map, as the
shipping ledger does.
*/
module Ledgers {
  import ByteCodec
  import opened Wrappers

  type Digest = nat

  datatype Event = Event(id: Digest, parent: Option<Digest>, realm: nat, epoch: nat, actor: nat,
                         sequence: nat, payload: ByteCodec.Bytes)

  const MAX_PAYLOAD := 1024
  const MAX_EVENTS := 4096

  datatype Error =
    | PayloadTooLarge
    | WrongContext
    | InvalidEventId
    | DuplicateEvent
    | NonMonotonicSequence
    | UnknownOrForkedParent
    | Capacity

  datatype Context = Context(realm: nat, epoch: nat, maxEvents: nat)

  // ---------------------------------------------------------------------------------------
  // Admission over a log

  predicate Retains(log: seq<Event>, id: Digest) {
    exists i | 0 <= i < |log| :: log[i].id == id
  }

  function LastSequence(log: seq<Event>, actor: nat): Option<nat> {
    if log == [] then None
    else if log[|log| - 1].actor == actor then Some(log[|log| - 1].sequence)
    else LastSequence(log[..|log| - 1], actor)
  }

  function Tip(log: seq<Event>): Option<Digest> {
    if log == [] then None else Some(log[|log| - 1].id)
  }

  function Verdict(c: Context, log: seq<Event>, ev: Event): Option<Error> {
    if |ev.payload| > MAX_PAYLOAD then Some(PayloadTooLarge)
    else if ev.realm != c.realm || ev.epoch != c.epoch then Some(WrongContext)
    else if Retains(log, ev.id) then Some(DuplicateEvent)
    else if LastSequence(log, ev.actor).Some? && ev.sequence <= LastSequence(log, ev.actor).value
    then Some(NonMonotonicSequence)
    else if ev.parent != Tip(log) then Some(UnknownOrForkedParent)
    else if |log| >= c.maxEvents then Some(Capacity)
    else None
  }

  function Admit(c: Context, log: seq<Event>, ev: Event): seq<Event> {
    if Verdict(c, log, ev) == None then log + [ev] else log
  }

  /** The log after offering events in order, and the verdict on each. */
  function Offer(c: Context, log: seq<Event>, evs: seq<Event>): (seq<Event>, seq<Option<Error>>)
    decreases |evs|
  {
    if evs == [] then (log, [])
    else
      var (end, verdicts) := Offer(c, Admit(c, log, evs[0]), evs[1..]);
      (end, [Verdict(c, log, evs[0])] + verdicts)
  }

  // ---------------------------------------------------------------------------------------
  // The invariant

  predicate InContext(c: Context, log: seq<Event>) {
    && |log| <= c.maxEvents
    && forall i | 0 <= i < |log| ::
         log[i].realm == c.realm && log[i].epoch == c.epoch && |log[i].payload| <= MAX_PAYLOAD
  }

  predicate DistinctIds(log: seq<Event>) {
    forall i, j | 0 <= i < j < |log| :: log[i].id != log[j].id
  }

  /** The tip the log had before its event at `i` arrived. */
  function TipBefore(log: seq<Event>, i: nat): Option<Digest>
    requires i < |log|
  {
    if i == 0 then None else Some(log[i - 1].id)
  }

  predicate Chained(log: seq<Event>) {
    forall i {:trigger TipBefore(log, i)} | 0 <= i < |log| :: log[i].parent == TipBefore(log, i)
  }

  predicate Monotonic(log: seq<Event>) {
    forall i, j | 0 <= i < j < |log| && log[i].actor == log[j].actor :: log[i].sequence < log[j].sequence
  }

  predicate WellFormed(c: Context, log: seq<Event>) {
    InContext(c, log) && DistinctIds(log) && Chained(log) && Monotonic(log)
  }

  /** The event at `m` is the actor's latest. */
  predicate IsLatest(log: seq<Event>, actor: nat, m: nat) {
    m < |log| && log[m].actor == actor && forall j | m < j < |log| :: log[j].actor != actor
  }

  /** The cached answer is the sequence of the actor's latest event. */
  lemma {:induction false} LastSequenceMeaning(log: seq<Event>, actor: nat)
    ensures match LastSequence(log, actor)
            case None => forall i | 0 <= i < |log| :: log[i].actor != actor
            case Some(last) => exists m | 0 <= m < |log| :: IsLatest(log, actor, m) && log[m].sequence == last
  {
    if log != [] {
      var n := |log| - 1;
      if log[n].actor == actor {
        assert IsLatest(log, actor, n);
      } else {
        var before := log[..n];
        LastSequenceMeaning(before, actor);
        if m :| 0 <= m < n && IsLatest(before, actor, m) && Some(before[m].sequence) == LastSequence(before, actor) {
          forall j | m < j < |log| ensures log[j].actor != actor {
            assert j < n ==> before[j].actor != actor;
          }
          assert IsLatest(log, actor, m) && before[m] == log[m];
        } else {
          assert forall i | 0 <= i < n :: log[i] == before[i];
        }
      }
    }
  }

  /** Within a monotonic log the actor's latest sequence is its greatest, so an event passes the
      sequence check exactly when it extends the actor's sequences. */
  lemma FreshSequenceKeepsOrder(log: seq<Event>, ev: Event)
    requires Monotonic(log)
    ensures (LastSequence(log, ev.actor) == None || ev.sequence > LastSequence(log, ev.actor).value)
            <==> Monotonic(log + [ev])
  {
    LastSequenceMeaning(log, ev.actor);
    var longer := log + [ev];
    if LastSequence(log, ev.actor).Some? {
      var last := LastSequence(log, ev.actor).value;
      var m :| 0 <= m < |log| && IsLatest(log, ev.actor, m) && log[m].sequence == last;
      assert longer[m] == log[m] && longer[|log|] == ev;
      forall i | 0 <= i < |log| && log[i].actor == ev.actor ensures log[i].sequence <= last {
        assert i <= m;
      }
    }
  }

  lemma ContextGrows(c: Context, log: seq<Event>, ev: Event)
    requires InContext(c, log)
    ensures InContext(c, log + [ev]) <==>
            |log| < c.maxEvents && ev.realm == c.realm && ev.epoch == c.epoch && |ev.payload| <= MAX_PAYLOAD
  {
    assert (log + [ev])[|log|] == ev;
  }

  lemma IdsGrow(log: seq<Event>, ev: Event)
    requires DistinctIds(log)
    ensures DistinctIds(log + [ev]) <==> !Retains(log, ev.id)
  {
    var longer := log + [ev];
    assert longer[|log|] == ev;
    if Retains(log, ev.id) {
      var i :| 0 <= i < |log| && log[i].id == ev.id;
      assert longer[i].id == longer[|log|].id;
    }
  }

  lemma ChainGrows(log: seq<Event>, ev: Event)
    requires Chained(log)
    ensures Chained(log + [ev]) <==> ev.parent == Tip(log)
  {
    var longer := log + [ev];
    assert TipBefore(longer, |log|) == Tip(log);
    assert forall i | 0 <= i < |log| :: TipBefore(longer, i) == TipBefore(log, i);
  }

  /** Admission grows exactly the well-formed logs: an event is accepted if and only if the log
      with the event appended is well formed. */
  lemma AcceptedExactlyWhenWellFormed(c: Context, log: seq<Event>, ev: Event)
    requires WellFormed(c, log)
    ensures Verdict(c, log, ev) == None <==> WellFormed(c, log + [ev])
  {
    FreshSequenceKeepsOrder(log, ev);
    ContextGrows(c, log, ev);
    IdsGrow(log, ev);
    ChainGrows(log, ev);
  }

  lemma {:induction false} OffersKeepWellFormed(c: Context, log: seq<Event>, evs: seq<Event>)
    requires WellFormed(c, log)
    ensures WellFormed(c, Offer(c, log, evs).0) && log <= Offer(c, log, evs).0
    ensures |Offer(c, log, evs).1| == |evs|
    decreases |evs|
  {
    if evs != [] {
      AcceptedExactlyWhenWellFormed(c, log, evs[0]);
      OffersKeepWellFormed(c, Admit(c, log, evs[0]), evs[1..]);
    }
  }

  // ---------------------------------------------------------------------------------------
  // Replay

  predicate AllAccepted(verdicts: seq<Option<Error>>) {
    forall v | v in verdicts :: v == None
  }

  lemma {:induction false} ReplayFrom(c: Context, log: seq<Event>, rest: seq<Event>)
    requires WellFormed(c, log + rest)
    ensures Offer(c, log, rest).0 == log + rest && AllAccepted(Offer(c, log, rest).1)
    decreases |rest|
  {
    if rest == [] {
      assert log + rest == log;
    } else {
      var longer := log + [rest[0]];
      assert longer + rest[1..] == log + rest;
      PrefixWellFormed(c, log, rest);
      PrefixWellFormed(c, longer, rest[1..]);
      AcceptedExactlyWhenWellFormed(c, log, rest[0]);
      ReplayFrom(c, longer, rest[1..]);
    }
  }

  lemma PrefixWellFormed(c: Context, log: seq<Event>, rest: seq<Event>)
    requires WellFormed(c, log + rest)
    ensures WellFormed(c, log)
  {
    var whole := log + rest;
    assert forall i | 0 <= i < |log| :: log[i] == whole[i] && TipBefore(log, i) == TipBefore(whole, i);
  }

  /** Re-appending a retained log, in order, to a fresh ledger of the same context and at least
      the same capacity accepts every event and rebuilds the log. */
  lemma ReplayRebuilds(c: Context, c': Context, log: seq<Event>)
    requires WellFormed(c, log)
    requires c'.realm == c.realm && c'.epoch == c.epoch && c'.maxEvents >= c.maxEvents
    ensures Offer(c', [], log).0 == log && AllAccepted(Offer(c', [], log).1)
  {
    assert [] + log == log;
    ReplayFrom(c', [], log);
  }

  /** The well-formed logs are exactly the logs some offered events can build from nothing. */
  lemma WellFormedExactlyReachable(c: Context, log: seq<Event>)
    ensures WellFormed(c, log) <==> exists evs :: Offer(c, [], evs).0 == log
  {
    if WellFormed(c, log) {
      ReplayRebuilds(c, c, log);
    } else if evs :| Offer(c, [], evs).0 == log {
      OffersKeepWellFormed(c, [], evs);
    }
  }

  lemma RetainedEventIsDuplicate(c: Context, log: seq<Event>, ev: Event)
    requires WellFormed(c, log) && ev in log
    ensures Verdict(c, log, ev) == Some(DuplicateEvent) && Admit(c, log, ev) == log
  {
    var i :| 0 <= i < |log| && log[i] == ev;
    assert log[i].id == ev.id;
  }

  // ---------------------------------------------------------------------------------------
  // Two ledgers

  /** Ids are collision free across the two logs. */
  predicate IdsAgree(a: seq<Event>, b: seq<Event>) {
    forall i, j | 0 <= i < |a| && 0 <= j < |b| :: a[i].id == b[j].id ==> a[i] == b[j]
  }

  /** One shared event means one shared history. */
  lemma {:induction false} SharedEventSharesHistory(a: seq<Event>, b: seq<Event>, i: nat, j: nat)
    requires Chained(a) && Chained(b) && IdsAgree(a, b)
    requires i < |a| && j < |b| && a[i].id == b[j].id
    ensures i == j && a[..i + 1] == b[..j + 1]
  {
    assert a[i] == b[j];
    assert TipBefore(a, i) == TipBefore(b, j);
    if i > 0 && j > 0 {
      SharedEventSharesHistory(a, b, i - 1, j - 1);
      assert a[..i + 1] == a[..i] + [a[i]];
      assert b[..j + 1] == b[..j] + [b[j]];
    }
  }

  /** If one ledger retains the other's tip, the other's log is a prefix of its own. */
  lemma RetainedTipMeansPrefix(a: seq<Event>, b: seq<Event>)
    requires Chained(a) && Chained(b) && IdsAgree(a, b)
    requires a != [] && Retains(b, a[|a| - 1].id)
    ensures a <= b
  {
    var j :| 0 <= j < |b| && b[j].id == a[|a| - 1].id;
    SharedEventSharesHistory(a, b, |a| - 1, j);
  }

  lemma EqualTipsMeanEqualLogs(a: seq<Event>, b: seq<Event>)
    requires Chained(a) && Chained(b) && IdsAgree(a, b) && Tip(a) == Tip(b)
    ensures a == b
  {
    if a != [] {
      SharedEventSharesHistory(a, b, |a| - 1, |b| - 1);
    }
  }

  /** A fork is permanent: two logs share a common beginning and no event after it. */
  lemma {:induction false} ForkIsPermanent(a: seq<Event>, b: seq<Event>) returns (k: nat)
    requires Chained(a) && Chained(b) && IdsAgree(a, b)
    ensures k <= |a| && k <= |b| && a[..k] == b[..k]
    ensures forall i, j | k <= i < |a| && k <= j < |b| :: a[i].id != b[j].id
  {
    k := 0;
    while k < |a| && k < |b| && a[k] == b[k]
      invariant k <= |a| && k <= |b| && a[..k] == b[..k]
    {
      k := k + 1;
    }
    forall i, j | k <= i < |a| && k <= j < |b| ensures a[i].id != b[j].id {
      if a[i].id == b[j].id {
        SharedEventSharesHistory(a, b, i, j);
        assert false;
      }
    }
  }

  // ---------------------------------------------------------------------------------------
  // Which error is named

  /** What an offered event does wrong, each said of the log as a whole. */
  predicate Violates(c: Context, log: seq<Event>, ev: Event, e: Error) {
    match e
    case PayloadTooLarge => |ev.payload| > MAX_PAYLOAD
    case WrongContext => ev.realm != c.realm || ev.epoch != c.epoch
    case InvalidEventId => false
    case DuplicateEvent => exists i | 0 <= i < |log| :: log[i].id == ev.id
    case NonMonotonicSequence => exists i | 0 <= i < |log| :: log[i].actor == ev.actor && log[i].sequence >= ev.sequence
    case UnknownOrForkedParent => ev.parent != if log == [] then None else Some(log[|log| - 1].id)
    case Capacity => |log| == c.maxEvents
  }

  /** The order in which wrongs are named. */
  const Order: seq<Error> :=
    [PayloadTooLarge, WrongContext, DuplicateEvent, NonMonotonicSequence, UnknownOrForkedParent, Capacity]

  lemma SequenceCheckScans(log: seq<Event>, ev: Event)
    requires Monotonic(log)
    ensures (LastSequence(log, ev.actor).Some? && ev.sequence <= LastSequence(log, ev.actor).value)
            <==> exists i | 0 <= i < |log| :: log[i].actor == ev.actor && log[i].sequence >= ev.sequence
  {
    LastSequenceMeaning(log, ev.actor);
    var last := LastSequence(log, ev.actor);
    if last.Some? {
      var m :| 0 <= m < |log| && IsLatest(log, ev.actor, m) && log[m].sequence == last.value;
      forall i | 0 <= i < |log| && log[i].actor == ev.actor ensures log[i].sequence <= last.value {
        assert i <= m;
      }
    }
  }

  /** An event is refused with the first of its wrongs, in this order, and accepted if it has none. */
  lemma FirstWrongIsNamed(c: Context, log: seq<Event>, ev: Event)
    requires WellFormed(c, log)
    ensures match Verdict(c, log, ev)
            case None => forall k | 0 <= k < |Order| :: !Violates(c, log, ev, Order[k])
            case Some(e) =>
              exists k | 0 <= k < |Order| ::
                Order[k] == e && Violates(c, log, ev, e) && forall j | 0 <= j < k :: !Violates(c, log, ev, Order[j])
  {
    SequenceCheckScans(log, ev);
    var verdict := Verdict(c, log, ev);
    if verdict.Some? {
      var k := match verdict.value
               case PayloadTooLarge => 0
               case WrongContext => 1
               case DuplicateEvent => 2
               case NonMonotonicSequence => 3
               case UnknownOrForkedParent => 4
               case _ => 5;
      assert Order[k] == verdict.value && Violates(c, log, ev, Order[k]);
    }
  }

  // ---------------------------------------------------------------------------------------
  // The scanning ledger

  class Ledger {
    const c: Context
    var events: seq<Event>
    var head: Option<Digest>

    predicate Valid()
      reads this
    {
      WellFormed(c, events) && head == Tip(events)
    }

    constructor (realm: nat, epoch: nat, maxEvents: nat)
      ensures Valid() && events == [] && c == Context(realm, epoch, maxEvents)
    {
      c := Context(realm, epoch, maxEvents);
      events := [];
      head := None;
    }

    method HasId(id: Digest) returns (r: bool)
      ensures r <==> Retains(events, id)
    {
      var i := 0;
      while i < |events|
        invariant i <= |events|
        invariant forall k | 0 <= k < i :: events[k].id != id
      {
        if events[i].id == id {
          return true;
        }
        i := i + 1;
      }
      return false;
    }

    method LastSeq(actor: nat) returns (r: Option<nat>)
      ensures r == LastSequence(events, actor)
    {
      var i := |events|;
      assert events[..i] == events;
      while i > 0
        invariant i <= |events|
        invariant LastSequence(events, actor) == LastSequence(events[..i], actor)
      {
        i := i - 1;
        assert events[..i + 1][..i] == events[..i];
        if events[i].actor == actor {
          return Some(events[i].sequence);
        }
      }
      return None;
    }

    method Commit(ev: Event)
      requires Valid() && Verdict(c, events, ev) == None
      modifies this
      ensures Valid() && events == old(events) + [ev] && head == Some(ev.id)
    {
      AcceptedExactlyWhenWellFormed(c, events, ev);
      events := events + [ev];
      head := Some(ev.id);
    }

    /** Fails closed: the first failing check in order, and no change. */
    method Append(ev: Event) returns (refused: Option<Error>)
      requires Valid()
      modifies this
      ensures Valid()
      ensures refused == Verdict(c, old(events), ev)
      ensures events == if refused == None then old(events) + [ev] else old(events)
      ensures head == if refused == None then Some(ev.id) else old(head)
    {
      if |ev.payload| > MAX_PAYLOAD {
        return Some(PayloadTooLarge);
      }
      if ev.realm != c.realm || ev.epoch != c.epoch {
        return Some(WrongContext);
      }
      var duplicate := HasId(ev.id);
      if duplicate {
        return Some(DuplicateEvent);
      }
      var last := LastSeq(ev.actor);
      if last.Some? && ev.sequence <= last.value {
        return Some(NonMonotonicSequence);
      }
      if ev.parent != head {
        return Some(UnknownOrForkedParent);
      }
      if |events| >= c.maxEvents {
        return Some(Capacity);
      }
      Commit(ev);
      return None;
    }
  }

  // ---------------------------------------------------------------------------------------
  // The caching ledger

  /** The id map answers what scanning the log answers. */
  ghost predicate MapAgrees(log: seq<Event>, retained: map<Digest, Event>) {
    && (forall id :: id in retained <==> Retains(log, id))
    && (forall i | 0 <= i < |log| :: log[i].id in retained && retained[log[i].id] == log[i])
    && |retained| == |log|
  }

  /** The per-actor sequence map answers what scanning the log backwards answers. */
  ghost predicate SequencesAgree(log: seq<Event>, lastSequences: map<nat, nat>) {
    forall actor :: LastSequence(log, actor)
                    == if actor in lastSequences then Some(lastSequences[actor]) else None
  }

  ghost predicate CachesAgree(log: seq<Event>, retained: map<Digest, Event>, lastSequences: map<nat, nat>) {
    MapAgrees(log, retained) && SequencesAgree(log, lastSequences)
  }

  lemma MapFollowsAppend(log: seq<Event>, retained: map<Digest, Event>, ev: Event)
    requires MapAgrees(log, retained) && !Retains(log, ev.id)
    ensures MapAgrees(log + [ev], retained[ev.id := ev])
  {
    var longer := log + [ev];
    assert longer[|log|] == ev;
    assert forall i | 0 <= i < |log| :: longer[i] == log[i];
    assert ev.id !in retained;
    forall id ensures id in retained[ev.id := ev] <==> Retains(longer, id) {
      if Retains(log, id) {
        var i :| 0 <= i < |log| && log[i].id == id;
        assert longer[i].id == id;
      }
    }
  }

  lemma SequencesFollowAppend(log: seq<Event>, lastSequences: map<nat, nat>, ev: Event)
    requires SequencesAgree(log, lastSequences)
    ensures SequencesAgree(log + [ev], lastSequences[ev.actor := ev.sequence])
  {
    var longer := log + [ev];
    assert longer[|log|] == ev && longer[..|log|] == log;
  }

  ghost predicate Consistent(c: Context, hash: Event -> Digest, log: seq<Event>, head: Option<Digest>,
                             retained: map<Digest, Event>, lastSequences: map<nat, nat>)
  {
    && WellFormed(c, log)
    && head == Tip(log)
    && CachesAgree(log, retained, lastSequences)
    && Addressed(hash, log)
  }

  lemma CachesFollowAppend(c: Context, hash: Event -> Digest, log: seq<Event>, head: Option<Digest>,
                           retained: map<Digest, Event>, lastSequences: map<nat, nat>, ev: Event)
    requires Consistent(c, hash, log, head, retained, lastSequences)
    requires CheckedVerdict(c, hash, log, ev) == None
    ensures Consistent(c, hash, log + [ev], Some(ev.id), retained[ev.id := ev],
                       lastSequences[ev.actor := ev.sequence])
  {
    AcceptedExactlyWhenWellFormed(c, log, ev);
    MapFollowsAppend(log, retained, ev);
    SequencesFollowAppend(log, lastSequences, ev);
    assert (log + [ev])[|log|] == ev;
  }

  class CachedLedger {
    const c: Context
    /** The content address of an event's transcript, which leaves the id out. */
    const hash: Event -> Digest
    var retained: map<Digest, Event>
    var head: Option<Digest>
    var lastSequences: map<nat, nat>
    ghost var log: seq<Event>

    ghost predicate Valid()
      reads this
    {
      Consistent(c, hash, log, head, retained, lastSequences)
    }

    constructor (realm: nat, epoch: nat, maxEvents: nat, hash: Event -> Digest)
      ensures Valid() && log == [] && this.hash == hash
      ensures c == Context(realm, epoch, if maxEvents < MAX_EVENTS then maxEvents else MAX_EVENTS)
    {
      c := Context(realm, epoch, if maxEvents < MAX_EVENTS then maxEvents else MAX_EVENTS);
      this.hash := hash;
      retained := map[];
      head := None;
      lastSequences := map[];
      log := [];
    }

    method Commit(ev: Event)
      requires Valid() && CheckedVerdict(c, hash, log, ev) == None
      modifies this
      ensures Valid() && log == old(log) + [ev]
    {
      CachesFollowAppend(c, hash, log, head, retained, lastSequences, ev);
      lastSequences := lastSequences[ev.actor := ev.sequence];
      head := Some(ev.id);
      retained := retained[ev.id := ev];
      log := log + [ev];
    }

    method Append(ev: Event) returns (refused: Option<Error>)
      requires Valid()
      modifies this
      ensures Valid()
      ensures refused == CheckedVerdict(c, hash, old(log), ev)
      ensures log == if refused == None then old(log) + [ev] else old(log)
    {
      if |ev.payload| > MAX_PAYLOAD {
        return Some(PayloadTooLarge);
      }
      if ev.realm != c.realm || ev.epoch != c.epoch {
        return Some(WrongContext);
      }
      if ev.id != hash(Transcript(ev)) {
        return Some(InvalidEventId);
      }
      if ev.id in retained {
        return Some(DuplicateEvent);
      }
      if ev.actor in lastSequences && ev.sequence <= lastSequences[ev.actor] {
        return Some(NonMonotonicSequence);
      }
      if ev.parent != head {
        return Some(UnknownOrForkedParent);
      }
      if |retained| >= c.maxEvents {
        return Some(Capacity);
      }
      Commit(ev);
      return None;
    }
  }

  function Transcript(ev: Event): Event {
    ev.(id := 0)
  }

  predicate Addressed(hash: Event -> Digest, log: seq<Event>) {
    forall i | 0 <= i < |log| :: log[i].id == hash(Transcript(log[i]))
  }

  /** The shipping order of checks: the content address is checked between context and duplicate. */
  function CheckedVerdict(c: Context, hash: Event -> Digest, log: seq<Event>, ev: Event): Option<Error> {
    match Verdict(c, log, ev)
    case Some(PayloadTooLarge) => Some(PayloadTooLarge)
    case Some(WrongContext) => Some(WrongContext)
    case later => if ev.id != hash(Transcript(ev)) then Some(InvalidEventId) else later
  }

  function CheckedOffer(c: Context, hash: Event -> Digest, log: seq<Event>, evs: seq<Event>)
    : (seq<Event>, seq<Option<Error>>)
    decreases |evs|
  {
    if evs == [] then (log, [])
    else
      var verdict := CheckedVerdict(c, hash, log, evs[0]);
      var (end, verdicts) := CheckedOffer(c, hash, if verdict == None then log + [evs[0]] else log, evs[1..]);
      (end, [verdict] + verdicts)
  }

  /** On correctly addressed events the caching ledger gives the scanning ledger's verdicts, in
      the same order of checks, and the same log, over every offered sequence. */
  lemma {:induction false} CachingRefinesScanning(c: Context, hash: Event -> Digest, log: seq<Event>,
                                                  evs: seq<Event>)
    requires Addressed(hash, evs)
    ensures CheckedOffer(c, hash, log, evs) == Offer(c, log, evs)
    decreases |evs|
  {
    if evs != [] {
      assert evs[0].id == hash(Transcript(evs[0]));
      CachingRefinesScanning(c, hash, Admit(c, log, evs[0]), evs[1..]);
    }
  }

  lemma {:induction false} OfferOneMore(c: Context, log: seq<Event>, evs: seq<Event>, ev: Event)
    ensures var (end, verdicts) := Offer(c, log, evs);
            Offer(c, log, evs + [ev]) == (Admit(c, end, ev), verdicts + [Verdict(c, end, ev)])
    decreases |evs|
  {
    if evs != [] {
      assert (evs + [ev])[1..] == evs[1..] + [ev];
      OfferOneMore(c, Admit(c, log, evs[0]), evs[1..], ev);
      var (end, verdicts) := Offer(c, Admit(c, log, evs[0]), evs[1..]);
      assert [Verdict(c, log, evs[0])] + (verdicts + [Verdict(c, end, ev)])
          == ([Verdict(c, log, evs[0])] + verdicts) + [Verdict(c, end, ev)];
    } else {
      assert evs + [ev] == [ev] && [ev][1..] == [];
      assert [Verdict(c, log, ev)] + [] == [] + [Verdict(c, log, ev)];
    }
  }

  function CheckedAdmit(c: Context, hash: Event -> Digest, log: seq<Event>, ev: Event): seq<Event> {
    if CheckedVerdict(c, hash, log, ev) == None then log + [ev] else log
  }

  lemma {:induction false} CheckedOfferOneMore(c: Context, hash: Event -> Digest, log: seq<Event>, evs: seq<Event>,
                                               ev: Event)
    ensures var (end, verdicts) := CheckedOffer(c, hash, log, evs);
            CheckedOffer(c, hash, log, evs + [ev])
            == (CheckedAdmit(c, hash, end, ev), verdicts + [CheckedVerdict(c, hash, end, ev)])
    decreases |evs|
  {
    if evs != [] {
      assert (evs + [ev])[1..] == evs[1..] + [ev];
      CheckedOfferOneMore(c, hash, CheckedAdmit(c, hash, log, evs[0]), evs[1..], ev);
      var (end, verdicts) := CheckedOffer(c, hash, CheckedAdmit(c, hash, log, evs[0]), evs[1..]);
      assert [CheckedVerdict(c, hash, log, evs[0])] + (verdicts + [CheckedVerdict(c, hash, end, ev)])
          == ([CheckedVerdict(c, hash, log, evs[0])] + verdicts) + [CheckedVerdict(c, hash, end, ev)];
    } else {
      assert evs + [ev] == [ev] && [ev][1..] == [];
      assert [CheckedVerdict(c, hash, log, ev)] + [] == [] + [CheckedVerdict(c, hash, log, ev)];
    }
  }

  method OfferToScanning(l: Ledger, evs: seq<Event>) returns (verdicts: seq<Option<Error>>)
    requires l.Valid()
    modifies l
    ensures l.Valid() && (l.events, verdicts) == Offer(l.c, old(l.events), evs)
  {
    verdicts := [];
    for i := 0 to |evs|
      invariant l.Valid() && (l.events, verdicts) == Offer(l.c, old(l.events), evs[..i])
    {
      OfferOneMore(l.c, old(l.events), evs[..i], evs[i]);
      assert evs[..i] + [evs[i]] == evs[..i + 1];
      var refused := l.Append(evs[i]);
      verdicts := verdicts + [refused];
    }
    assert evs[..|evs|] == evs;
  }

  method OfferToCaching(l: CachedLedger, evs: seq<Event>) returns (verdicts: seq<Option<Error>>)
    requires l.Valid()
    modifies l
    ensures l.Valid() && (l.log, verdicts) == CheckedOffer(l.c, l.hash, old(l.log), evs)
  {
    verdicts := [];
    for i := 0 to |evs|
      invariant l.Valid() && (l.log, verdicts) == CheckedOffer(l.c, l.hash, old(l.log), evs[..i])
    {
      CheckedOfferOneMore(l.c, l.hash, old(l.log), evs[..i], evs[i]);
      assert evs[..i] + [evs[i]] == evs[..i + 1];
      var refused := l.Append(evs[i]);
      verdicts := verdicts + [refused];
    }
    assert evs[..|evs|] == evs;
  }

  /** Offered the same correctly addressed events, a scanning and a caching ledger in agreement give
      the same verdicts and stay in agreement. */
  method OfferToBoth(scanning: Ledger, caching: CachedLedger, evs: seq<Event>)
    returns (verdicts: seq<Option<Error>>, verdicts': seq<Option<Error>>)
    requires scanning.Valid() && caching.Valid() && Addressed(caching.hash, evs)
    requires scanning.c == caching.c && scanning.events == caching.log
    modifies scanning, caching
    ensures scanning.Valid() && caching.Valid()
    ensures verdicts == verdicts' && scanning.events == caching.log && scanning.head == caching.head
  {
    CachingRefinesScanning(caching.c, caching.hash, caching.log, evs);
    verdicts := OfferToScanning(scanning, evs);
    verdicts' := OfferToCaching(caching, evs);
  }

  /** The shipping ledger names a wrong address behind a wrong size or context and before everything
      else, and otherwise names what the scanning ledger does. */
  lemma AddressIsCheckedThird(c: Context, hash: Event -> Digest, log: seq<Event>, ev: Event)
    ensures CheckedVerdict(c, hash, log, ev) == Some(InvalidEventId) <==>
            ev.id != hash(ev.(id := 0)) && !Violates(c, log, ev, PayloadTooLarge) && !Violates(c, log, ev, WrongContext)
    ensures CheckedVerdict(c, hash, log, ev) != Some(InvalidEventId) ==>
              CheckedVerdict(c, hash, log, ev) == Verdict(c, log, ev)
  {
  }

  /** Under a collision-free content address, two shipping ledgers' ids agree, so a retained tip
      means a prefix and a fork is permanent. */
  lemma AddressedLogsAgree(hash: Event -> Digest, a: seq<Event>, b: seq<Event>)
    requires Addressed(hash, a) && Addressed(hash, b)
    requires forall e, f | e in a && f in b ::
               (hash(Transcript(e)) == hash(Transcript(f)) ==> Transcript(e) == Transcript(f))
    ensures IdsAgree(a, b)
  {
    forall i, j | 0 <= i < |a| && 0 <= j < |b| && a[i].id == b[j].id ensures a[i] == b[j] {
      assert a[i] in a && b[j] in b;
      assert a[i] == Transcript(a[i]).(id := a[i].id);
      assert b[j] == Transcript(b[j]).(id := b[j].id);
    }
  }
}
