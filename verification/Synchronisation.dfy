/** Persist-then-commit synchronisation with selected peers under a read budget.

A peer may stay silent, may serve one certified chain, or may answer anything at all. Everything a
peer sends is verified before it is persisted, and persisted before it is committed.
*/
module Synchronisation {
  import opened Wrappers
  import opened CertifiedHistory
  import opened CertifiedReplay
  import opened PeerRotation

  const READS_PER_ACTION: nat := 8

  // ---------------------------------------------------------------------------------------
  // Peers and what they answer

  /** `https` says which of the peer's endpoints can be read; `readable` whether the saved
      invitation still decodes and verifies. */
  datatype Peer = Peer(https: seq<bool>, readable: bool)

  datatype Renewal = NoUsableAnswer | ClockFault | SelectionConflict | Renewed

  datatype BundlePage = BundlePage(bundles: seq<Bytes>, observed: Frontier)

  /** A page of bundles as one peer sent it. */
  datatype Answer = Answer(peer: nat, page: BundlePage)

  /** A certified chain from a genesis, of which every page shows at least `perPage` further records
      or all there are. */
  datatype Service = Service(genesis: Head, chain: seq<Record>, perPage: nat) {
    function End(): Frontier {
      HeadAt(genesis, chain, |chain|).frontier
    }

    /** The frontier is one of the chain's. */
    predicate Knows(at: Frontier) {
      at.height <= |chain| && at == HeadAt(genesis, chain, at.height).frontier
    }

    predicate Honest(v: Verifier) {
      genesis.frontier.height == 0 && Certified(v, genesis, chain) && perPage > 0
    }

    /** The page shows the records behind height `h`, and the chain's end. */
    predicate Serves(h: nat, page: BundlePage)
      requires h <= |chain|
    {
      var n := |page.bundles|;
      && h + n <= |chain|
      && (n >= perPage || h + n == |chain|)
      && page.bundles == Payloads(chain[h..h + n])
      && page.observed == End()
    }
  }

  datatype Behaviour = Silent | Serving(service: Service) | Unknown

  class Network {
    const behaviour: nat -> Behaviour
    ghost var contacted: seq<nat>
    ghost var latest: Renewal
    ghost var answers: seq<Answer>
    ghost var readCount: nat

    constructor (behaviour: nat -> Behaviour)
      ensures this.behaviour == behaviour && contacted == [] && answers == [] && readCount == 0
    {
      this.behaviour := behaviour;
      contacted, latest, answers, readCount := [], NoUsableAnswer, [], 0;
    }

    /** Ask a peer for a fresh advertisement and save the renewed selection. */
    method Renew(peer: nat) returns (renewal: Renewal)
      modifies this
      ensures contacted == old(contacted) + [peer] && readCount == old(readCount) + 1
      ensures latest == renewal && answers == old(answers)
      ensures behaviour(peer).Silent? ==> renewal == NoUsableAnswer
      ensures behaviour(peer).Serving? ==> renewal == Renewed
    {
      renewal := *;
      match behaviour(peer) {
        case Silent => renewal := NoUsableAnswer;
        case Serving(_) => renewal := Renewed;
        case Unknown =>
      }
      contacted, latest, readCount := contacted + [peer], renewal, readCount + 1;
    }

    method ReadBundles(peer: nat, after: Frontier) returns (page: Option<BundlePage>)
      modifies this
      ensures contacted == old(contacted) && latest == old(latest) && readCount == old(readCount) + 1
      ensures answers == old(answers) + if page.Some? then [Answer(peer, page.value)] else []
      ensures behaviour(peer).Serving? && behaviour(peer).service.Knows(after) ==>
                page.Some? && behaviour(peer).service.Serves(after.height, page.value)
    {
      page := *;
      if behaviour(peer).Serving? && behaviour(peer).service.Knows(after) {
        var s := behaviour(peer).service;
        if !(page.Some? && s.Serves(after.height, page.value)) {
          page := Some(BundlePage(Payloads(s.chain[after.height..]), s.End()));
          assert s.chain[after.height..|s.chain|] == s.chain[after.height..];
        }
      }
      readCount := readCount + 1;
      answers := answers + if page.Some? then [Answer(peer, page.value)] else [];
    }
  }

  class App {
    var peers: seq<Peer>
    var nextPeer: nat
    var failed: bool

    constructor (peers: seq<Peer>)
      ensures this.peers == peers && nextPeer == 0 && !failed
    {
      this.peers := peers;
      nextPeer, failed := 0, false;
    }

    predicate Valid()
      reads this
    {
      peers != [] ==> nextPeer < |peers|
    }
  }

  datatype SyncError =
    | NoPeers | BudgetExhausted | PeerCorrupt | ClockUnavailable | SelectionChanged
    | RecordBounds | PublicationFailed | StaleAfterPersist | NoCompleteView
  {
    /** Errors after which the page must be reloaded to learn what storage holds. */
    predicate RequiresReload() {
      SelectionChanged? || PublicationFailed? || StaleAfterPersist?
    }
  }

  datatype Outcome = Complete | OtherPeer | OtherEndpoint | Abort(error: SyncError)

  predicate Published(session: Session, app: App, error: Option<SyncError>)
    reads session, session.history, app
  {
    && session.history.Valid() && session.InStep() && session.head == session.target
    && (app.failed <==> error.Some? && error.value.RequiresReload())
  }

  /** Durable history grew, and the session moved along certified records only. */
  predicate Progressed(session: Session, chain: seq<Record>, from: Head, path: seq<Record>)
    reads session, session.history
  {
    chain <= session.history.chain && Reaches(session.history.v, from, path, session.head)
  }

  // ---------------------------------------------------------------------------------------
  // What peers sent and what was kept of it

  function Payloads(path: seq<Record>): (out: seq<Bytes>)
    ensures |out| == |path|
  {
    seq(|path|, i requires 0 <= i < |path| => path[i].bytes)
  }

  /** All the bundles in these answers, in order. */
  function Sent(answers: seq<Answer>): seq<Bytes> {
    if answers == [] then []
    else Sent(answers[..|answers| - 1]) + answers[|answers| - 1].page.bundles
  }

  lemma SentGrows(answers: seq<Answer>, a: Answer)
    ensures Sent(answers + [a]) == Sent(answers) + a.page.bundles
  {
    assert (answers + [a])[..|answers|] == answers;
  }

  lemma {:induction false} SentJoins(first: seq<Answer>, later: seq<Answer>)
    ensures Sent(first + later) == Sent(first) + Sent(later)
    decreases |later|
  {
    if later == [] {
      assert first + later == first;
    } else {
      var n := |later| - 1;
      assert first + later == (first + later[..n]) + [later[n]];
      SentGrows(first + later[..n], later[n]);
      SentJoins(first, later[..n]);
      assert Sent(first) + (Sent(later[..n]) + later[n].page.bundles)
          == (Sent(first) + Sent(later[..n])) + later[n].page.bundles;
    }
  }

  predicate WasSent(path: seq<Record>, k: nat, answers: seq<Answer>)
    requires k < |path|
  {
    path[k].bytes in Sent(answers)
  }

  /** Every record of the path carries a bundle from one of the answers. */
  predicate Sourced(path: seq<Record>, answers: seq<Answer>) {
    forall k {:trigger WasSent(path, k, answers)} | 0 <= k < |path| :: WasSent(path, k, answers)
  }

  lemma SourcedJoins(path: seq<Record>, more: seq<Record>, first: seq<Answer>, later: seq<Answer>)
    requires Sourced(path, first) && Sourced(more, later)
    ensures Sourced(path + more, first + later)
  {
    SentJoins(first, later);
    forall k | 0 <= k < |path + more| ensures WasSent(path + more, k, first + later) {
      assert if k < |path| then WasSent(path, k, first) else WasSent(more, k - |path|, later);
    }
  }

  /** What the path carries is a beginning of what was sent, or all of it. */
  predicate Kept(path: seq<Record>, answers: seq<Answer>) {
    Payloads(path) <= Sent(answers)
  }

  predicate AllKept(path: seq<Record>, answers: seq<Answer>) {
    Payloads(path) == Sent(answers)
  }

  lemma KeptIsSourced(path: seq<Record>, answers: seq<Answer>)
    requires Kept(path, answers)
    ensures Sourced(path, answers)
  {
    forall k | 0 <= k < |path| ensures WasSent(path, k, answers) {
      assert Payloads(path)[k] == Sent(answers)[k];
    }
  }

  /** The first bundle that was sent and not kept, if there is one. */
  function FirstRefused(path: seq<Record>, answers: seq<Answer>): Option<Bytes> {
    if |path| < |Sent(answers)| then Some(Sent(answers)[|path|]) else None
  }

  /** The path carries the first bundles, in order. */
  predicate Taken(path: seq<Record>, bundles: seq<Bytes>) {
    |path| <= |bundles| && Payloads(path) == bundles[..|path|]
  }

  lemma TakeOne(path: seq<Record>, r: Record, bundles: seq<Bytes>)
    requires Taken(path, bundles) && |path| < |bundles| && r.bytes == bundles[|path|]
    ensures Taken(path + [r], bundles)
  {
    assert Payloads(path + [r]) == Payloads(path) + [r.bytes];
    assert bundles[..|path| + 1] == bundles[..|path|] + [bundles[|path|]];
  }

  lemma KeepPage(path: seq<Record>, answers: seq<Answer>, a: Answer, more: seq<Record>)
    requires AllKept(path, answers) && Taken(more, a.page.bundles)
    ensures Kept(path + more, answers + [a])
    ensures |more| == |a.page.bundles| ==> AllKept(path + more, answers + [a])
    ensures |more| < |a.page.bundles| ==> FirstRefused(path + more, answers + [a]) == Some(a.page.bundles[|more|])
  {
    SentGrows(answers, a);
    assert Payloads(path + more) == Payloads(path) + Payloads(more);
    assert |path| == |Sent(answers)|;
    assert a.page.bundles == a.page.bundles[..|more|] + a.page.bundles[|more|..];
    assert Sent(answers + [a]) == Payloads(path + more) + a.page.bundles[|more|..];
  }

  // ---------------------------------------------------------------------------------------
  // A session and a chain that is served

  /** Where a session and its history stand. */
  datatype Standing = Standing(client: Frontier, head: Head, chain: seq<Record>, bootstrap: Option<Bytes>)

  function Stand(session: Session): Standing
    reads session, session.history
  {
    Standing(session.client, session.head, session.history.chain, session.history.bootstrap)
  }

  /** Nothing stands between the session and the served chain: storage is initialised, the session is
      at its end, and the client is on the chain. */
  predicate Supplied(v: Verifier, at: Standing, s: Service) {
    && at.bootstrap.Some? && at.head == HeadAt(v.Genesis(), at.chain, |at.chain|)
    && s.Honest(v) && s.Knows(at.client)
  }

  /** On calm storage, so many reads show all that the session lacks. */
  predicate InReach(history: History, at: Standing, s: Service, tries: int) {
    history.calm && Supplied(history.v, at, s) && Within(|s.chain| - at.client.height, s.perPage, tries)
  }

  predicate Within(missing: int, perPage: nat, tries: int) {
    tries > 0 && missing <= tries * perPage
  }

  /** What the chain's next record certifies is exactly the chain's next frontier. */
  lemma NextServed(v: Verifier, s: Service, at: Frontier)
    requires s.Honest(v) && s.Knows(at) && at.height < |s.chain|
    ensures var r := s.chain[at.height];
            && 0 < |r.bytes| <= MAX_BUNDLE_BYTES
            && var candidate := v.Prepare(at, r.bytes);
            && candidate.Some? && candidate.value.bytes == r.bytes
            && candidate.value.next.height == at.height + 1
            && s.Knows(candidate.value.next)
  {
    assert Linked(v, s.genesis, s.chain, at.height);
    HeightsCount(v, s.genesis, s.chain, at.height + 1);
  }

  lemma ServedBundle(s: Service, h: nat, page: BundlePage, i: nat)
    requires h <= |s.chain| && s.Serves(h, page) && i < |page.bundles|
    ensures page.bundles[i] == s.chain[h + i].bytes
  {
    assert s.chain[h..h + |page.bundles|][i] == s.chain[h + i];
  }

  lemma EndHeight(v: Verifier, s: Service)
    requires s.Honest(v)
    ensures s.End().height == |s.chain|
  {
    HeightsCount(v, s.genesis, s.chain, |s.chain|);
  }

  lemma OneReadFewer(missing: int, tries: int, perPage: nat, shown: nat)
    requires Within(missing, perPage, tries) && shown >= perPage && missing > shown
    ensures Within(missing - shown, perPage, tries - 1)
  {
    OneLess(tries, perPage);
    if tries - 1 <= 0 {
      NoReads(tries - 1, perPage);
    }
  }

  lemma NoReads(tries: int, perPage: nat)
    requires tries <= 0
    ensures tries * perPage <= 0
  {
  }

  // ---------------------------------------------------------------------------------------
  // Why asking stops

  /** The client stands exactly where the latest answer, from this peer, says that peer is. */
  predicate CaughtUp(client: Frontier, answers: seq<Answer>, peer: nat) {
    && answers != []
    && answers[|answers| - 1].peer == peer
    && answers[|answers| - 1].page.observed == client
  }

  /** The peer sent a bundle that cannot be prepared, or claims another frontier at the client's height. */
  predicate Misbehaved(v: Verifier, client: Frontier, answers: seq<Answer>, path: seq<Record>) {
    answers != [] &&
    match FirstRefused(path, answers)
    case Some(bundle) => v.Prepare(client, bundle) == None
    case None =>
      var observed := answers[|answers| - 1].page.observed;
      observed.height == client.height && observed != client
  }

  /** No read is left, one has gone unanswered, or the last answer brought nothing. */
  predicate RanDry(tries: nat, left: nat, answers: seq<Answer>) {
    || left == 0
    || |answers| + left < tries
    || (answers != [] && answers[|answers| - 1].page.bundles == [])
  }

  /** What a page and the number of its bundles taken make of the endpoint. */
  predicate FollowsFrom(outcome: Option<Outcome>, v: Verifier, client: Frontier, page: BundlePage, taken: nat)
    requires taken <= |page.bundles|
  {
    if taken < |page.bundles| then
      if v.Prepare(client, page.bundles[taken]) == None then outcome == Some(OtherPeer)
      else outcome in {Some(Abort(RecordBounds)), Some(Abort(PublicationFailed))}
    else if client.height == page.observed.height then
      outcome == Some(if client == page.observed then Complete else OtherPeer)
    else outcome == if page.bundles == [] then Some(OtherEndpoint) else None
  }

  /** Why reading from an endpoint stopped. */
  predicate Judged(outcome: Outcome, v: Verifier, client: Frontier, peer: nat, tries: nat, left: nat,
                   answers: seq<Answer>, path: seq<Record>)
  {
    match outcome
    case Complete => CaughtUp(client, answers, peer)
    case OtherPeer => Misbehaved(v, client, answers, path)
    case OtherEndpoint => RanDry(tries, left, answers)
    case Abort(error) => error in {RecordBounds, PublicationFailed} && answers != []
  }

  /** One more answer, judged by itself, judges all the answers so far. */
  lemma JudgeAnswer(outcome: Option<Outcome>, v: Verifier, client: Frontier, tries: nat, left: nat, path: seq<Record>,
                    answers: seq<Answer>, a: Answer, more: seq<Record>)
    requires AllKept(path, answers) && Taken(more, a.page.bundles)
    requires FollowsFrom(outcome, v, client, a.page, |more|)
    ensures Kept(path + more, answers + [a])
    ensures outcome in {None, Some(Complete), Some(OtherEndpoint)} ==> AllKept(path + more, answers + [a])
    ensures outcome.Some? ==> Judged(outcome.value, v, client, a.peer, tries, left, answers + [a], path + more)
  {
    KeepPage(path, answers, a, more);
  }

  /** Why asking an endpoint ended, with this much of the budget before it. */
  predicate EndpointEnded(outcome: Outcome, v: Verifier, client: Frontier, index: nat, budget: nat, latest: Renewal,
                          left: nat, answers: seq<Answer>, path: seq<Record>)
  {
    if budget == 0 then outcome == Abort(BudgetExhausted) && left == 0
    else
      match latest
      case NoUsableAnswer => outcome == OtherEndpoint && left == budget - 1 && answers == []
      case ClockFault => outcome == Abort(ClockUnavailable)
      case SelectionConflict => outcome == Abort(SelectionChanged)
      case Renewed => Judged(outcome, v, client, index, budget - 1, left, answers, path)
  }

  /** The error is one that a turn can end the attempt with, and its cause is there. */
  predicate Excused(error: SyncError, readable: bool, contacted: bool, latest: Renewal, left: nat, answers: seq<Answer>) {
    match error
    case BudgetExhausted => left == 0
    case PeerCorrupt => !readable
    case ClockUnavailable => contacted && latest == ClockFault
    case SelectionChanged => contacted && latest == SelectionConflict
    case RecordBounds => answers != []
    case PublicationFailed => answers != []
    case _ => false
  }

  /** How many of the endpoints can be read. */
  function Usable(https: seq<bool>): nat {
    if https == [] then 0 else Usable(https[..|https| - 1]) + if https[|https| - 1] then 1 else 0
  }

  lemma UsableStep(https: seq<bool>, e: nat)
    requires e < |https|
    ensures Usable(https[..e + 1]) == Usable(https[..e]) + if https[e] then 1 else 0
  {
    assert https[..e + 1][..e] == https[..e];
  }

  /** The endpoint asked last misbehaved, whatever others brought before. */
  ghost predicate LastMisbehaved(v: Verifier, client: Frontier, answers: seq<Answer>, path: seq<Record>) {
    exists m, k | 0 <= m <= |answers| && 0 <= k <= |path| :: Misbehaved(v, client, answers[m..], path[k..])
  }

  /** Why a peer's turn ended, after `asked` of its endpoints were asked. */
  ghost predicate TurnEnded(outcome: Outcome, v: Verifier, client: Frontier, index: nat, peer: Peer, asked: nat,
                            latest: Renewal, left: nat, answers: seq<Answer>, path: seq<Record>)
  {
    match outcome
    case Complete => asked > 0 && CaughtUp(client, answers, index)
    case OtherPeer =>
      && peer.readable
      && (asked == Usable(peer.https) || (asked > 0 && LastMisbehaved(v, client, answers, path)))
    case OtherEndpoint => false
    case Abort(error) => Excused(error, peer.readable, asked > 0, latest, left, answers)
  }

  lemma TurnEnds(outcome: Outcome, v: Verifier, client: Frontier, index: nat, peer: Peer, asked: nat, budget: nat,
                 latest: Renewal, left: nat, known: seq<Answer>, answers: seq<Answer>, before: seq<Record>,
                 path: seq<Record>)
    requires peer.readable && outcome != OtherEndpoint && (budget > 0 ==> asked > 0)
    requires EndpointEnded(outcome, v, client, index, budget, latest, left, answers, path)
    ensures TurnEnded(outcome, v, client, index, peer, asked, latest, left, known + answers, before + path)
  {
    if outcome == OtherPeer {
      assert (known + answers)[|known|..] == answers && (before + path)[|before|..] == path;
    }
  }

  // ---------------------------------------------------------------------------------------
  // One endpoint

  /** Verify, persist and only then commit one bundle. */
  method TakeBundle(app: App, session: Session, bundle: Bytes, ghost s: Service) returns (outcome: Option<Outcome>)
    requires Published(session, app, None)
    modifies app`failed, session`client, session`head, session`target, session.history
    ensures outcome in {None, Some(OtherPeer), Some(Abort(RecordBounds)), Some(Abort(PublicationFailed))}
    ensures Published(session, app, if outcome == None || !outcome.value.Abort? then None
                                    else Some(outcome.value.error))
    ensures old(session.history.chain) <= session.history.chain
    ensures var candidate := session.history.v.Prepare(old(session.client), bundle);
            if outcome == None then
              && candidate.Some? && session.client == candidate.value.next
              && Reaches(session.history.v, old(session.head), [RecordFor(old(session.head), candidate.value)], session.head)
            else
              && session.client == old(session.client) && session.head == old(session.head)
              && (outcome == Some(OtherPeer) <==> candidate == None)
              && (outcome == Some(Abort(RecordBounds)) <==>
                    candidate.Some? && !RecordFor(session.head, candidate.value).Framed())
    ensures session.history.calm && Supplied(session.history.v, old(Stand(session)), s)
            && old(session.client.height) < |s.chain| && bundle == s.chain[old(session.client.height)].bytes ==>
              outcome == None && Supplied(session.history.v, Stand(session), s)
  {
    if Supplied(session.history.v, Stand(session), s) && session.client.height < |s.chain| {
      NextServed(session.history.v, s, session.client);
    }
    var candidate := session.history.v.Prepare(session.client, bundle);
    if candidate == None {
      return Some(OtherPeer);
    }
    var record := RecordFor(session.head, candidate.value);
    if !record.Framed() {
      return Some(Abort(RecordBounds));
    }
    var ok := session.history.Append(session.head, record);
    if !ok {
      app.failed := true;
      return Some(Abort(PublicationFailed));
    }
    app.failed := candidate.value.base != session.client;
    if app.failed {
      return Some(Abort(StaleAfterPersist));
    }
    OneRecord(session.history.v, record);
    session.client := candidate.value.next;
    session.head := record.head;
    session.target := record.head;
    return None;
  }

  /** The bundles of a page are taken in order, up to the first that cannot be; all of them, if they
      come from a served chain the session is supplied with. */
  method TakeBundles(app: App, session: Session, bundles: seq<Bytes>, ghost s: Service)
    returns (outcome: Option<Outcome>, ghost path: seq<Record>)
    requires Published(session, app, None)
    modifies app`failed, session`client, session`head, session`target, session.history
    ensures outcome in {None, Some(OtherPeer), Some(Abort(RecordBounds)), Some(Abort(PublicationFailed))}
    ensures Published(session, app, if outcome == None || !outcome.value.Abort? then None
                                    else Some(outcome.value.error))
    ensures Progressed(session, old(session.history.chain), old(session.head), path) && Taken(path, bundles)
    ensures session.client.height == old(session.client.height) + |path|
    ensures outcome == None <==> |path| == |bundles|
    ensures outcome.Some? ==>
              var candidate := session.history.v.Prepare(session.client, bundles[|path|]);
              && (outcome == Some(OtherPeer) <==> candidate == None)
              && (outcome == Some(Abort(RecordBounds)) <==>
                    candidate.Some? && !RecordFor(session.head, candidate.value).Framed())
    ensures session.history.calm && Supplied(session.history.v, old(Stand(session)), s)
            && s.Serves(old(session.client.height), BundlePage(bundles, s.End())) ==>
              outcome == None && Supplied(session.history.v, Stand(session), s)
  {
    path := [];
    ghost var h := session.client.height;
    ghost var page := BundlePage(bundles, s.End());
    ghost var supplied := session.history.calm && Supplied(session.history.v, Stand(session), s) && s.Serves(h, page);
    for i := 0 to |bundles|
      invariant Published(session, app, None)
      invariant Progressed(session, old(session.history.chain), old(session.head), path)
      invariant |path| == i && Taken(path, bundles) && session.client.height == h + i
      invariant supplied ==> Supplied(session.history.v, Stand(session), s)
    {
      if supplied {
        ServedBundle(s, h, page, i);
      }
      ghost var candidate := session.history.v.Prepare(session.client, bundles[i]);
      ghost var there := session.head;
      outcome := TakeBundle(app, session, bundles[i], s);
      if outcome.Some? {
        return outcome, path;
      }
      ghost var record := RecordFor(there, candidate.value);
      ReachesJoins(session.history.v, old(session.head), path, there, [record], session.head);
      TakeOne(path, record, bundles);
      path := path + [record];
    }
    return None, path;
  }

  /** Ask an endpoint for its next page and take what it brings. Without an outcome, there is more
      to be asked for. */
  method ReadOnce(app: App, session: Session, net: Network, peer: nat)
    returns (outcome: Option<Outcome>, ghost page: Option<BundlePage>, ghost path: seq<Record>)
    requires Published(session, app, None)
    modifies app`failed, session`client, session`head, session`target, session.history, net
    ensures Published(session, app, if outcome.Some? && outcome.value.Abort? then Some(outcome.value.error) else None)
    ensures Progressed(session, old(session.history.chain), old(session.head), path)
    ensures net.readCount == old(net.readCount) + 1
    ensures net.contacted == old(net.contacted) && net.latest == old(net.latest)
    ensures net.answers == old(net.answers) + if page.Some? then [Answer(peer, page.value)] else []
    ensures session.client.height == old(session.client.height) + |path|
    ensures match page
            case None => outcome == Some(OtherEndpoint) && path == []
            case Some(shown) =>
              Taken(path, shown.bundles) && FollowsFrom(outcome, session.history.v, session.client, shown, |path|)
    ensures net.behaviour(peer).Serving? && session.history.calm
            && Supplied(session.history.v, old(Stand(session)), net.behaviour(peer).service) ==>
              var s := net.behaviour(peer).service;
              || (outcome == Some(Complete) && session.client == s.End())
              || (outcome == None && Supplied(session.history.v, Stand(session), s) && session.client.height < |s.chain|
                  && |path| >= s.perPage)
  {
    path := [];
    var answer := net.ReadBundles(peer, session.client);
    page := answer;
    if answer.None? {
      return Some(OtherEndpoint), page, path;
    }
    var shown := answer.value;
    ghost var s := if net.behaviour(peer).Serving? then net.behaviour(peer).service else Service(session.head, [], 0);
    if s.Honest(session.history.v) {
      EndHeight(session.history.v, s);
    }
    outcome, path := TakeBundles(app, session, shown.bundles, s);
    if outcome.Some? {
      return outcome, page, path;
    }
    if session.client.height == shown.observed.height {
      return Some(if session.client == shown.observed then Complete else OtherPeer), page, path;
    }
    if shown.bundles == [] {
      return Some(OtherEndpoint), page, path;
    }
  }

  /** Read pages from one endpoint until it is caught up with, misbehaves, or the budget is gone.

      Unless it misbehaves, every bundle it sent has been taken; and a chain it serves within the
      budget is followed to its end. */
  method CatchUp(app: App, session: Session, net: Network, peer: nat, budget: nat)
    returns (outcome: Outcome, left: nat, ghost answers: seq<Answer>, ghost path: seq<Record>)
    requires Published(session, app, None)
    modifies app`failed, session`client, session`head, session`target, session.history, net
    ensures Published(session, app, if outcome.Abort? then Some(outcome.error) else None)
    ensures Progressed(session, old(session.history.chain), old(session.head), path)
    ensures left <= budget && net.readCount == old(net.readCount) + (budget - left)
    ensures net.contacted == old(net.contacted) && net.latest == old(net.latest)
    ensures net.answers == old(net.answers) + answers
    ensures Judged(outcome, session.history.v, session.client, peer, budget, left, answers, path)
    ensures Kept(path, answers)
    ensures outcome == Complete || outcome == OtherEndpoint ==> AllKept(path, answers)
    ensures session.client.height == old(session.client.height) + |path|
    ensures net.behaviour(peer).Serving?
            && InReach(session.history, old(Stand(session)), net.behaviour(peer).service, budget) ==>
              outcome == Complete && session.client == net.behaviour(peer).service.End()
  {
    left, answers, path := budget, [], [];
    ghost var s := if net.behaviour(peer).Serving? then net.behaviour(peer).service
                   else Service(session.head, [], 0);
    ghost var served := net.behaviour(peer).Serving? && InReach(session.history, Stand(session), s, budget);
    while left > 0
      invariant Published(session, app, None)
      invariant Progressed(session, old(session.history.chain), old(session.head), path)
      invariant left <= budget && net.readCount == old(net.readCount) + (budget - left)
      invariant net.contacted == old(net.contacted) && net.latest == old(net.latest)
      invariant net.answers == old(net.answers) + answers && |answers| == budget - left
      invariant AllKept(path, answers)
      invariant session.client.height == old(session.client.height) + |path|
      invariant served ==> InReach(session.history, Stand(session), s, left)
    {
      ghost var there, missing := session.head, |s.chain| - session.client.height;
      var read, page, more := ReadOnce(app, session, net, peer);
      ReachesJoins(session.history.v, old(session.head), path, there, more, session.head);
      left := left - 1;
      if page.Some? {
        JudgeAnswer(read, session.history.v, session.client, budget, left, path, answers, Answer(peer, page.value), more);
        answers := answers + [Answer(peer, page.value)];
      } else {
        assert path + more == path;
      }
      path := path + more;
      if read.Some? {
        return read.value, left, answers, path;
      }
      if served {
        OneReadFewer(missing, left + 1, s.perPage, |more|);
      }
    }
    return OtherEndpoint, left, answers, path;
  }

  /** Ask one endpoint of a peer: renew its advertisement, then catch up with it. */
  method AskEndpoint(app: App, session: Session, net: Network, index: nat, budget: nat)
    returns (outcome: Outcome, left: nat, ghost answers: seq<Answer>, ghost path: seq<Record>)
    requires Published(session, app, None)
    modifies app`failed, session`client, session`head, session`target, session.history, net
    ensures Published(session, app, if outcome.Abort? then Some(outcome.error) else None)
    ensures Progressed(session, old(session.history.chain), old(session.head), path)
    ensures left <= budget && net.readCount == old(net.readCount) + (budget - left)
    ensures net.contacted == old(net.contacted) + (if budget == 0 then [] else [index])
    ensures net.answers == old(net.answers) + answers && Kept(path, answers)
    ensures EndpointEnded(outcome, session.history.v, session.client, index, budget, net.latest, left, answers, path)
    ensures budget == 0 || net.latest == NoUsableAnswer ==> Stand(session) == old(Stand(session))
    ensures budget > 0 && net.behaviour(index).Silent? ==> net.latest == NoUsableAnswer
    ensures net.behaviour(index).Serving?
            && InReach(session.history, old(Stand(session)), net.behaviour(index).service, budget - 1) ==>
              outcome == Complete && session.client == net.behaviour(index).service.End()
  {
    left, answers, path := budget, [], [];
    if left == 0 {
      return Abort(BudgetExhausted), left, answers, path;
    }
    left := left - 1;
    var renewal := net.Renew(index);
    match renewal {
      case NoUsableAnswer => outcome := OtherEndpoint;
      case ClockFault => outcome := Abort(ClockUnavailable);
      case SelectionConflict =>
        app.failed := true;
        outcome := Abort(SelectionChanged);
      case Renewed =>
        outcome, left, answers, path := CatchUp(app, session, net, index, left);
    }
  }

  // ---------------------------------------------------------------------------------------
  // One peer

  function Repeat(index: nat, times: nat): (out: seq<nat>)
    ensures |out| == times
    ensures forall i | 0 <= i < times :: out[i] == index
  {
    seq(times, _ => index)
  }

  lemma RepeatGrows(index: nat, times: nat)
    ensures Repeat(index, times + 1) == Repeat(index, times) + [index]
  {
  }

  /** The peer never answers, and there is one way to ask it. */
  predicate Quiet(peer: Peer, behaviour: Behaviour) {
    peer == Peer([true], true) && behaviour.Silent?
  }

  /** The peer serves a chain, over its first endpoint. */
  predicate Open(peer: Peer, behaviour: Behaviour) {
    peer.readable && peer.https != [] && peer.https[0] && behaviour.Serving?
  }

  /** A turn in progress: what it has added to the contacts and answers there were before, and the way
      the session has come since. */
  ghost predicate InTurn(session: Session, net: Network, from: Head, contacts: seq<nat>, known: seq<Answer>, index: nat,
                   asked: nat, answers: seq<Answer>, path: seq<Record>)
    reads session, session.history, net
  {
    && Reaches(session.history.v, from, path, session.head)
    && net.contacted == contacts + Repeat(index, asked)
    && net.answers == known + answers
    && Sourced(path, answers)
  }

  /** Ask the next endpoint of a peer whose turn it is. */
  method AskNext(app: App, session: Session, net: Network, index: nat, budget: nat, ghost from: Head,
                 ghost contacts: seq<nat>, ghost known: seq<Answer>, ghost asked: nat, ghost answers: seq<Answer>,
                 ghost path: seq<Record>)
    returns (outcome: Outcome, left: nat, ghost asked': nat, ghost answers': seq<Answer>, ghost path': seq<Record>)
    requires Published(session, app, None) && index < |app.peers| && app.peers[index].readable
    requires InTurn(session, net, from, contacts, known, index, asked, answers, path)
    modifies app`failed, session`client, session`head, session`target, session.history, net
    ensures Published(session, app, if outcome.Abort? then Some(outcome.error) else None)
    ensures InTurn(session, net, from, contacts, known, index, asked', answers', path')
    ensures old(session.history.chain) <= session.history.chain
    ensures left <= budget && net.readCount == old(net.readCount) + (budget - left)
    ensures asked' == asked + if budget == 0 then 0 else 1
    ensures outcome == OtherEndpoint ==> budget > 0
    ensures outcome != OtherEndpoint ==>
              TurnEnded(outcome, session.history.v, session.client, index, app.peers[index], asked', net.latest, left,
                        answers', path')
    ensures budget == 0 ==> outcome == Abort(BudgetExhausted) && Stand(session) == old(Stand(session))
    ensures budget > 0 && net.behaviour(index).Silent? ==>
              outcome == OtherEndpoint && left == budget - 1 && Stand(session) == old(Stand(session))
    ensures net.behaviour(index).Serving?
            && InReach(session.history, old(Stand(session)), net.behaviour(index).service, budget - 1) ==>
              outcome == Complete && session.client == net.behaviour(index).service.End()
  {
    ghost var later, more;
    outcome, left, later, more := AskEndpoint(app, session, net, index, budget);
    ReachesJoins(session.history.v, from, path, old(session.head), more, session.head);
    KeptIsSourced(more, later);
    SourcedJoins(path, more, answers, later);
    RepeatGrows(index, asked);
    asked', answers', path' := asked + if budget == 0 then 0 else 1, answers + later, path + more;
    if outcome != OtherEndpoint {
      TurnEnds(outcome, session.history.v, session.client, index, app.peers[index], asked', budget, net.latest, left,
               answers, later, path, more);
    }
  }

  /** Where the session, the network and the budget stood when a turn began. */
  datatype TurnStart = TurnStart(at: Standing, contacts: seq<nat>, answers: seq<Answer>, readCount: nat, budget: nat)

  /** The turn after the first `e` endpoints of the peer. */
  ghost predicate Asking(app: App, session: Session, net: Network, index: nat, start: TurnStart, e: nat,
                         outcome: Outcome, left: nat, asked: nat, answers: seq<Answer>, path: seq<Record>)
    requires index < |app.peers|
    reads app, session, session.history, net
  {
    var peer, behaviour := app.peers[index], net.behaviour(index);
    && Published(session, app, if outcome.Abort? then Some(outcome.error) else None)
    && start.at.chain <= session.history.chain
    && InTurn(session, net, start.at.head, start.contacts, start.answers, index, asked, answers, path)
    && left <= start.budget && net.readCount == start.readCount + (start.budget - left)
    && e <= |peer.https|
    && (if outcome == OtherEndpoint then asked == Usable(peer.https[..e])
        else TurnEnded(outcome, session.history.v, session.client, index, peer, asked, net.latest, left, answers, path))
    && (e == 0 ==> outcome == OtherEndpoint && Stand(session) == start.at && left == start.budget)
    && (e > 0 && Quiet(peer, behaviour) ==>
          && Stand(session) == start.at
          && if start.budget == 0 then asked == 0 && outcome == Abort(BudgetExhausted) && left == 0
             else asked == 1 && outcome == OtherEndpoint && left == start.budget - 1)
    && (e > 0 && Open(peer, behaviour) && InReach(session.history, start.at, behaviour.service, start.budget - 1) ==>
          outcome == Complete && session.client == behaviour.service.End())
  }

  /** Ask the endpoint at `e`, unless it cannot be read. */
  method AskInOrder(app: App, session: Session, net: Network, index: nat, e: nat, budget: nat, ghost start: TurnStart,
                    ghost asked: nat, ghost answers: seq<Answer>, ghost path: seq<Record>)
    returns (outcome: Outcome, left: nat, ghost asked': nat, ghost answers': seq<Answer>, ghost path': seq<Record>)
    requires index < |app.peers| && app.peers[index].readable && e < |app.peers[index].https|
    requires Asking(app, session, net, index, start, e, OtherEndpoint, budget, asked, answers, path)
    modifies app`failed, session`client, session`head, session`target, session.history, net
    ensures Asking(app, session, net, index, start, e + 1, outcome, left, asked', answers', path')
  {
    UsableStep(app.peers[index].https, e);
    outcome, left, asked', answers', path' := OtherEndpoint, budget, asked, answers, path;
    if app.peers[index].https[e] {
      outcome, left, asked', answers', path' :=
        AskNext(app, session, net, index, budget, start.at.head, start.contacts, start.answers, asked, answers, path);
    }
  }

  /** Ask one peer, endpoint by endpoint; a peer with no usable endpoint left is another's turn. */
  method TryPeer(app: App, session: Session, net: Network, index: nat, budget: nat)
    returns (outcome: Outcome, left: nat, ghost asked: nat, ghost answers: seq<Answer>, ghost path: seq<Record>)
    requires Published(session, app, None) && index < |app.peers|
    modifies app`failed, session`client, session`head, session`target, session.history, net
    ensures Published(session, app, if outcome.Abort? then Some(outcome.error) else None)
    ensures Progressed(session, old(session.history.chain), old(session.head), path)
    ensures left <= budget && net.readCount == old(net.readCount) + (budget - left)
    ensures net.contacted == old(net.contacted) + Repeat(index, asked) && net.answers == old(net.answers) + answers
    ensures TurnEnded(outcome, session.history.v, session.client, index, app.peers[index], asked, net.latest, left,
                      answers, path)
    ensures Sourced(path, answers)
    ensures Quiet(app.peers[index], net.behaviour(index)) ==>
              && Stand(session) == old(Stand(session))
              && if budget == 0 then asked == 0 && outcome == Abort(BudgetExhausted) && left == 0
                 else asked == 1 && outcome == OtherPeer && left == budget - 1
    ensures Open(app.peers[index], net.behaviour(index))
            && InReach(session.history, old(Stand(session)), net.behaviour(index).service, budget - 1) ==>
              outcome == Complete && session.client == net.behaviour(index).service.End()
  {
    if !app.peers[index].readable {
      return Abort(PeerCorrupt), budget, 0, [], [];
    }
    ghost var start := TurnStart(Stand(session), net.contacted, net.answers, net.readCount, budget);
    outcome, left, asked, answers, path := OtherEndpoint, budget, 0, [], [];
    var e := 0;
    while e < |app.peers[index].https| && outcome == OtherEndpoint
      invariant Asking(app, session, net, index, start, e, outcome, left, asked, answers, path)
    {
      outcome, left, asked, answers, path :=
        AskInOrder(app, session, net, index, e, left, start, asked, answers, path);
      e := e + 1;
    }
    assert app.peers[index].https[..|app.peers[index].https|] == app.peers[index].https;
    if outcome == OtherEndpoint {
      outcome := OtherPeer;
    }
  }

  // ---------------------------------------------------------------------------------------
  // One attempt

  /** The first peers around the ring from `from` on never answer. */
  predicate QuietFor(peers: seq<Peer>, behaviour: nat -> Behaviour, from: nat, turns: nat) {
    peers != [] &&
    forall i {:trigger QuietAt(peers, behaviour, from, i)} | 0 <= i < turns :: QuietAt(peers, behaviour, from, i)
  }

  predicate QuietAt(peers: seq<Peer>, behaviour: nat -> Behaviour, from: nat, i: nat)
    requires peers != []
  {
    var p := (from + i) % |peers|;
    Quiet(peers[p], behaviour(p))
  }

  /** Behind `k` peers that never answer comes one that serves all the session lacks within the budget
      they leave. */
  predicate HelpAt(peers: seq<Peer>, behaviour: nat -> Behaviour, history: History, start: TurnStart, from: nat, k: nat) {
    && k < |peers| && QuietFor(peers, behaviour, from, k)
    && var p := (from + k) % |peers|;
    && Open(peers[p], behaviour(p))
    && InReach(history, start.at, behaviour(p).service, start.budget - k - 1)
  }

  /** A peer was given up: it could be asked, and was if there was a way to. */
  predicate Passed(peers: seq<Peer>, from: nat, counts: seq<nat>, i: nat)
    requires peers != [] && i < |counts|
  {
    var peer := peers[(from + i) % |peers|];
    peer.readable && (Usable(peer.https) > 0 ==> counts[i] > 0)
  }

  predicate AllPassed(peers: seq<Peer>, from: nat, counts: seq<nat>, turns: nat)
    requires peers != []
  {
    && turns <= |counts|
    && forall i {:trigger Passed(peers, from, counts, i)} | 0 <= i < turns :: Passed(peers, from, counts, i)
  }

  /** Who was contacted, turn by turn around the ring, when the peer of each turn was so many times. */
  function Contacts(n: nat, from: nat, counts: seq<nat>): seq<nat>
    requires n > 0
  {
    if counts == [] then []
    else
      var last := |counts| - 1;
      Contacts(n, from, counts[..last]) + Repeat((from + last) % n, counts[last])
  }

  lemma ContactsGrow(n: nat, from: nat, counts: seq<nat>, times: nat)
    requires n > 0
    ensures Contacts(n, from, counts + [times])
         == Contacts(n, from, counts) + Repeat((from + |counts|) % n, times)
  {
    assert (counts + [times])[..|counts|] == counts;
  }

  lemma {:induction false} CountedIsContacted(n: nat, from: nat, counts: seq<nat>, i: nat)
    requires n > 0 && i < |counts| && counts[i] > 0
    ensures (from + i) % n in Contacts(n, from, counts)
  {
    var last := |counts| - 1;
    if i < last {
      CountedIsContacted(n, from, counts[..last], i);
    } else {
      assert Repeat((from + last) % n, counts[last])[0] == (from + last) % n;
    }
  }

  /** Once around the ring is every peer. */
  lemma AllPassedOnce(peers: seq<Peer>, from: nat, counts: seq<nat>, p: nat)
    requires peers != [] && from < |peers| == |counts| && AllPassed(peers, from, counts, |peers|) && p < |peers|
    ensures peers[p].readable && (Usable(peers[p].https) > 0 ==> p in Contacts(|peers|, from, counts))
  {
    var d := Distance(|peers|, from, p);
    RingPosition(|peers|, from, d);
    assert Passed(peers, from, counts, d);
    if counts[d] > 0 {
      CountedIsContacted(|peers|, from, counts, d);
    }
  }

  /** An attempt after so many turns. */
  ghost predicate Synchronising(app: App, session: Session, net: Network, start: TurnStart, from: nat, turns: nat,
                                outcome: Outcome, left: nat, counts: seq<nat>, answers: seq<Answer>, path: seq<Record>)
    requires app.peers != []
    reads app, session, session.history, net
  {
    && Published(session, app, if outcome.Abort? then Some(outcome.error) else None)
    && start.at.chain <= session.history.chain
    && Reaches(session.history.v, start.at.head, path, session.head)
    && |counts| == turns && net.contacted == start.contacts + Contacts(|app.peers|, from, counts)
    && net.answers == start.answers + answers && Sourced(path, answers)
    && left <= start.budget && net.readCount == start.readCount + (start.budget - left)
    && app.nextPeer == (from + turns) % |app.peers|
    && TurnsEnded(outcome, app.peers, session.client, from, counts, net.latest, left, answers)
    && QuietEffect(app.peers, net.behaviour, start, from, turns, Stand(session), outcome, left,
                   Contacts(|app.peers|, from, counts))
    && HelpEffect(app.peers, net.behaviour, session.history, start, from, turns, outcome, session.client)
  }

  /** As long as nobody answers, turns cost a read each and change nothing. */
  predicate QuietEffect(peers: seq<Peer>, behaviour: nat -> Behaviour, start: TurnStart, from: nat, turns: nat,
                        at: Standing, outcome: Outcome, left: nat, asked: seq<nat>)
  {
    QuietFor(peers, behaviour, from, turns) ==>
      && at == start.at
      && if turns <= start.budget
         then outcome == OtherPeer && left == start.budget - turns && asked == Asked(|peers|, from, turns)
         else outcome == Abort(BudgetExhausted) && turns == start.budget + 1
              && asked == Asked(|peers|, from, start.budget)
  }

  /** Once there was help, the attempt is complete. */
  predicate HelpEffect(peers: seq<Peer>, behaviour: nat -> Behaviour, history: History, start: TurnStart, from: nat,
                       turns: nat, outcome: Outcome, client: Frontier)
  {
    forall k | 0 <= k < turns && HelpAt(peers, behaviour, history, start, from, k) ::
      outcome == Complete && client == behaviour((from + k) % |peers|).service.End()
  }

  lemma QuietStep(peers: seq<Peer>, behaviour: nat -> Behaviour, start: TurnStart, from: nat, turns: nat, at: Standing,
                  budget: nat, asked: seq<nat>, at': Standing, outcome: Outcome, left: nat, times: nat)
    requires peers != [] && QuietEffect(peers, behaviour, start, from, turns, at, OtherPeer, budget, asked)
    requires QuietAt(peers, behaviour, from, turns) ==>
               && at' == at
               && if budget == 0 then times == 0 && outcome == Abort(BudgetExhausted) && left == 0
                  else times == 1 && outcome == OtherPeer && left == budget - 1
    ensures QuietEffect(peers, behaviour, start, from, turns + 1, at', outcome, left,
                        asked + Repeat((from + turns) % |peers|, times))
  {
    if QuietFor(peers, behaviour, from, turns + 1) {
      assert QuietAt(peers, behaviour, from, turns);
      AskedGrows(|peers|, from, turns);
    }
  }

  lemma HelpStep(peers: seq<Peer>, behaviour: nat -> Behaviour, history: History, start: TurnStart, from: nat, turns: nat,
                 at: Standing, budget: nat, asked: seq<nat>, client: Frontier, outcome: Outcome, client': Frontier)
    requires peers != [] && QuietEffect(peers, behaviour, start, from, turns, at, OtherPeer, budget, asked)
    requires HelpEffect(peers, behaviour, history, start, from, turns, OtherPeer, client)
    requires var p := (from + turns) % |peers|;
             Open(peers[p], behaviour(p)) && InReach(history, at, behaviour(p).service, budget - 1) ==>
               outcome == Complete && client' == behaviour(p).service.End()
    ensures HelpEffect(peers, behaviour, history, start, from, turns + 1, outcome, client')
  {
  }

  /** Why an attempt goes on, or ended: the peers of all turns have been given up, or of all but the
      last one, which decided. */
  predicate TurnsEnded(outcome: Outcome, peers: seq<Peer>, client: Frontier, from: nat, counts: seq<nat>,
                       latest: Renewal, left: nat, answers: seq<Answer>)
    requires peers != []
  {
    if outcome == OtherPeer then AllPassed(peers, from, counts, |counts|)
    else
      && counts != [] && AllPassed(peers, from, counts, |counts| - 1)
      && var last := (from + |counts| - 1) % |peers|;
      match outcome
      case Complete => counts[|counts| - 1] > 0 && CaughtUp(client, answers, last)
      case Abort(error) => Excused(error, peers[last].readable, counts[|counts| - 1] > 0, latest, left, answers)
      case _ => false
  }

  lemma TurnCounts(outcome: Outcome, v: Verifier, client: Frontier, peers: seq<Peer>, from: nat, counts: seq<nat>,
                   times: nat, latest: Renewal, left: nat, known: seq<Answer>, answers: seq<Answer>, path: seq<Record>)
    requires peers != [] && AllPassed(peers, from, counts, |counts|)
    requires var index := (from + |counts|) % |peers|;
             TurnEnded(outcome, v, client, index, peers[index], times, latest, left, answers, path)
    ensures TurnsEnded(outcome, peers, client, from, counts + [times], latest, left, known + answers)
  {
    forall i | 0 <= i < |counts| ensures Passed(peers, from, counts + [times], i) {
      assert Passed(peers, from, counts, i);
    }
    if outcome == OtherPeer {
      assert Passed(peers, from, counts + [times], |counts|);
    }
  }

  lemma Joined<T>(first: seq<T>, second: seq<T>, third: seq<T>)
    ensures (first + second) + third == first + (second + third)
  {
  }

  /** The turn of the next peer around the ring: move the position past it, then ask it. */
  method TakeTurn(app: App, session: Session, net: Network, from: nat, turns: nat, budget: nat, ghost start: TurnStart,
                  ghost counts: seq<nat>, ghost answers: seq<Answer>, ghost path: seq<Record>)
    returns (outcome: Outcome, left: nat, ghost counts': seq<nat>, ghost answers': seq<Answer>, ghost path': seq<Record>)
    requires app.peers != []
    requires Synchronising(app, session, net, start, from, turns, OtherPeer, budget, counts, answers, path)
    modifies app`failed, app`nextPeer, session`client, session`head, session`target, session.history, net
    ensures Synchronising(app, session, net, start, from, turns + 1, outcome, left, counts', answers', path')
  {
    var n := |app.peers|;
    var index := (from + turns) % n;
    app.nextPeer := (index + 1) % n;
    Successor(from + turns, n);
    ghost var there := Stand(session);
    ghost var times, later, more;
    outcome, left, times, later, more := TryPeer(app, session, net, index, budget);
    ReachesJoins(session.history.v, start.at.head, path, old(session.head), more, session.head);
    SourcedJoins(path, more, answers, later);
    ghost var asked := Contacts(n, from, counts);
    ContactsGrow(n, from, counts, times);
    Joined(start.contacts, asked, Repeat(index, times));
    Joined(start.answers, answers, later);
    TurnCounts(outcome, session.history.v, session.client, app.peers, from, counts, times, net.latest, left, answers, later,
               more);
    counts', answers', path' := counts + [times], answers + later, path + more;
    QuietStep(app.peers, net.behaviour, start, from, turns, there, budget, asked, Stand(session), outcome, left, times);
    HelpStep(app.peers, net.behaviour, session.history, start, from, turns, there, budget, asked, there.client, outcome,
             session.client);
  }

  /** How an attempt ended after the turns counted, with this much of its budget left. */
  predicate SyncEnded(error: Option<SyncError>, peers: seq<Peer>, client: Frontier, from: nat, counts: seq<nat>,
                      latest: Renewal, left: nat, answers: seq<Answer>)
  {
    if peers == [] then error == Some(NoPeers) && counts == []
    else
      && |counts| <= |peers|
      && match error
         case None => TurnsEnded(Complete, peers, client, from, counts, latest, left, answers)
         case Some(NoCompleteView) =>
           && |counts| == |peers|
           && forall p | 0 <= p < |peers| ::
                peers[p].readable && (Usable(peers[p].https) > 0 ==> p in Contacts(|peers|, from, counts))
         case Some(e) => TurnsEnded(Abort(e), peers, client, from, counts, latest, left, answers)
  }

  lemma AttemptEnds(outcome: Outcome, peers: seq<Peer>, client: Frontier, from: nat, counts: seq<nat>, latest: Renewal,
                    left: nat, answers: seq<Answer>)
    requires peers != [] && from < |peers| && |counts| <= |peers|
    requires TurnsEnded(outcome, peers, client, from, counts, latest, left, answers)
    requires outcome == OtherPeer ==> |counts| == |peers|
    ensures SyncEnded(ErrorOf(outcome), peers, client, from, counts, latest, left, answers)
  {
    if outcome == OtherPeer {
      forall p | 0 <= p < |peers|
        ensures peers[p].readable && (Usable(peers[p].https) > 0 ==> p in Contacts(|peers|, from, counts))
      {
        AllPassedOnce(peers, from, counts, p);
      }
    }
  }

  function ErrorOf(outcome: Outcome): Option<SyncError> {
    match outcome
    case Complete => None
    case Abort(error) => Some(error)
    case _ => Some(NoCompleteView)
  }

  /** What an attempt takes from its start. */
  function Attempt(session: Session, contacts: seq<nat>, answers: seq<Answer>, readCount: nat): TurnStart
    reads session, session.history
  {
    TurnStart(Stand(session), contacts, answers, readCount, READS_PER_ACTION)
  }

  /** Turn after turn, until one decides or everyone has had one. */
  method TakeTurns(app: App, session: Session, net: Network, ghost start: TurnStart)
    returns (outcome: Outcome, ghost left: nat, ghost counts: seq<nat>, ghost answers: seq<Answer>,
             ghost path: seq<Record>)
    requires Published(session, app, None) && app.Valid() && app.peers != []
    requires start == Attempt(session, net.contacted, net.answers, net.readCount)
    modifies app`failed, app`nextPeer, session`client, session`head, session`target, session.history, net
    ensures |counts| <= |app.peers| && (outcome == OtherPeer ==> |counts| == |app.peers|)
    ensures Synchronising(app, session, net, start, old(app.nextPeer), |counts|, outcome, left, counts, answers, path)
  {
    var from, budget, turns := app.nextPeer, READS_PER_ACTION, 0;
    outcome, counts, answers, path := OtherPeer, [], [], [];
    while turns < |app.peers| && outcome == OtherPeer
      invariant turns <= |app.peers|
      invariant Synchronising(app, session, net, start, from, turns, outcome, budget, counts, answers, path)
    {
      outcome, budget, counts, answers, path :=
        TakeTurn(app, session, net, from, turns, budget, start, counts, answers, path);
      turns := turns + 1;
    }
    left := budget;
  }

  /** Contact selected peers in turn until one supplies a complete view matching its own head.

      Each bundle is verified, published to durable history and only then committed; the position
      moves past every peer that is asked, and past the one the budget no longer reaches. Success
      means that the peer contacted last has, in the last answer of all, shown exactly the frontier
      at which the client stands. Giving up means that every peer was asked that could be, or that
      the cause named is there. And a peer that serves all that is missing, within what the peers
      before it leave of the budget, is not missed. */
  method Sync(app: App, session: Session, net: Network)
    returns (error: Option<SyncError>, ghost counts: seq<nat>, ghost answers: seq<Answer>, ghost path: seq<Record>)
    requires Published(session, app, None) && app.Valid()
    modifies app`failed, app`nextPeer, session`client, session`head, session`target, session.history, net
    ensures Published(session, app, error) && app.Valid()
    ensures Progressed(session, old(session.history.chain), old(session.head), path)
    ensures old(net.readCount) <= net.readCount <= old(net.readCount) + 8
    ensures net.answers == old(net.answers) + answers && Sourced(path, answers)
    ensures SyncEnded(error, app.peers, session.client, old(app.nextPeer), counts, net.latest,
                      READS_PER_ACTION - (net.readCount - old(net.readCount)), answers)
    ensures if app.peers == [] then net.contacted == old(net.contacted) && app.nextPeer == old(app.nextPeer)
            else
              && net.contacted == old(net.contacted) + Contacts(|app.peers|, old(app.nextPeer), counts)
              && app.nextPeer == (old(app.nextPeer) + |counts|) % |app.peers|
    ensures QuietFor(app.peers, net.behaviour, old(app.nextPeer), |app.peers|) ==>
              && error == Some(if |app.peers| <= READS_PER_ACTION then NoCompleteView else BudgetExhausted)
              && Stand(session) == old(Stand(session))
              && net.contacted == old(net.contacted) + Round(|app.peers|, READS_PER_ACTION, old(app.nextPeer))
              && app.nextPeer == NextStart(|app.peers|, READS_PER_ACTION, old(app.nextPeer))
    ensures forall k | HelpAt(app.peers, net.behaviour, session.history,
                              old(Attempt(session, net.contacted, net.answers, net.readCount)), old(app.nextPeer), k) ::
              && error == None
              && session.client == net.behaviour((old(app.nextPeer) + k) % |app.peers|).service.End()
  {
    counts, answers, path := [], [], [];
    if app.peers == [] {
      return Some(NoPeers), counts, answers, path;
    }
    ghost var start := Attempt(session, net.contacted, net.answers, net.readCount);
    var from := app.nextPeer;
    var outcome;
    ghost var budget;
    outcome, budget, counts, answers, path := TakeTurns(app, session, net, start);
    ghost var turns := |counts|;
    AttemptEnds(outcome, app.peers, session.client, from, counts, net.latest, budget, answers);
    if QuietFor(app.peers, net.behaviour, from, |app.peers|) {
      QuietPrefix(app.peers, net.behaviour, from, turns);
      QuietAttempt(app.peers, net.behaviour, start, from, turns, Stand(session), outcome, budget,
                   Contacts(|app.peers|, from, counts));
    }
    error := ErrorOf(outcome);
  }

  lemma QuietAttempt(peers: seq<Peer>, behaviour: nat -> Behaviour, start: TurnStart, from: nat, turns: nat, at: Standing,
                     outcome: Outcome, left: nat, asked: seq<nat>)
    requires peers != [] && from < |peers| && turns <= |peers| && QuietFor(peers, behaviour, from, turns)
    requires QuietEffect(peers, behaviour, start, from, turns, at, outcome, left, asked)
    requires outcome == OtherPeer ==> turns == |peers|
    ensures ErrorOf(outcome) == Some(if |peers| <= start.budget then NoCompleteView else BudgetExhausted)
    ensures at == start.at && asked == Round(|peers|, start.budget, from)
    ensures (from + turns) % |peers| == NextStart(|peers|, start.budget, from)
  {
  }

  /** The position ends behind the peer contacted last, if that decided the attempt; and where it was,
      if every peer had its turn. */
  lemma PositionBehindTheLast(error: Option<SyncError>, peers: seq<Peer>, client: Frontier, from: nat, counts: seq<nat>,
                              latest: Renewal, left: nat, answers: seq<Answer>)
    requires peers != [] && from < |peers|
    requires SyncEnded(error, peers, client, from, counts, latest, left, answers)
    ensures var asked, position := Contacts(|peers|, from, counts), (from + |counts|) % |peers|;
            && (error == None ==> asked != [] && position == (asked[|asked| - 1] + 1) % |peers|)
            && (error == Some(NoCompleteView) ==> position == from)
  {
    var n := |peers|;
    if error == None {
      Successor(from + |counts| - 1, n);
    } else {
      RingPosition(n, from, n);
    }
  }

  lemma QuietPrefix(peers: seq<Peer>, behaviour: nat -> Behaviour, from: nat, turns: nat)
    requires turns <= |peers| && QuietFor(peers, behaviour, from, |peers|)
    ensures QuietFor(peers, behaviour, from, turns)
  {
    forall i | 0 <= i < turns ensures QuietAt(peers, behaviour, from, i) {
    }
  }

  // ---------------------------------------------------------------------------------------
  // Several actions in a row

  /** No peer ever answers, and there is one way to ask each. */
  predicate AllQuiet(peers: seq<Peer>, behaviour: nat -> Behaviour) {
    peers != [] && forall p | 0 <= p < |peers| :: Quiet(peers[p], behaviour(p))
  }

  lemma AllQuietFrom(peers: seq<Peer>, behaviour: nat -> Behaviour, from: nat)
    requires AllQuiet(peers, behaviour)
    ensures QuietFor(peers, behaviour, from, |peers|)
  {
  }

  /** Synchronisation attempted `count` times while no peer answers. */
  method SyncRepeatedly(app: App, session: Session, net: Network, count: nat)
    requires Published(session, app, None) && app.Valid() && AllQuiet(app.peers, net.behaviour)
    modifies app`failed, app`nextPeer, session`client, session`head, session`target, session.history, net
    ensures Published(session, app, None) && app.Valid() && Stand(session) == old(Stand(session))
    ensures app.nextPeer == Start(|app.peers|, READS_PER_ACTION, old(app.nextPeer), count)
    ensures net.contacted
         == old(net.contacted) + Rounds(|app.peers|, READS_PER_ACTION, old(app.nextPeer), count)
  {
    var n := |app.peers|;
    ghost var start := app.nextPeer;
    for i := 0 to count
      invariant Published(session, app, None) && app.Valid() && Stand(session) == old(Stand(session))
      invariant app.nextPeer == Start(n, READS_PER_ACTION, start, i)
      invariant net.contacted == old(net.contacted) + Rounds(n, READS_PER_ACTION, start, i)
    {
      AllQuietFrom(app.peers, net.behaviour, app.nextPeer);
      var error, _, _, _ := Sync(app, session, net);
    }
  }

  /** At least as many silent attempts as there are peers contact every peer if and only if one
      attempt reaches them all or nine does not divide their number; and when it does, no number of
      attempts contacts the peer at which the first one's budget ran out. */
  method SyncOncePerPeer(app: App, session: Session, net: Network, count: nat)
    requires Published(session, app, None) && app.Valid() && AllQuiet(app.peers, net.behaviour)
    requires count >= |app.peers|
    modifies app`failed, app`nextPeer, session`client, session`head, session`target, session.history, net
    ensures Published(session, app, None) && app.Valid() && Stand(session) == old(Stand(session))
    ensures app.nextPeer == Start(|app.peers|, READS_PER_ACTION, old(app.nextPeer), count)
    ensures old(net.contacted) <= net.contacted
    ensures
      var n, asked := |app.peers|, net.contacted[|old(net.contacted)|..];
      && ((forall p | 0 <= p < n :: p in asked)
          <==> n <= 8 || n % 9 != 0)
      && (n % 9 == 0 ==> (old(app.nextPeer) + 8) % n !in asked)
  {
    var n := |app.peers|;
    ghost var start := app.nextPeer;
    SyncRepeatedly(app, session, net, count);
    RoundsReach(n, READS_PER_ACTION, start, count);
    assert net.contacted[|old(net.contacted)|..] == Rounds(n, READS_PER_ACTION, start, count);
  }

  /** Reload, and continue recovery to the end: on intact storage this cannot fail, and on calm storage
      the session stands at the end of what was saved. */
  method ReloadAndRecover(history: History, raw: Bytes) returns (session: Session)
    requires history.Valid() && history.intact && history.bootstrap == Some(raw)
    modifies history
    ensures history.Valid() && old(history.chain) <= history.chain
    ensures fresh(session) && session.history == history && session.InStep() && session.head == session.target
    ensures |old(history.chain)| <= session.client.height
    ensures history.calm ==> Stand(session) == old(StandAtEnd(history))
  {
    HeightsCount(history.v, history.v.Genesis(), history.chain, |history.chain|);
    var r, complete := Reload(history, raw);
    session := r.value;
    if !complete {
      var _ := ContinueRecovery(session);
    }
  }

  /** The page's own path: reload, continue recovery to the end, synchronise. On intact storage the
      recovery cannot fail, and synchronisation starts from, and stays beyond, all that was saved. If
      storage is also calm and, behind peers that never answer, one serves what the saved history
      lacks, the path ends at that peer's own end. */
  method ReloadRecoverSync(history: History, raw: Bytes, app: App, net: Network)
    returns (session: Session, error: Option<SyncError>)
    requires history.Valid() && history.intact && history.bootstrap == Some(raw)
    requires app.Valid() && !app.failed
    modifies history, app`failed, app`nextPeer, net
    ensures fresh(session) && session.history == history && Published(session, app, error) && app.Valid()
    ensures old(history.chain) <= history.chain
    ensures |old(history.chain)| <= session.client.height <= |history.chain|
    ensures net.readCount <= old(net.readCount) + READS_PER_ACTION
    ensures error == None ==>
              net.contacted != [] && CaughtUp(session.client, net.answers, net.contacted[|net.contacted| - 1])
    ensures forall k | HelpAt(app.peers, net.behaviour, history,
                              old(Saved(history, net.contacted, net.answers, net.readCount)), old(app.nextPeer), k) ::
              && error == None
              && session.client == net.behaviour((old(app.nextPeer) + k) % |app.peers|).service.End()
  {
    ghost var saved := Saved(history, net.contacted, net.answers, net.readCount);
    session := ReloadAndRecover(history, raw);
    ghost var recovered := session.head;
    assert history.calm ==> Attempt(session, net.contacted, net.answers, net.readCount) == saved;
    var failure, _, _, path := Sync(app, session, net);
    error := failure;
    HeightsCount(history.v, recovered, path, |path|);
  }

  /** The attempt a session would start that stands at the end of saved history. */
  function Saved(history: History, contacts: seq<nat>, answers: seq<Answer>, readCount: nat): TurnStart
    reads history
  {
    TurnStart(StandAtEnd(history), contacts, answers, readCount, READS_PER_ACTION)
  }

  function StandAtEnd(history: History): Standing
    reads history
  {
    var head := HeadAt(history.v.Genesis(), history.chain, |history.chain|);
    Standing(head.frontier, head, history.chain, history.bootstrap)
  }
}
