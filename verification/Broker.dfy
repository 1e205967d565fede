/** A broker that may disclose one granted request, a bounded number of times, until its grant ends.

A disclosure awaits a foreign call, so it is two steps: what happens up to the call, and what happens
when the call is over. Between them anything else may happen.
*/
module Brokers {
  import opened Wrappers
  import opened ByteCodec

  const MaxFrame: nat := 4096
  const MaxAttempts: nat := 16
  const Day: real := 86400.0

  predicate IsFullId(b: Bytes) {
    |b| == 32 && !AllZero(b)
  }

  predicate AllZero(b: Bytes) {
    b == [] || (b[0] == 0 && AllZero(b[1..]))
  }

  lemma {:induction false} AllZeroMeaning(b: Bytes)
    ensures AllZero(b) <==> forall i | 0 <= i < |b| :: b[i] == 0
  {
    if b != [] {
      AllZeroMeaning(b[1..]);
      assert forall i | 1 <= i < |b| :: b[i] == b[1..][i - 1];
    }
  }

  /** An identifier is 32 bytes that are not all zero. */
  lemma FullIdMeaning(b: Bytes)
    ensures IsFullId(b) <==> |b| == 32 && exists i | 0 <= i < |b| :: b[i] != 0
  {
    AllZeroMeaning(b);
  }

  type Id = b: Bytes | IsFullId(b) witness [1] + seq(31, _ => 0)
  type WireBody = b: Bytes | 0 < |b| <= MaxFrame witness [0]
  type Attempts = n: nat | 0 < n <= MaxAttempts witness 1

  datatype RoomContext = RoomContext(
    room: Id, anchor: Id, account: Id, device: Id, epoch: U64, roster: Id, session: Id)

  datatype Provider = Provider(endpoint: string, model: string, processingPolicy: string)

  datatype Request = Request(context: RoomContext, provider: Provider, body: WireBody)

  datatype Grant = Grant(
    context: RoomContext, provider: Provider, requestDigest: Id, deadline: real, attempts: Attempts)

  /** What the broker's fields hold. */
  datatype Broker = Broker(
    context: RoomContext, grant: Grant, lastTick: real, remaining: nat, revoked: bool, busy: bool)

  datatype Refusal = ClockRegression | GrantEnded | WrongDestination | ChangedRequest | QuotaOrPending

  /** How the foreign call ends: it fails or is canceled, or it answers. */
  datatype Answer = Raised | NotBytes | Answered(body: Bytes)

  type Hash = Bytes -> Id

  // ---------------------------------------------------------------------------------------
  // What the broker's operations do to its fields

  /** A clock reading that is a finite number and no earlier than the last one. */
  predicate Advances(b: Broker, tick: Option<real>) {
    tick.Some? && tick.value >= b.lastTick
  }

  predicate Matches(hash: Hash, b: Broker, r: Request) {
    && r.context == b.context
    && r.provider == b.grant.provider
    && hash(r.body) == b.grant.requestDigest
  }

  function Authorized(hash: Hash, b: Broker, r: Request, tick: Option<real>): (Broker, Option<Refusal>) {
    if !Advances(b, tick) then (b.(revoked := true), Some(ClockRegression))
    else
      var b' := b.(lastTick := tick.value);
      if b.revoked || tick.value >= b.grant.deadline then (b', Some(GrantEnded))
      else if r.context != b.context || r.provider != b.grant.provider then (b', Some(WrongDestination))
      else if hash(r.body) != b.grant.requestDigest then (b', Some(ChangedRequest))
      else (b', None)
  }

  function Begun(hash: Hash, b: Broker, r: Request, tick: Option<real>): (Broker, Option<Refusal>) {
    var (b', refusal) := Authorized(hash, b, r, tick);
    if refusal.Some? then (b', refusal)
    else if b'.busy || b'.remaining == 0 then (b', Some(QuotaOrPending))
    else (b'.(remaining := b'.remaining - 1, busy := true), None)
  }

  /** The answer given to the caller, unless the attempt has failed. */
  function Ended(hash: Hash, b: Broker, r: Request, tick: Option<real>, answer: Answer): (Broker, Option<Bytes>) {
    var (b', refusal) := if answer == Raised then (b, None) else Authorized(hash, b, r, tick);
    if refusal == None && answer.Answered? && |answer.body| <= MaxFrame
    then (b'.(busy := false), Some(answer.body))
    else (b'.(busy := false, revoked := true), None)
  }

  class DisclosureBroker {
    const hash: Hash
    const context: RoomContext
    const grant: Grant
    var lastTick: real
    var remaining: nat
    var revoked: bool
    var busy: bool

    ghost function Value(): Broker
      reads this
    {
      Broker(context, grant, lastTick, remaining, revoked, busy)
    }

    constructor (hash: Hash, grant: Grant, tick: real)
      ensures this.hash == hash && Value() == Opened(grant, tick)
    {
      this.hash, context, this.grant := hash, grant.context, grant;
      lastTick, remaining, revoked, busy := tick, grant.attempts, false, false;
    }

    static method Open(hash: Hash, context: RoomContext, grant: Grant, tick: Option<real>)
      returns (broker: Option<DisclosureBroker>)
      ensures broker.Some? <==> context == grant.context && tick.Some? && Opens(grant, tick.value)
      ensures broker.Some? ==>
                && fresh(broker.value)
                && broker.value.hash == hash
                && broker.value.Value() == Opened(grant, tick.value)
    {
      if context != grant.context || tick == None
         || !(tick.value < grant.deadline <= tick.value + Day)
      {
        return None;
      }
      var b := new DisclosureBroker(hash, grant, tick.value);
      return Some(b);
    }

    method Revoke()
      modifies this`revoked
      ensures Value() == old(Value()).(revoked := true)
    {
      revoked := true;
    }

    method Authorize(r: Request, tick: Option<real>) returns (refusal: Option<Refusal>)
      modifies this`revoked, this`lastTick
      ensures (Value(), refusal) == Authorized(hash, old(Value()), r, tick)
    {
      if tick == None || tick.value < lastTick {
        revoked := true;
        return Some(ClockRegression);
      }
      lastTick := tick.value;
      if revoked || tick.value >= grant.deadline {
        return Some(GrantEnded);
      }
      if r.context != context || r.provider != grant.provider {
        return Some(WrongDestination);
      }
      if hash(r.body) != grant.requestDigest {
        return Some(ChangedRequest);
      }
      return None;
    }

    /** `disclose` up to the foreign call, which is made exactly when nothing is refused. */
    method BeginDisclosure(r: Request, tick: Option<real>) returns (refusal: Option<Refusal>)
      modifies this
      ensures (Value(), refusal) == Begun(hash, old(Value()), r, tick)
    {
      refusal := Authorize(r, tick);
      if refusal == None {
        if busy || remaining == 0 {
          return Some(QuotaOrPending);
        }
        remaining := remaining - 1;
        busy := true;
      }
    }

    /** `disclose` from the end of the foreign call. */
    method EndDisclosure(r: Request, tick: Option<real>, answer: Answer) returns (result: Option<Bytes>)
      modifies this
      ensures (Value(), result) == Ended(hash, old(Value()), r, tick, answer)
    {
      result := None;
      if answer != Raised {
        var refusal := Authorize(r, tick);
        if refusal == None && answer.Answered? && |answer.body| <= MaxFrame {
          result := Some(answer.body);
        }
      }
      if result == None {
        revoked := true;
      }
      busy := false;
    }
  }

  // ---------------------------------------------------------------------------------------
  // The broker among its callers

  predicate Opens(grant: Grant, tick: real) {
    tick < grant.deadline <= tick + Day
  }

  function Opened(grant: Grant, tick: real): Broker {
    Broker(grant.context, grant, tick, grant.attempts, false, false)
  }

  /** The broker, the requests whose foreign call is not over, and everything sent out, answered and
      failed so far. */
  datatype World = World(
    broker: Broker, flights: seq<Request>, sent: seq<Request>, answers: seq<Bytes>, failed: nat)

  datatype Action =
    | Ask(request: Request, tick: Option<real>)
    | Arrive(flight: nat, tick: Option<real>, answer: Answer)
    | Revoke

  predicate Possible(w: World, a: Action) {
    a.Arrive? ==> a.flight < |w.flights|
  }

  function Apply(hash: Hash, w: World, a: Action): World
    requires Possible(w, a)
  {
    match a
    case Ask(r, tick) =>
      var (b, refusal) := Begun(hash, w.broker, r, tick);
      if refusal.Some? then w.(broker := b)
      else w.(broker := b, flights := w.flights + [r], sent := w.sent + [r])
    case Arrive(i, tick, answer) =>
      var (b, result) := Ended(hash, w.broker, w.flights[i], tick, answer);
      var w' := w.(broker := b, flights := w.flights[..i] + w.flights[i + 1..]);
      if result.Some? then w'.(answers := w.answers + [result.value]) else w'.(failed := w.failed + 1)
    case Revoke => w.(broker := w.broker.(revoked := true))
  }

  predicate Run(hash: Hash, w: World, actions: seq<Action>)
    decreases |actions|
  {
    actions == [] ||
    (Possible(w, actions[0]) && Run(hash, Apply(hash, w, actions[0]), actions[1..]))
  }

  function After(hash: Hash, w: World, actions: seq<Action>): World
    requires Run(hash, w, actions)
    decreases |actions|
  {
    if actions == [] then w else After(hash, Apply(hash, w, actions[0]), actions[1..])
  }

  function Start(grant: Grant, tick: real): World {
    World(Opened(grant, tick), [], [], [], 0)
  }

  /** Quota is conserved, at most one call is out, every request that went out is the granted one,
      and the first attempt to fail is the last attempt. */
  predicate Inv(hash: Hash, grant: Grant, w: World) {
    && w.broker.grant == grant
    && w.broker.context == grant.context
    && |w.flights| == (if w.broker.busy then 1 else 0)
    && |w.sent| + w.broker.remaining == grant.attempts
    && |w.answers| + w.failed + |w.flights| == |w.sent|
    && w.failed <= 1
    && (w.failed == 1 ==> w.broker.revoked && w.flights == [])
    && (forall i | 0 <= i < |w.sent| :: Matches(hash, w.broker, w.sent[i]))
    && (w.flights != [] ==> w.flights[0] == w.sent[|w.sent| - 1])
    && (forall i | 0 <= i < |w.answers| :: |w.answers[i]| <= MaxFrame)
  }

  lemma AskKeepsInv(hash: Hash, grant: Grant, w: World, r: Request, tick: Option<real>)
    requires Inv(hash, grant, w)
    ensures Inv(hash, grant, Apply(hash, w, Ask(r, tick)))
  {
  }

  lemma ArriveKeepsInv(hash: Hash, grant: Grant, w: World, i: nat, tick: Option<real>, answer: Answer)
    requires Inv(hash, grant, w) && i < |w.flights|
    ensures Inv(hash, grant, Apply(hash, w, Arrive(i, tick, answer)))
  {
    assert w.flights[..i] + w.flights[i + 1..] == [];
  }

  lemma StepKeepsInv(hash: Hash, grant: Grant, w: World, a: Action)
    requires Inv(hash, grant, w) && Possible(w, a)
    ensures Inv(hash, grant, Apply(hash, w, a))
  {
    match a
    case Ask(r, tick) => AskKeepsInv(hash, grant, w, r, tick);
    case Arrive(i, tick, answer) => ArriveKeepsInv(hash, grant, w, i, tick, answer);
    case Revoke =>
  }

  lemma {:induction false} RunKeepsInv(hash: Hash, grant: Grant, w: World, actions: seq<Action>)
    requires Inv(hash, grant, w) && Run(hash, w, actions)
    ensures Inv(hash, grant, After(hash, w, actions))
    decreases |actions|
  {
    if actions != [] {
      StepKeepsInv(hash, grant, w, actions[0]);
      RunKeepsInv(hash, grant, Apply(hash, w, actions[0]), actions[1..]);
    }
  }

  /** Whatever callers do, sent calls and remaining attempts add up to the grant, and at most one
      call is out. */
  lemma QuotaIsConserved(hash: Hash, grant: Grant, tick: real, actions: seq<Action>)
    requires Run(hash, Start(grant, tick), actions)
    ensures
      var w := After(hash, Start(grant, tick), actions);
      && |w.sent| + w.broker.remaining == grant.attempts
      && |w.flights| <= 1
      && |w.answers| + w.failed + |w.flights| == |w.sent|
      && w.failed <= 1
  {
    RunKeepsInv(hash, grant, Start(grant, tick), actions);
  }

  /** No other body has the digest of this one. */
  ghost predicate Unforgeable(hash: Hash, body: Bytes) {
    forall other | hash(other) == hash(body) :: other == body
  }

  /** Only the request the grant was made for ever leaves. */
  lemma OnlyTheGrantedRequestIsSent(hash: Hash, grant: Grant, granted: Request, tick: real, actions: seq<Action>, i: nat)
    requires Unforgeable(hash, granted.body) && Run(hash, Start(grant, tick), actions)
    requires grant.context == granted.context && grant.provider == granted.provider
    requires grant.requestDigest == hash(granted.body)
    requires i < |After(hash, Start(grant, tick), actions).sent|
    ensures After(hash, Start(grant, tick), actions).sent[i] == granted
  {
    RunKeepsInv(hash, grant, Start(grant, tick), actions);
    var w := After(hash, Start(grant, tick), actions);
    assert Matches(hash, w.broker, w.sent[i]);
  }

  // ---------------------------------------------------------------------------------------
  // The end of a grant

  /** The grant is over: withdrawn, or the deadline has been seen to pass. */
  predicate IsOver(b: Broker) {
    b.revoked || b.lastTick >= b.grant.deadline
  }

  /** An action that ends a grant: withdrawing it, a bad or late clock reading, or an attempt whose
      call fails or answers out of bounds. */
  predicate Ends(b: Broker, a: Action) {
    match a
    case Revoke => true
    case Ask(_, tick) => !Advances(b, tick) || tick.value >= b.grant.deadline
    case Arrive(_, tick, answer) =>
      || !answer.Answered? || |answer.body| > MaxFrame
      || !Advances(b, tick) || tick.value >= b.grant.deadline
  }

  lemma OverExactlyWhenEnded(hash: Hash, grant: Grant, w: World, a: Action)
    requires Inv(hash, grant, w) && Possible(w, a)
    ensures IsOver(Apply(hash, w, a).broker) <==> IsOver(w.broker) || Ends(w.broker, a)
  {
    match a
    case Ask(_, _) =>
    case Arrive(i, _, _) =>
      assert w.flights[i] == w.sent[|w.sent| - 1];
      assert Matches(hash, w.broker, w.sent[|w.sent| - 1]);
    case Revoke =>
  }

  /** A request is sent exactly when the grant is alive, the clock sound, the request the granted one,
      no call is out and quota is left. */
  lemma SentExactlyWhen(hash: Hash, w: World, r: Request, tick: Option<real>)
    ensures
      var w' := Apply(hash, w, Ask(r, tick));
      && (w'.sent == w.sent + [r] <==>
            && !IsOver(w.broker) && !Ends(w.broker, Ask(r, tick))
            && Matches(hash, w.broker, r) && !w.broker.busy && w.broker.remaining > 0)
      && (w'.sent == w.sent + [r] || w'.sent == w.sent)
  {
    assert |w.sent + [r]| == |w.sent| + 1;
  }

  /** A call's answer is handed over exactly when nothing has ended the grant, then or before. */
  lemma AnsweredExactlyWhen(hash: Hash, grant: Grant, w: World, i: nat, tick: Option<real>, answer: Answer)
    requires Inv(hash, grant, w) && i < |w.flights|
    ensures
      var w' := Apply(hash, w, Arrive(i, tick, answer));
      if !IsOver(w.broker) && !Ends(w.broker, Arrive(i, tick, answer))
      then w'.answers == w.answers + [answer.body] && w'.failed == w.failed
      else w'.answers == w.answers && w'.failed == w.failed + 1
  {
    assert Matches(hash, w.broker, w.sent[|w.sent| - 1]);
  }

  lemma OverStepIsSilent(hash: Hash, w: World, a: Action)
    requires IsOver(w.broker) && Possible(w, a)
    ensures
      var w' := Apply(hash, w, a);
      IsOver(w'.broker) && w'.sent == w.sent && w'.answers == w.answers
  {
  }

  /** After a failed attempt, a withdrawal, a late or bad clock reading, nothing is ever sent and no
      answer ever handed over, not even that of a call already out. */
  lemma {:induction false} OverIsForever(hash: Hash, w: World, actions: seq<Action>)
    requires IsOver(w.broker) && Run(hash, w, actions)
    ensures
      var w' := After(hash, w, actions);
      IsOver(w'.broker) && w'.sent == w.sent && w'.answers == w.answers
    decreases |actions|
  {
    if actions != [] {
      OverStepIsSilent(hash, w, actions[0]);
      OverIsForever(hash, Apply(hash, w, actions[0]), actions[1..]);
    }
  }

  // ---------------------------------------------------------------------------------------
  // Refused requests

  /** The second world is the first but for the clock, last seen no later. */
  predicate SameButForClock(w: World, w': World) {
    && w' == w.(broker := w.broker.(lastTick := w'.broker.lastTick))
    && w'.broker.lastTick <= w.broker.lastTick
  }

  lemma RefusalMovesOnlyTheClock(hash: Hash, w: World, r: Request, tick: Option<real>)
    requires Begun(hash, w.broker, r, tick).1.Some? && !IsOver(Apply(hash, w, Ask(r, tick)).broker)
    ensures SameButForClock(Apply(hash, w, Ask(r, tick)), w)
  {
  }

  lemma SameStepButForClock(hash: Hash, w: World, w': World, a: Action)
    requires SameButForClock(w, w') && Possible(w, a) && !IsOver(Apply(hash, w, a).broker)
    ensures Possible(w', a) && SameButForClock(Apply(hash, w, a), Apply(hash, w', a))
  {
  }

  lemma {:induction false} SameRunButForClock(hash: Hash, w: World, w': World, actions: seq<Action>)
    requires SameButForClock(w, w') && Run(hash, w, actions) && !IsOver(After(hash, w, actions).broker)
    ensures Run(hash, w', actions) && SameButForClock(After(hash, w, actions), After(hash, w', actions))
    decreases |actions|
  {
    if actions != [] {
      var next := Apply(hash, w, actions[0]);
      if IsOver(next.broker) {
        OverIsForever(hash, next, actions[1..]);
      }
      SameStepButForClock(hash, w, w', actions[0]);
      SameRunButForClock(hash, next, Apply(hash, w', actions[0]), actions[1..]);
    }
  }

  /** While the grant lasts, a refused request costs nobody anything: leave it out, and everything
      else is sent, answered and charged as before. */
  lemma RefusedRequestLeavesNoTrace(hash: Hash, w: World, r: Request, tick: Option<real>, actions: seq<Action>)
    requires Begun(hash, w.broker, r, tick).1.Some?
    requires Run(hash, Apply(hash, w, Ask(r, tick)), actions)
    requires !IsOver(After(hash, Apply(hash, w, Ask(r, tick)), actions).broker)
    ensures Run(hash, w, actions)
    ensures SameButForClock(After(hash, Apply(hash, w, Ask(r, tick)), actions), After(hash, w, actions))
  {
    var asked := Apply(hash, w, Ask(r, tick));
    if IsOver(asked.broker) {
      OverIsForever(hash, asked, actions);
    }
    RefusalMovesOnlyTheClock(hash, w, r, tick);
    SameRunButForClock(hash, asked, w, actions);
  }

  // ---------------------------------------------------------------------------------------
  // A grant can be used up

  function Rounds(r: Request, ticks: seq<real>, answers: seq<WireBody>): seq<Action>
    requires |ticks| == |answers|
  {
    if ticks == [] then []
    else [Ask(r, Some(ticks[0])), Arrive(0, Some(ticks[0]), Answered(answers[0]))]
         + Rounds(r, ticks[1..], answers[1..])
  }

  predicate Rising(last: real, ticks: seq<real>, deadline: real)
    decreases |ticks|
  {
    ticks == [] || (last <= ticks[0] < deadline && Rising(ticks[0], ticks[1..], deadline))
  }

  /** No call is out, and the request may be asked for. */
  predicate Ready(hash: Hash, w: World, r: Request) {
    w.flights == [] && !w.broker.busy && !w.broker.revoked && Matches(hash, w.broker, r)
  }

  lemma OneRound(hash: Hash, w: World, r: Request, tick: real, answer: WireBody) returns (w': World)
    requires Ready(hash, w, r) && w.broker.remaining > 0
    requires w.broker.lastTick <= tick < w.broker.grant.deadline
    ensures
      var ask, arrive := Ask(r, Some(tick)), Arrive(0, Some(tick), Answered(answer));
      Possible(Apply(hash, w, ask), arrive) && w' == Apply(hash, Apply(hash, w, ask), arrive)
    ensures Ready(hash, w', r) && w'.answers == w.answers + [answer]
    ensures w'.broker == w.broker.(remaining := w.broker.remaining - 1, lastTick := tick)
  {
    w' := Apply(hash, Apply(hash, w, Ask(r, Some(tick))), Arrive(0, Some(tick), Answered(answer)));
  }

  /** Asking in turn, in time and for the granted request, a caller receives as many answers as the
      grant has attempts. */
  lemma {:induction false} GrantCanBeUsedUp(
      hash: Hash, w: World, r: Request, ticks: seq<real>, answers: seq<WireBody>)
    requires |ticks| == |answers| <= w.broker.remaining
    requires Ready(hash, w, r) && Rising(w.broker.lastTick, ticks, w.broker.grant.deadline)
    ensures Run(hash, w, Rounds(r, ticks, answers))
    ensures After(hash, w, Rounds(r, ticks, answers)).answers == w.answers + answers
    decreases |ticks|
  {
    if ticks != [] {
      var ask, arrive := Ask(r, Some(ticks[0])), Arrive(0, Some(ticks[0]), Answered(answers[0]));
      var actions, later := Rounds(r, ticks, answers), Rounds(r, ticks[1..], answers[1..]);
      var w' := OneRound(hash, w, r, ticks[0], answers[0]);
      GrantCanBeUsedUp(hash, w', r, ticks[1..], answers[1..]);
      assert actions[1..] == [arrive] + later && actions[1..][1..] == later;
      assert answers == [answers[0]] + answers[1..];
    }
  }
}
