/** Sender egress: authenticated output staged through a queue of capacity one.

The first `oldItems` of `items` outputs belong to the epoch a single control closes. Items are captured
in order; an item of the new epoch may leave only behind the control.
*/
module PrivateEgress {
  /** The items from the first to the `n`-th. */
  function UpTo(n: nat): (s: set<nat>)
    ensures forall i :: i in s <==> 1 <= i <= n
  {
    if n == 0 then {} else UpTo(n - 1) + {n}
  }

  datatype Setting = Setting(items: nat, oldItems: nat) {
    predicate Valid() {
      1 <= items && oldItems <= items
    }

    function Old(): set<nat> {
      UpTo(oldItems)
    }
  }

  datatype State = State(captured: nat, queue: set<nat>, retained: set<nat>, control: bool,
                         admittedAtCutover: set<nat>)

  const INITIAL := State(1, {1}, {}, false, {})

  datatype Action = Capture | SendItem(i: nat) | SendControl

  predicate Enabled(c: Setting, a: Action, s: State) {
    match a
    case Capture => s.captured < c.items && s.queue == {}
    case SendItem(i) => 1 <= i <= c.items && i in s.queue && (i in c.Old() || s.control)
    case SendControl => !s.control && (s.captured == c.items || s.queue != {}) && s.queue * c.Old() == {}
  }

  function Apply(a: Action, s: State): State {
    match a
    case Capture =>
      s.(captured := s.captured + 1,
         queue := if s.captured + 1 in s.retained then {} else {s.captured + 1})
    case SendItem(i) => s.(queue := {}, retained := s.retained + {i})
    case SendControl => s.(control := true, admittedAtCutover := s.retained)
  }

  function After(run: seq<Action>): State {
    if run == [] then INITIAL else Apply(run[|run| - 1], After(run[..|run| - 1]))
  }

  predicate Legal(c: Setting, run: seq<Action>) {
    run == []
    || (Legal(c, run[..|run| - 1]) && Enabled(c, run[|run| - 1], After(run[..|run| - 1])))
  }

  // ---------------------------------------------------------------------------------------
  // What leaves the sender

  datatype Output = Item(i: nat) | Control

  function Sent(run: seq<Action>): seq<Output> {
    if run == [] then []
    else
      Sent(run[..|run| - 1]) + match run[|run| - 1]
                               case Capture => []
                               case SendItem(i) => [Item(i)]
                               case SendControl => [Control]
  }

  /** Items after the `from`-th up to the `to`-th, in order. */
  function Items(from: nat, to: nat): (out: seq<Output>)
    requires from <= to
    ensures |out| == to - from
  {
    seq(to - from, i requires 0 <= i < to - from => Item(from + 1 + i))
  }

  /** The one order in which a complete run may emit. */
  function Canonical(c: Setting): seq<Output>
    requires c.Valid()
  {
    Items(0, c.oldItems) + [Control] + Items(c.oldItems, c.items)
  }

  /** How many captured items have left the queue. */
  function Left(s: State): nat
    requires s.captured >= 1
  {
    if s.queue == {} then s.captured else s.captured - 1
  }

  /** The outputs of a run that has sent the first `left` items. */
  function Progress(c: Setting, left: nat, control: bool): seq<Output>
    requires if control then c.oldItems <= left else left <= c.oldItems
  {
    if control then Items(0, c.oldItems) + [Control] + Items(c.oldItems, left) else Items(0, left)
  }

  predicate Inv(c: Setting, s: State) {
    && 1 <= s.captured <= c.items
    && (s.queue == {} || s.queue == {s.captured})
    && s.retained == UpTo(Left(s))
    && (if s.control then c.oldItems <= Left(s) else Left(s) <= c.oldItems)
    && s.admittedAtCutover == if s.control then c.Old() else {}
  }

  lemma StepKeepsInv(c: Setting, s: State, a: Action)
    requires c.Valid() && Inv(c, s) && Enabled(c, a, s)
    ensures Inv(c, Apply(a, s)) && Apply(a, s).captured == s.captured + if a.Capture? then 1 else 0
    ensures match a
            case Capture => Left(Apply(a, s)) == Left(s) && Apply(a, s).control == s.control
            case SendItem(i) => Left(Apply(a, s)) == Left(s) + 1 == i && Apply(a, s).control == s.control
            case SendControl => Left(Apply(a, s)) == Left(s) == c.oldItems && Apply(a, s).control && !s.control
  {
    var s' := Apply(a, s);
    match a {
      case Capture =>
      case SendItem(i) => assert s'.retained == UpTo(Left(s'));
      case SendControl =>
        if s.queue != {} {
          assert s.captured in s.queue;
          assert s.captured !in c.Old();
        }
        assert Left(s) == c.oldItems;
    }
  }

  lemma {:induction false} RunFollowsCanonical(c: Setting, run: seq<Action>)
    requires c.Valid() && Legal(c, run)
    ensures Inv(c, After(run))
    ensures Sent(run) == Progress(c, Left(After(run)), After(run).control)
    ensures |run| == After(run).captured - 1 + |Sent(run)|
    decreases |run|
  {
    if run != [] {
      var before, a := run[..|run| - 1], run[|run| - 1];
      var s := After(before);
      RunFollowsCanonical(c, before);
      StepKeepsInv(c, s, a);
      if a.SendItem? {
        ItemsGrow(if s.control then c.oldItems else 0, Left(s));
      }
    }
  }

  lemma ItemsGrow(from: nat, to: nat)
    requires from <= to
    ensures Items(from, to + 1) == Items(from, to) + [Item(to + 1)]
  {
  }

  lemma ProgressIsPrefix(c: Setting, left: nat, control: bool)
    requires c.Valid() && left <= c.items && if control then c.oldItems <= left else left <= c.oldItems
    ensures Progress(c, left, control) <= Canonical(c)
  {
    if control {
      assert Items(c.oldItems, left) <= Items(c.oldItems, c.items);
    } else {
      assert Items(0, left) <= Items(0, c.oldItems);
    }
  }

  /** In every run, whatever has been sent is a prefix of the canonical order, and the control
      was admitted behind exactly the old items. */
  lemma OutputIsCanonical(c: Setting, run: seq<Action>)
    requires c.Valid() && Legal(c, run)
    ensures Sent(run) <= Canonical(c)
    ensures After(run).control <==> Control in Sent(run)
    ensures After(run).control ==> After(run).admittedAtCutover == c.Old()
  {
    RunFollowsCanonical(c, run);
    var s := After(run);
    ProgressIsPrefix(c, Left(s), s.control);
    if s.control {
      assert Progress(c, Left(s), true)[c.oldItems] == Control;
    }
  }

  ghost predicate Maximal(c: Setting, run: seq<Action>) {
    Legal(c, run) && forall a :: !Enabled(c, a, After(run))
  }

  /** No run is longer than two steps per item, and a run can go no further exactly when it has
      taken them all and sent the whole canonical order. */
  lemma MaximalRunsAreComplete(c: Setting, run: seq<Action>)
    requires c.Valid() && Legal(c, run)
    ensures |run| <= 2 * c.items
    ensures Maximal(c, run) <==> |run| == 2 * c.items
    ensures Maximal(c, run) <==> Sent(run) == Canonical(c)
    ensures Maximal(c, run) ==> After(run).retained == UpTo(c.items)
  {
    RunFollowsCanonical(c, run);
    var s := After(run);
    if s.queue == {} && s.captured < c.items {
      assert Enabled(c, Capture, s);
    } else if !s.control && s.captured > c.oldItems && s.queue != {} {
      assert Enabled(c, SendControl, s);
    } else if !s.control && s.queue == {} {
      assert Enabled(c, SendControl, s);
    } else if s.queue != {} {
      assert s.captured in s.queue;
      assert Enabled(c, SendItem(s.captured), s);
    }
    assert |Canonical(c)| == c.items + 1;
  }

  /** At most one action is ever possible, so there is one run of each length. */
  lemma {:induction false} RunsAreUnique(c: Setting, run: seq<Action>, run': seq<Action>)
    requires c.Valid() && Legal(c, run) && Legal(c, run') && |run| == |run'|
    ensures run == run'
    decreases |run|
  {
    if run != [] {
      var before, before' := run[..|run| - 1], run'[..|run| - 1];
      RunsAreUnique(c, before, before');
      RunFollowsCanonical(c, before);
      OneActionAtATime(c, After(before), run[|run| - 1], run'[|run| - 1]);
      assert run == before + [run[|run| - 1]];
      assert run' == before' + [run'[|run| - 1]];
    }
  }

  lemma OneActionAtATime(c: Setting, s: State, a: Action, b: Action)
    requires Inv(c, s) && Enabled(c, a, s) && Enabled(c, b, s)
    ensures a == b
  {
    if s.queue != {} {
      assert s.captured in s.queue;
      assert s.captured in c.Old() ==> s.captured in s.queue * c.Old();
    }
  }
}
