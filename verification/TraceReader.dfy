/** Reading a counterexample: the order in which a model checker's records may follow each other.

A record comes with the text up to the next record, already split at the variable assignments in it.
*/
module TraceReader {
  import opened Wrappers
  import opened ConfigLexer
  import opened ConfigGrammar
  import ConfigDeclarations

  datatype Assignment = Assignment(name: string, value: string)

  /** The text behind a record: what precedes the first assignment, and the assignments. */
  datatype Body = Body(intro: string, assignments: seq<Assignment>)

  datatype Marker =
    | State(number: nat, title: string, body: Body)
    | Back(number: nat, body: Body)
    | Temporal
    | Statistics
    | Finished

  datatype Loop = Stuttering(state: nat) | BackEdge(state: nat)

  datatype TraceState = TraceState(state: nat, action: string, title: string, body: Body)

  datatype Trace = Trace(states: seq<TraceState>, loop: Option<Loop>)

  predicate IsBlank(s: string) {
    forall c | c in s :: IsSpace(c)
  }

  predicate IsBlankBody(body: Body) {
    IsBlank(body.intro) && body.assignments == []
  }

  predicate Assigned(body: Body, name: string) {
    exists i | 0 <= i < |body.assignments| :: body.assignments[i].name == name
  }

  /** Every variable is assigned exactly once, to something, and nothing stands before. */
  predicate IsValuation(variables: set<string>, body: Body) {
    && body.assignments != []
    && (forall v | v in variables :: Assigned(body, v))
    && (forall i | 0 <= i < |body.assignments| :: body.assignments[i].name in variables)
    && (forall i, j | 0 <= i < j < |body.assignments| ::
          body.assignments[i].name != body.assignments[j].name)
    && IsBlank(body.intro)
    && (forall i | 0 <= i < |body.assignments| :: !IsBlank(body.assignments[i].value))
  }

  /** The name of the action in a title such as `<Send line 3>`. */
  function ActionName(title: string): Option<string> {
    if |title| < 3 || title[0] != '<' || title[|title| - 1] != '>' || !IsIdentStart(title[1]) then None
    else
      var inner := title[1..|title| - 1];
      var k := IdentLength(inner);
      if k == |inner| || IsSpace(inner[k]) then Some(inner[..k]) else None
  }

  // ---------------------------------------------------------------------------------------
  // What the checks of a record mean

  /** The text of a body, its assignments written out. */
  function TextOf(body: Body): string {
    body.intro + TextOfAll(body.assignments)
  }

  function TextOfAll(assignments: seq<Assignment>): string {
    if assignments == [] then ""
    else (assignments[0].name + ("=" + assignments[0].value)) + TextOfAll(assignments[1..])
  }

  /** A body is blank exactly when its text is. */
  lemma BlankBodyHasBlankText(body: Body)
    ensures IsBlankBody(body) <==> IsBlank(TextOf(body))
  {
    if body.assignments == [] {
      assert TextOf(body) == body.intro;
    } else {
      var first := body.assignments[0];
      var text := TextOf(body);
      assert text[|body.intro| + |first.name|] == '=';
      assert '=' in text && !IsSpace('=');
    }
  }

  /** The title is the name between angle brackets, perhaps with a space and more behind the name. */
  predicate IsTitled(title: string, name: string) {
    && ConfigDeclarations.IsIdentifier(name) && |title| >= |name| + 2
    && title[0] == '<' && title[1..|name| + 1] == name && title[|title| - 1] == '>'
    && (|title| == |name| + 2 || IsSpace(title[|name| + 1]))
  }

  /** The action named by a title, wherever there is one. */
  lemma ActionNameMeaning(title: string, name: string)
    ensures ActionName(title) == Some(name) <==> IsTitled(title, name)
  {
    if |title| >= 3 {
      var inner := title[1..|title| - 1];
      NameMeaning(inner);
      ConfigDeclarations.IdentifierMeaning(name);
      var k := IdentLength(inner);
      assert inner[0] == title[1];
      if ActionName(title) == Some(name) {
        assert name == inner[..k] && forall i | 0 <= i < k :: name[i] == inner[i];
        assert title[1..k + 1] == inner[..k];
      }
      if IsTitled(title, name) {
        assert forall i | 0 <= i < |name| :: inner[i] == name[i];
        assert |name| < |inner| ==> inner[|name|] == title[|name| + 1] && !IsIdentChar(inner[|name|]);
        assert k == |name|;
        assert inner[..k] == name;
      }
    }
  }

  function NamesOf(assignments: seq<Assignment>): seq<string> {
    seq(|assignments|, i requires 0 <= i < |assignments| => assignments[i].name)
  }

  /** The checks of a state's body: every variable is assigned exactly once, to something, and nothing
      stands before. */
  method CheckBody(variables: set<string>, body: Body) returns (ok: bool)
    ensures ok == IsValuation(variables, body)
  {
    var names := NamesOf(body.assignments);
    ConfigDeclarations.DistinctExactlyWhenCounted(names);
    assert forall i | 0 <= i < |names| :: names[i] == body.assignments[i].name;
    if ConfigDeclarations.ToSet(names) != variables || |names| != |ConfigDeclarations.ToSet(names)| || names == [] || !IsBlank(body.intro) {
      NamesCover(variables, body);
      return false;
    }
    NamesCover(variables, body);
    for at := 0 to |body.assignments|
      invariant forall i | 0 <= i < at :: !IsBlank(body.assignments[i].value)
    {
      if IsBlank(body.assignments[at].value) {
        return false;
      }
    }
    return true;
  }

  lemma NamesCover(variables: set<string>, body: Body)
    ensures var names := NamesOf(body.assignments);
            ConfigDeclarations.ToSet(names) == variables <==>
            && (forall v | v in variables :: Assigned(body, v))
            && forall i | 0 <= i < |body.assignments| :: body.assignments[i].name in variables
  {
    var names := NamesOf(body.assignments);
    assert forall i | 0 <= i < |names| :: names[i] == body.assignments[i].name && names[i] in names;
    forall v ensures v in names <==> Assigned(body, v) {
      if Assigned(body, v) {
        var i :| 0 <= i < |body.assignments| && body.assignments[i].name == v;
        assert names[i] == v;
      }
    }
    if ConfigDeclarations.ToSet(names) == variables {
      forall i | 0 <= i < |body.assignments| ensures body.assignments[i].name in variables {
        assert names[i] in ConfigDeclarations.ToSet(names);
      }
    }
  }

  // ---------------------------------------------------------------------------------------
  // The accepted records

  datatype Shape = Shape(count: nat, terminal: bool, temporal: bool)

  predicate IsState(variables: set<string>, m: Marker, earlier: nat) {
    && m.State? && m.number == earlier + 1 && m.title != "Stuttering"
    && (earlier == 0 ==> m.title == "<Initial predicate>")
    && ActionName(m.title).Some?
    && IsValuation(variables, m.body)
  }

  predicate IsTerminal(m: Marker, earlier: nat) {
    || (m.State? && m.number == earlier + 1 && m.title == "Stuttering" && IsBlankBody(m.body))
    || (m.Back? && 1 <= m.number <= earlier && IsBlankBody(m.body))
  }

  function Bit(b: bool): nat {
    if b then 1 else 0
  }

  /** Consecutive states from 1, perhaps a loop, only then perhaps the completion of the temporal
      check, one statistics record and one finish. */
  predicate HasShape(variables: set<string>, ms: seq<Marker>, sh: Shape) {
    && sh.count >= 1
    && |ms| == sh.count + Bit(sh.terminal) + Bit(sh.temporal) + 2
    && (forall i | 0 <= i < sh.count :: IsState(variables, ms[i], i))
    && (sh.terminal ==> IsTerminal(ms[sh.count], sh.count))
    && (sh.temporal ==> sh.terminal && ms[sh.count + 1].Temporal?)
    && ms[|ms| - 2].Statistics?
    && ms[|ms| - 1].Finished?
  }

  function StateRead(m: Marker, first: bool): TraceState
    requires m.State? && ActionName(m.title).Some?
  {
    TraceState(m.number, if first then "Init" else ActionName(m.title).value, m.title, m.body)
  }

  function LoopRead(m: Marker, count: nat): Loop
    requires IsTerminal(m, count)
  {
    if m.Back? then BackEdge(m.number) else Stuttering(count)
  }

  /** The trace in records of the given shape: all the states, in order, and the loop. */
  function TraceOf(variables: set<string>, ms: seq<Marker>, sh: Shape): Trace
    requires HasShape(variables, ms, sh)
  {
    Trace(seq(sh.count, i requires 0 <= i < sh.count => StateRead(ms[i], i == 0)),
          if sh.terminal then Some(LoopRead(ms[sh.count], sh.count)) else None)
  }

  // ---------------------------------------------------------------------------------------
  // Reading

  datatype Stage = InTrace | TemporalComplete | AtStatistics | AtFinish

  function Completed(stage: Stage): nat {
    match stage case InTrace => 0 case TemporalComplete => 0 case AtStatistics => 1 case AtFinish => 2
  }

  /** The first `n` records have been read, and have this shape so far. */
  ghost predicate ReadSoFar(variables: set<string>, ms: seq<Marker>, n: nat, sh: Shape, stage: Stage) {
    && n <= |ms|
    && n == sh.count + Bit(sh.terminal) + Bit(sh.temporal) + Completed(stage)
    && (forall i | 0 <= i < sh.count :: IsState(variables, ms[i], i))
    && (sh.terminal ==> sh.count >= 1 && IsTerminal(ms[sh.count], sh.count))
    && (sh.temporal ==> sh.terminal && ms[sh.count + 1].Temporal?)
    && (stage == InTrace ==> !sh.temporal)
    && (stage == TemporalComplete ==> sh.temporal)
    && (Completed(stage) >= 1 ==>
          sh.count >= 1 && ms[sh.count + Bit(sh.terminal) + Bit(sh.temporal)].Statistics?)
    && (stage == AtFinish ==> ms[n - 1].Finished?)
  }

  /** Records already read have the shape that the whole has, if it has one. */
  lemma ShapeAgrees(variables: set<string>, ms: seq<Marker>, n: nat, sh: Shape, stage: Stage, whole: Shape)
    requires ReadSoFar(variables, ms, n, sh, stage) && HasShape(variables, ms, whole)
    ensures sh.count <= whole.count
    ensures sh.terminal || Completed(stage) > 0 ==> sh.count == whole.count
    ensures sh.terminal ==> whole.terminal
    ensures sh.temporal ==> whole.temporal
    ensures Completed(stage) > 0 ==> sh == whole
  {
    assert forall i | 0 <= i < |ms| && IsState(variables, ms[i], i) :: ms[i].State? && !IsTerminal(ms[i], i);
  }

  /** A record may follow `count` states, perhaps a loop, and what has ended already. */
  predicate Follows(variables: set<string>, count: nat, looped: bool, stage: Stage, m: Marker) {
    match m
    case State(_, _, _) =>
      stage == InTrace && !looped
      && (IsState(variables, m, count) || (count >= 1 && IsTerminal(m, count)))
    case Back(_, _) => stage == InTrace && !looped && IsTerminal(m, count)
    case Temporal => stage == InTrace && looped
    case Statistics => count >= 1 && (stage == InTrace || stage == TemporalComplete)
    case Finished => stage == AtStatistics
  }

  lemma RecordsOfAShapeFollow(
      variables: set<string>, ms: seq<Marker>, n: nat, sh: Shape, stage: Stage, whole: Shape)
    requires ReadSoFar(variables, ms, n, sh, stage) && HasShape(variables, ms, whole) && n < |ms|
    ensures Follows(variables, sh.count, sh.terminal, stage, ms[n])
  {
    ShapeAgrees(variables, ms, n, sh, stage, whole);
    if stage == InTrace && !sh.terminal && sh.count < whole.count {
      assert IsState(variables, ms[n], n);
    }
  }

  function ShapeBehind(sh: Shape, m: Marker): Shape {
    match m
    case State(_, title, _) => if title == "Stuttering" then sh.(terminal := true) else sh.(count := sh.count + 1)
    case Back(_, _) => sh.(terminal := true)
    case Temporal => sh.(temporal := true)
    case _ => sh
  }

  function StageBehind(stage: Stage, m: Marker): Stage {
    match m
    case State(_, _, _) => stage
    case Back(_, _) => stage
    case Temporal => TemporalComplete
    case Statistics => AtStatistics
    case Finished => AtFinish
  }

  lemma FollowingExtends(variables: set<string>, ms: seq<Marker>, n: nat, sh: Shape, stage: Stage)
    requires ReadSoFar(variables, ms, n, sh, stage) && n < |ms|
    requires Follows(variables, sh.count, sh.terminal, stage, ms[n])
    ensures ReadSoFar(variables, ms, n + 1, ShapeBehind(sh, ms[n]), StageBehind(stage, ms[n]))
  {
  }

  /** Records have at most one shape. */
  lemma ShapeIsUnique(variables: set<string>, ms: seq<Marker>, sh: Shape, sh': Shape)
    requires HasShape(variables, ms, sh) && HasShape(variables, ms, sh')
    ensures sh == sh'
  {
    assert ReadSoFar(variables, ms, |ms|, sh, AtFinish);
    ShapeAgrees(variables, ms, |ms|, sh, AtFinish, sh');
  }

  ghost predicate Accepted(variables: set<string>, ms: seq<Marker>) {
    exists sh :: HasShape(variables, ms, sh)
  }

  /** A record that may not follow leaves the whole without a shape. */
  lemma RefusedHasNoShape(variables: set<string>, ms: seq<Marker>, n: nat, sh: Shape, stage: Stage)
    requires ReadSoFar(variables, ms, n, sh, stage) && n < |ms|
    requires !Follows(variables, sh.count, sh.terminal, stage, ms[n])
    ensures !Accepted(variables, ms)
  {
    if whole :| HasShape(variables, ms, whole) {
      RecordsOfAShapeFollow(variables, ms, n, sh, stage, whole);
    }
  }

  ghost predicate TraceSoFar(ms: seq<Marker>, sh: Shape, t: Trace) {
    && sh.count + Bit(sh.terminal) <= |ms|
    && |t.states| == sh.count
    && (forall i | 0 <= i < sh.count ::
          ms[i].State? && ActionName(ms[i].title).Some? && t.states[i] == StateRead(ms[i], i == 0))
    && t.loop.Some? == sh.terminal
    && (sh.terminal ==> IsTerminal(ms[sh.count], sh.count) && t.loop.value == LoopRead(ms[sh.count], sh.count))
  }

  function TraceBehind(variables: set<string>, t: Trace, stage: Stage, m: Marker): Trace
    requires Follows(variables, |t.states|, t.loop.Some?, stage, m)
  {
    if !m.State? && !m.Back? then t
    else if IsTerminal(m, |t.states|) then t.(loop := Some(LoopRead(m, |t.states|)))
    else t.(states := t.states + [StateRead(m, t.states == [])])
  }

  lemma TraceSoFarStep(variables: set<string>, ms: seq<Marker>, n: nat, sh: Shape, stage: Stage, t: Trace)
    requires ReadSoFar(variables, ms, n, sh, stage) && n < |ms| && TraceSoFar(ms, sh, t)
    requires Follows(variables, sh.count, sh.terminal, stage, ms[n])
    ensures TraceSoFar(ms, ShapeBehind(sh, ms[n]), TraceBehind(variables, t, stage, ms[n]))
  {
  }

  /** One turn of the reading loop. */
  method ReadRecord(variables: set<string>, m: Marker, t: Trace, expected: nat, stage: Stage)
    returns (ok: bool, t': Trace, expected': nat, stage': Stage)
    requires t.loop == None ==> expected == |t.states| + 1
    requires stage != InTrace ==> t.states != []
    requires t.loop.Some? ==> t.states != []
    ensures ok == Follows(variables, |t.states|, t.loop.Some?, stage, m)
    ensures ok ==> t' == TraceBehind(variables, t, stage, m) && stage' == StageBehind(stage, m)
    ensures ok && t'.loop == None ==> expected' == |t'.states| + 1
  {
    ok, t', expected', stage' := false, t, expected, stage;
    if (m.State? || m.Back?) && stage != InTrace {
      return;
    }
    match m
    case Back(number, body) =>
      if t.loop.Some? || t.states == [] || !(1 <= number <= |t.states|) || !IsBlankBody(body) {
        return;
      }
      t' := t.(loop := Some(BackEdge(number)));
      ok := true;
    case State(number, title, body) =>
      if t.loop.Some? || number != expected {
        return;
      }
      expected' := expected + 1;
      if title == "Stuttering" {
        if t.states == [] || !IsBlankBody(body) {
          return;
        }
        t' := t.(loop := Some(Stuttering(|t.states|)));
        ok := true;
      } else {
        if t.states == [] && title != "<Initial predicate>" {
          return;
        }
        var action := ActionName(title);
        var valued := CheckBody(variables, body);
        if action == None || !valued {
          return;
        }
        var read := TraceState(number, if t.states == [] then "Init" else action.value, title, body);
        t' := t.(states := t.states + [read]);
        ok := true;
      }
    case Temporal =>
      ok, stage' := t.states != [] && stage == InTrace && t.loop.Some?, TemporalComplete;
    case Finished =>
      ok, stage' := t.states != [] && stage == AtStatistics, AtFinish;
    case Statistics =>
      ok, stage' := t.states != [] && (stage == InTrace || stage == TemporalComplete), AtStatistics;
  }

  /** Accepts exactly the record sequences that have a shape, and returns the trace in them. */
  method ParseTrace(variables: set<string>, ms: seq<Marker>) returns (trace: Option<Trace>)
    ensures trace.Some? <==> Accepted(variables, ms)
    ensures forall sh | HasShape(variables, ms, sh) :: trace == Some(TraceOf(variables, ms, sh))
  {
    var t, expected, stage := Trace([], None), 1, InTrace;
    ghost var sh := Shape(0, false, false);
    for index := 0 to |ms|
      invariant ReadSoFar(variables, ms, index, sh, stage) && TraceSoFar(ms, sh, t)
      invariant t.loop == None ==> expected == |t.states| + 1
    {
      var ok, t', expected', stage' := ReadRecord(variables, ms[index], t, expected, stage);
      if !ok {
        RefusedHasNoShape(variables, ms, index, sh, stage);
        return None;
      }
      FollowingExtends(variables, ms, index, sh, stage);
      TraceSoFarStep(variables, ms, index, sh, stage, t);
      t, expected, stage, sh := t', expected', stage', ShapeBehind(sh, ms[index]);
    }
    if t.states == [] || stage != AtFinish {
      UnfinishedHasNoShape(variables, ms, sh, stage);
      return None;
    }
    FinishedHasShape(variables, ms, sh, t);
    return Some(t);
  }

  lemma UnfinishedHasNoShape(variables: set<string>, ms: seq<Marker>, sh: Shape, stage: Stage)
    requires ReadSoFar(variables, ms, |ms|, sh, stage) && (sh.count == 0 || stage != AtFinish)
    ensures !Accepted(variables, ms)
  {
    if whole :| HasShape(variables, ms, whole) {
      ShapeAgrees(variables, ms, |ms|, sh, stage, whole);
    }
  }

  lemma FinishedHasShape(variables: set<string>, ms: seq<Marker>, sh: Shape, t: Trace)
    requires ReadSoFar(variables, ms, |ms|, sh, AtFinish) && TraceSoFar(ms, sh, t)
    ensures HasShape(variables, ms, sh) && t == TraceOf(variables, ms, sh)
    ensures forall other | HasShape(variables, ms, other) :: other == sh
  {
    forall other | HasShape(variables, ms, other) ensures other == sh {
      ShapeIsUnique(variables, ms, sh, other);
    }
  }
}
