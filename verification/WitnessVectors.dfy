/** A published witness-v1 vector: the encoding of one program, byte by byte. It pins the tags, the order
of the fields and the counts to what other implementations read.
*/
module WitnessVectors {
  import opened Wrappers
  import opened ByteCodec
  import opened WitnessCodec
  import opened WitnessManifest

  const Header: Bytes := [1, 1]

  const Program: seq<Rule> := [
    Rule([Carrying(false), AtSource(true)], Pickup, None),
    Rule([Carrying(true), AtBeacon(true)], Drop, Some(Remember(0, 1))),
    Rule([Blocked(Forward, false)], Move(Forward), None),
    Rule([], Turn(Left), None)]

  const RuleVectors: seq<Bytes> := [
    [2, 1, 0, 2, 1, 3, 0],
    [2, 1, 1, 4, 1, 4, 1, 0, 1],
    [1, 6, 1, 0, 1, 1, 0],
    [0, 2, 2, 0]]

  const ProgramVector: Bytes :=
    Header + ([4] + (RuleVectors[0] + (RuleVectors[1] + (RuleVectors[2] + (RuleVectors[3] + [])))))

  lemma {:induction false} EachAppends<T>(enc: T -> Bytes, x: T, xs: seq<T>)
    ensures Each(enc, [x] + xs) == enc(x) + Each(enc, xs)
  {
    assert ([x] + xs)[1..] == xs;
  }

  lemma RulesOfTheProgram()
    ensures forall i | 0 <= i < 4 :: RuleBytes(Program[i]) == RuleVectors[i]
  {
    TwoElements(ConditionBytes, Carrying(false), AtSource(true));
    TwoElements(ConditionBytes, Carrying(true), AtBeacon(true));
    OneElement(ConditionBytes, Blocked(Forward, false));
  }

  lemma TwoElements<T>(enc: T -> Bytes, x: T, y: T)
    ensures ListBytes(B1, enc, [x, y]) == [2] + (enc(x) + enc(y))
  {
    assert [x, y] == [x] + [y] && [y] == [y] + [];
    EachAppends(enc, x, [y]);
    EachAppends(enc, y, []);
    assert enc(y) + [] == enc(y);
  }

  lemma AllRules()
    ensures Each(RuleBytes, Program)
         == RuleBytes(Program[0]) + (RuleBytes(Program[1]) + (RuleBytes(Program[2]) + (RuleBytes(Program[3]) + [])))
  {
    assert Program == [Program[0]] + ([Program[1]] + ([Program[2]] + ([Program[3]] + [])));
    EachAppends(RuleBytes, Program[3], []);
    EachAppends(RuleBytes, Program[2], [Program[3]] + []);
    EachAppends(RuleBytes, Program[1], [Program[2]] + ([Program[3]] + []));
    EachAppends(RuleBytes, Program[0], [Program[1]] + ([Program[2]] + ([Program[3]] + [])));
  }

  /** The program of the published vector has the published bytes. */
  lemma ProgramHasItsVector()
    ensures Header + ProgramBytes(Program) == ProgramVector
  {
    RulesOfTheProgram();
    AllRules();
  }
}
