/** The invariants and properties that a model configuration declares. */
module ConfigDeclarations {
  import opened Wrappers
  import opened ConfigLexer
  import ConfigGrammar

  const InvariantWords: set<string> := {"INVARIANT", "INVARIANTS"}
  const PropertyWords: set<string> := {"PROPERTY", "PROPERTIES"}
  const Keywords: set<string> := InvariantWords + PropertyWords
  const Sections: set<string> :=
    Keywords + {"SPECIFICATION", "INIT", "NEXT", "CONSTANT", "CONSTANTS", "CONSTRAINT", "CONSTRAINTS",
                "ACTION_CONSTRAINT", "ACTION_CONSTRAINTS", "VIEW", "SYMMETRY", "ALIAS",
                "POSTCONDITION", "CHECK_DEADLOCK"}

  datatype Declarations = Declarations(invariants: seq<string>, properties: seq<string>)

  predicate IsIdentifier(w: string) {
    w != "" && IsIdentStart(w[0]) && IdentLength(w) == |w|
  }

  /** An identifier begins like a name and goes on like one to its end. */
  lemma IdentifierMeaning(w: string)
    ensures IsIdentifier(w) <==> w != "" && IsIdentStart(w[0]) && forall i | 0 <= i < |w| :: IsIdentChar(w[i])
  {
    ConfigGrammar.NameMeaning(w);
    if forall i | 0 <= i < |w| :: IsIdentChar(w[i]) {
      ConfigGrammar.AllNameCharacters(w);
    }
  }

  // ---------------------------------------------------------------------------------------
  // What a configuration declares

  /** The nearest section word before the end of these words is one of `keys`. */
  predicate Governed(words: seq<string>, keys: set<string>) {
    words != [] &&
    var last := words[|words| - 1];
    if last in Sections then last in keys else Governed(words[..|words| - 1], keys)
  }

  /** The names standing under the keywords `keys`, in order. */
  function Declared(words: seq<string>, keys: set<string>): seq<string> {
    if words == [] then []
    else
      var before, last := words[..|words| - 1], words[|words| - 1];
      Declared(before, keys) + if last !in Sections && Governed(before, keys) then [last] else []
  }

  predicate Distinct(names: seq<string>) {
    forall i, j | 0 <= i < j < |names| :: names[i] != names[j]
  }

  /** The word at `g` is a keyword without a name. */
  predicate EmptyAt(words: seq<string>, g: nat) {
    g < |words| && words[g] in Keywords && (g + 1 == |words| || words[g + 1] in Sections)
  }

  /** The word at `j` stands behind one of `keys`, with no section word between. */
  predicate StandsUnder(words: seq<string>, j: nat, keys: set<string>) {
    j < |words| && words[j] !in Sections && Governed(words[..j], keys)
  }

  predicate UnsupportedAt(words: seq<string>, j: nat) {
    StandsUnder(words, j, Keywords) && !IsIdentifier(words[j])
  }

  predicate WellFormed(words: seq<string>) {
    && (forall g | 0 <= g < |words| :: !EmptyAt(words, g))
    && (forall j | 0 <= j < |words| :: !UnsupportedAt(words, j))
    && Distinct(Declared(words, InvariantWords))
    && Distinct(Declared(words, PropertyWords))
  }

  function Read(text: string): Option<Declarations> {
    var words :- Lex(text);
    if WellFormed(words)
    then Some(Declarations(Declared(words, InvariantWords), Declared(words, PropertyWords)))
    else None
  }

  lemma {:induction false} GovernedMeaning(words: seq<string>, keys: set<string>)
    requires keys <= Sections
    ensures Governed(words, keys) <==>
            exists g | 0 <= g < |words| ::
              words[g] in keys && forall j | g < j < |words| :: words[j] !in Sections
  {
    if words != [] {
      var n := |words| - 1;
      var before := words[..n];
      GovernedMeaning(before, keys);
      if words[n] !in Sections {
        if Governed(before, keys) {
          var g :| 0 <= g < n && before[g] in keys && forall j | g < j < n :: before[j] !in Sections;
          assert words[g] in keys && forall j | g < j < |words| :: words[j] !in Sections;
        }
        if g :| 0 <= g < |words| && words[g] in keys && forall j | g < j < |words| :: words[j] !in Sections {
          assert before[g] in keys && forall j | g < j < n :: before[j] !in Sections;
        }
      }
    }
  }

  ghost predicate NamedUnder(words: seq<string>, keys: set<string>, name: string) {
    exists j | 0 <= j < |words| :: StandsUnder(words, j, keys) && words[j] == name
  }

  lemma NamedUnderStep(words: seq<string>, keys: set<string>, name: string)
    requires words != []
    ensures
      var n := |words| - 1;
      NamedUnder(words, keys, name)
      == (NamedUnder(words[..n], keys, name) || (words[n] == name && StandsUnder(words, n, keys)))
  {
    var n := |words| - 1;
    var before := words[..n];
    forall j | 0 <= j < n ensures StandsUnder(before, j, keys) == StandsUnder(words, j, keys) {
      assert before[..j] == words[..j];
    }
    assert forall j | 0 <= j < n :: before[j] == words[j];
  }

  /** A name is declared exactly where it stands under one of the keywords. */
  lemma {:induction false} DeclaredMeaning(words: seq<string>, keys: set<string>, name: string)
    ensures name in Declared(words, keys) <==> NamedUnder(words, keys, name)
  {
    if words != [] {
      DeclaredMeaning(words[..|words| - 1], keys, name);
      NamedUnderStep(words, keys, name);
    }
  }

  /** The lists read from a configuration do not change when its comments become spaces. */
  lemma CommentsDeclareNothing(text: string)
    ensures Read(WithoutComments(text)) == Read(text)
  {
    CommentsAreSpaces(text);
  }

  lemma CommentTextDeclaresNothing(before: string, c: string, c': string, after: string)
    requires IsComment(c) && IsComment(c') && Boundary(before + c + after, |before|)
    ensures Read(before + c + after) == Read(before + c' + after)
  {
    CommentTextIsIrrelevant(before, c, c', after);
  }

  // ---------------------------------------------------------------------------------------
  // Quoted values

  predicate StartsQuoted(w: string) {
    w != "" && w[0] == '"'
  }

  /** The same words, but for what stands in quotes. */
  predicate Alike(words: seq<string>, words': seq<string>) {
    |words| == |words'| &&
    forall i | 0 <= i < |words| ::
      words[i] == words'[i] || (StartsQuoted(words[i]) && StartsQuoted(words'[i]))
  }

  lemma QuotedIsNoName(w: string)
    requires StartsQuoted(w)
    ensures w !in Sections && !IsIdentifier(w)
  {
    assert forall s | s in Sections :: s[0] != '"';
  }

  lemma AlikeBefore(words: seq<string>, words': seq<string>, j: nat)
    requires Alike(words, words') && j <= |words|
    ensures Alike(words[..j], words'[..j])
  {
  }

  lemma {:induction false} GovernedAlike(words: seq<string>, words': seq<string>, keys: set<string>)
    requires Alike(words, words')
    ensures Governed(words, keys) == Governed(words', keys)
  {
    if words != [] {
      var n := |words| - 1;
      AlikeBefore(words, words', n);
      GovernedAlike(words[..n], words'[..n], keys);
      if words[n] != words'[n] {
        QuotedIsNoName(words[n]);
        QuotedIsNoName(words'[n]);
      }
    }
  }

  lemma {:induction false} GovernedByMore(words: seq<string>, keys: set<string>, more: set<string>)
    requires keys <= more && Governed(words, keys)
    ensures Governed(words, more)
  {
    if words[|words| - 1] !in Sections {
      GovernedByMore(words[..|words| - 1], keys, more);
    }
  }

  lemma {:induction false} DeclaredAlike(words: seq<string>, words': seq<string>, keys: set<string>)
    requires Alike(words, words') && keys <= Keywords
    requires forall j | 0 <= j < |words| :: !UnsupportedAt(words, j)
    ensures Declared(words, keys) == Declared(words', keys)
  {
    if words != [] {
      var n := |words| - 1;
      var before, before' := words[..n], words'[..n];
      forall j | 0 <= j < n ensures !UnsupportedAt(before, j) {
        assert before[..j] == words[..j];
        assert !UnsupportedAt(words, j);
      }
      AlikeBefore(words, words', n);
      DeclaredAlike(before, before', keys);
      GovernedAlike(before, before', keys);
      if words[n] != words'[n] {
        QuotedIsNoName(words[n]);
        QuotedIsNoName(words'[n]);
        assert !UnsupportedAt(words, n);
        if Governed(before, keys) {
          GovernedByMore(before, keys, Keywords);
        }
      }
    }
  }

  lemma UnsupportedAlike(words: seq<string>, words': seq<string>, j: nat)
    requires Alike(words, words') && j < |words|
    ensures UnsupportedAt(words, j) == UnsupportedAt(words', j)
  {
    AlikeBefore(words, words', j);
    GovernedAlike(words[..j], words'[..j], Keywords);
    if words[j] != words'[j] {
      QuotedIsNoName(words[j]);
      QuotedIsNoName(words'[j]);
    }
  }

  lemma EmptyAlike(words: seq<string>, words': seq<string>, g: nat)
    requires Alike(words, words') && g < |words|
    ensures EmptyAt(words, g) == EmptyAt(words', g)
  {
    forall i | 0 <= i < |words| && words[i] != words'[i]
      ensures words[i] !in Sections && words'[i] !in Sections
    {
      QuotedIsNoName(words[i]);
      QuotedIsNoName(words'[i]);
    }
  }

  /** What stands in quotes decides neither whether a configuration is well formed nor what it
      declares. */
  lemma AlikeDeclareAlike(words: seq<string>, words': seq<string>)
    requires Alike(words, words')
    ensures WellFormed(words) == WellFormed(words')
    ensures WellFormed(words) ==>
              && Declared(words, InvariantWords) == Declared(words', InvariantWords)
              && Declared(words, PropertyWords) == Declared(words', PropertyWords)
  {
    forall j | 0 <= j < |words|
      ensures UnsupportedAt(words, j) == UnsupportedAt(words', j) && EmptyAt(words, j) == EmptyAt(words', j)
    {
      UnsupportedAlike(words, words', j);
      EmptyAlike(words, words', j);
    }
    if forall j | 0 <= j < |words| :: !UnsupportedAt(words, j) {
      DeclaredAlike(words, words', InvariantWords);
      DeclaredAlike(words, words', PropertyWords);
    }
  }

  predicate ResultsAlike(words: Option<seq<string>>, words': Option<seq<string>>) {
    words.Some? == words'.Some? && (words.Some? ==> Alike(words.value, words'.value))
  }

  lemma ReadAlike(text: string, text': string)
    requires ResultsAlike(Lex(text), Lex(text'))
    ensures Read(text) == Read(text')
  {
    if Lex(text).Some? {
      AlikeDeclareAlike(Lex(text).value, Lex(text').value);
    }
  }

  lemma OneQuotedApart(front: seq<string>, q: string, q': string, rest: Option<seq<string>>)
    requires StartsQuoted(q) && StartsQuoted(q')
    ensures ResultsAlike(Behind(front + Added(Word, q), rest), Behind(front + Added(Word, q'), rest))
  {
  }

  /** Exchanging one quoted value for another changes no declaration. */
  lemma QuotedTextDeclaresNothing(before: string, q: string, q': string, after: string)
    requires IsQuoted(q) && IsQuoted(q') && Boundary(before + q + after, |before|)
    ensures Read(before + q + after) == Read(before + q' + after)
  {
    var front := UnitsAreExchangeable(before, Word, q, q', after);
    OneQuotedApart(front, q, q', Lex(after));
    ReadAlike(before + q + after, before + q' + after);
  }

  // ---------------------------------------------------------------------------------------
  // Steps over the words

  lemma SectionWord(words: seq<string>, i: nat, keys: set<string>)
    requires i < |words| && words[i] in Sections
    ensures Declared(words[..i + 1], keys) == Declared(words[..i], keys)
    ensures Governed(words[..i + 1], keys) == (words[i] in keys)
  {
    assert words[..i + 1][..i] == words[..i];
  }

  lemma {:induction false} PlainWords(words: seq<string>, i: nat, end: nat, keys: set<string>)
    requires i <= end <= |words| && forall j | i <= j < end :: words[j] !in Sections
    ensures Governed(words[..end], keys) == Governed(words[..i], keys)
    ensures Declared(words[..end], keys)
         == Declared(words[..i], keys) + if Governed(words[..i], keys) then words[i..end] else []
    decreases end
  {
    if i < end {
      PlainWords(words, i, end - 1, keys);
      assert words[..end][..end - 1] == words[..end - 1];
      assert words[i..end] == words[i..end - 1] + [words[end - 1]];
    } else {
      assert words[i..end] == [];
    }
  }

  lemma GovernedUnion(words: seq<string>)
    ensures Governed(words, Keywords) == (Governed(words, InvariantWords) || Governed(words, PropertyWords))
  {
  }

  function ToSet(names: seq<string>): set<string> {
    set name | name in names
  }

  lemma {:induction false} DistinctExactlyWhenCounted(names: seq<string>)
    ensures |ToSet(names)| <= |names|
    ensures |ToSet(names)| == |names| <==> Distinct(names)
  {
    if names != [] {
      var n := |names| - 1;
      var before, last := names[..n], names[n];
      DistinctExactlyWhenCounted(before);
      assert names == before + [last];
      assert ToSet(names) == ToSet(before) + {last};
      if last in before {
        assert ToSet(names) == ToSet(before);
        var i :| 0 <= i < n && names[i] == last;
      } else {
        assert forall i, j | 0 <= i < j < n :: before[i] == names[i] && before[j] == names[j];
      }
    }
  }

  // ---------------------------------------------------------------------------------------
  // The reading loops

  method ReadNames(words: seq<string>, index: nat) returns (names: Option<seq<string>>)
    requires index < |words| && words[index] in Keywords
    ensures names == None ==> !WellFormed(words)
    ensures names.Some? ==>
              var end := index + 1 + |names.value|;
              && index + 1 < end <= |words|
              && names.value == words[index + 1..end]
              && (forall j | index < j < end :: words[j] !in Sections && IsIdentifier(words[j]))
              && (end < |words| ==> words[end] in Sections)
  {
    var j := index + 1;
    while j < |words| && words[j] !in Sections
      invariant index < j <= |words|
      invariant forall i | index < i < j :: words[i] !in Sections && IsIdentifier(words[i])
    {
      if !IsIdentifier(words[j]) {
        SectionWord(words, index, Keywords);
        PlainWords(words, index + 1, j, Keywords);
        assert UnsupportedAt(words, j);
        return None;
      }
      j := j + 1;
    }
    if j == index + 1 {
      assert EmptyAt(words, index);
      return None;
    }
    return Some(words[index + 1..j]);
  }

  /** The first `done` words have been read into the two lists. */
  ghost predicate ReadUpTo(words: seq<string>, done: nat, d: Declarations) {
    && done <= |words|
    && d.invariants == Declared(words[..done], InvariantWords)
    && d.properties == Declared(words[..done], PropertyWords)
    && (forall g | 0 <= g < done :: !EmptyAt(words, g))
    && (forall j | 0 <= j < done :: !UnsupportedAt(words, j))
    && (done < |words| && words[done] !in Sections ==> !Governed(words[..done], Keywords))
  }

  /** A word that is no keyword declares nothing and leaves nothing open. */
  lemma PassWord(words: seq<string>, index: nat, d: Declarations)
    requires ReadUpTo(words, index, d) && index < |words| && words[index] !in Keywords
    ensures ReadUpTo(words, index + 1, d)
  {
    GovernedUnion(words[..index]);
    if words[index] in Sections {
      SectionWord(words, index, InvariantWords);
      SectionWord(words, index, PropertyWords);
      SectionWord(words, index, Keywords);
    } else {
      PlainWords(words, index, index + 1, InvariantWords);
      PlainWords(words, index, index + 1, PropertyWords);
      PlainWords(words, index, index + 1, Keywords);
    }
  }

  /** The names behind a keyword extend its list and not the other. */
  lemma TakeNames(words: seq<string>, index: nat, end: nat, d: Declarations)
    requires ReadUpTo(words, index, d) && index + 1 < end <= |words| && words[index] in Keywords
    requires forall j | index < j < end :: words[j] !in Sections && IsIdentifier(words[j])
    requires end < |words| ==> words[end] in Sections
    ensures
      var names := words[index + 1..end];
      ReadUpTo(words, end,
               if words[index] in InvariantWords
               then d.(invariants := d.invariants + names)
               else d.(properties := d.properties + names))
  {
    KeywordsDiffer(words[index]);
    SectionWord(words, index, InvariantWords);
    SectionWord(words, index, PropertyWords);
    PlainWords(words, index + 1, end, InvariantWords);
    PlainWords(words, index + 1, end, PropertyWords);
    assert words[index + 1] !in Sections;
  }

  lemma KeywordsDiffer(word: string)
    ensures !(word in InvariantWords && word in PropertyWords)
  {
    assert forall w | w in InvariantWords :: w[0] == 'I';
  }

  method ReadWords(words: seq<string>) returns (result: Option<Declarations>)
    ensures result == None ==> !WellFormed(words)
    ensures result.Some? ==> ReadUpTo(words, |words|, result.value)
  {
    var d := Declarations([], []);
    ghost var done: nat := 0;
    for index := 0 to |words|
      invariant index <= done && ReadUpTo(words, done, d)
      invariant forall j | index <= j < done :: words[j] !in Sections
    {
      if words[index] in Keywords {
        var names := ReadNames(words, index);
        if names == None {
          return None;
        }
        done := index + 1 + |names.value|;
        TakeNames(words, index, done, d);
        d := if words[index] in InvariantWords
        then d.(invariants := d.invariants + names.value)
        else d.(properties := d.properties + names.value);
      } else if done == index {
        PassWord(words, index, d);
        done := index + 1;
      }
    }
    return Some(d);
  }

  method NamesAreDistinct(d: Declarations) returns (distinct: bool)
    ensures distinct == (Distinct(d.invariants) && Distinct(d.properties))
  {
    DistinctExactlyWhenCounted(d.invariants);
    DistinctExactlyWhenCounted(d.properties);
    return |d.invariants| == |ToSet(d.invariants)| && |d.properties| == |ToSet(d.properties)|;
  }

  method ConfigDeclarations(text: string) returns (result: Option<Declarations>)
    ensures result == Read(text)
  {
    var words := Tokens(text);
    if words == None {
      return None;
    }
    var d := ReadWords(words.value);
    if d == None {
      return None;
    }
    assert words.value[..|words.value|] == words.value;
    var distinct := NamesAreDistinct(d.value);
    return if distinct then d else None;
  }
}
