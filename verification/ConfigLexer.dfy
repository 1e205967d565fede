/** The lexer for model configurations, and the declarations read from its words.

Comments nest and are skipped; a quoted value is one word. Characters are ASCII together with the
two Latin-1 spaces.
*/
module ConfigLexer {
  import opened Wrappers

  // ---------------------------------------------------------------------------------------
  // Pieces

  predicate IsSpace(c: char) {
    '\t' <= c <= '\r' || '\U{1C}' <= c <= ' ' || c == '\U{85}' || c == '\U{A0}'
  }

  predicate IsIdentStart(c: char) {
    'A' <= c <= 'Z' || 'a' <= c <= 'z' || c == '_'
  }

  predicate IsIdentChar(c: char) {
    IsIdentStart(c) || '0' <= c <= '9'
  }

  predicate StartsWith(s: string, a: char, b: char) {
    |s| >= 2 && s[0] == a && s[1] == b
  }

  /** How far the innermost comments must be read until `depth` of them are closed. */
  function CommentEnd(s: string, depth: nat): (n: Option<nat>)
    ensures n.Some? ==> n.value <= |s|
  {
    if depth == 0 then Some(0)
    else if s == "" then None
    else Later(MarkLength(s), CommentEnd(s[MarkLength(s)..], DepthBehind(s, depth)))
  }

  function MarkLength(s: string): (n: nat)
    requires s != ""
    ensures 0 < n <= |s|
  {
    if StartsWith(s, '(', '*') || StartsWith(s, '*', ')') then 2 else 1
  }

  function DepthBehind(s: string, depth: nat): nat
    requires depth > 0
  {
    if StartsWith(s, '(', '*') then depth + 1
    else if StartsWith(s, '*', ')') then depth - 1
    else depth
  }

  function Later(k: nat, n: Option<nat>): Option<nat> {
    match n case None => None case Some(m) => Some(k + m)
  }

  /** A line comment runs to the end of its line, which it takes with it. */
  function LineLength(s: string): (n: nat)
    ensures n <= |s| && (s != "" ==> n > 0)
  {
    if s == "" then 0 else if s[0] == '\n' then 1 else 1 + LineLength(s[1..])
  }

  /** How far a quoted value must be read behind its opening quote. A backslash takes the next
      character with it, which may not be a line end. */
  function QuoteEnd(s: string): (n: Option<nat>)
    ensures n.Some? ==> n.value <= |s|
  {
    if s == "" then None
    else if s[0] == '"' then Some(1)
    else if s[0] != '\\' then Later(1, QuoteEnd(s[1..]))
    else if |s| == 1 || s[1] == '\n' then None
    else Later(2, QuoteEnd(s[2..]))
  }

  function IdentLength(s: string): (n: nat)
    ensures n <= |s|
    ensures s != "" && IsIdentChar(s[0]) ==> n > 0
  {
    if s == "" || !IsIdentChar(s[0]) then 0 else 1 + IdentLength(s[1..])
  }

  datatype Kind = Blank | Comment | Word

  datatype Piece = Piece(kind: Kind, length: nat)

  /** The next piece of a text, unless it opens something that is never closed. */
  function First(s: string): (p: Option<Piece>)
    requires s != ""
    ensures p.Some? ==> 0 < p.value.length <= |s|
  {
    if IsSpace(s[0]) then Some(Piece(Blank, 1))
    else if StartsWith(s, '\\', '*') then Some(Piece(Comment, LineLength(s)))
    else if StartsWith(s, '(', '*') then
      match CommentEnd(s[2..], 1) case None => None case Some(n) => Some(Piece(Comment, 2 + n))
    else if s[0] == '"' then
      match QuoteEnd(s[1..]) case None => None case Some(n) => Some(Piece(Word, 1 + n))
    else if IsIdentStart(s[0]) then Some(Piece(Word, IdentLength(s)))
    else Some(Piece(Word, 1))
  }

  /** The words of a text. */
  function Lex(s: string): Option<seq<string>> {
    if s == "" then Some([])
    else
      var p :- First(s);
      var rest :- Lex(s[p.length..]);
      Some(if p.kind == Word then [s[..p.length]] + rest else rest)
  }

  // ---------------------------------------------------------------------------------------
  // When lexing fails

  predicate IsBlockComment(s: string) {
    StartsWith(s, '(', '*') && CommentEnd(s[2..], 1) == Some(|s| - 2)
  }

  predicate IsQuoted(s: string) {
    |s| >= 1 && s[0] == '"' && QuoteEnd(s[1..]) == Some(|s| - 1)
  }

  /** The text opens a nested comment, or a quoted value, that none of its beginnings completes. */
  predicate Unterminated(s: string) {
    || (StartsWith(s, '(', '*') && forall n | 0 <= n <= |s| :: !IsBlockComment(s[..n]))
    || (s != "" && s[0] == '"' && forall n | 0 <= n <= |s| :: !IsQuoted(s[..n]))
  }

  /** Lexing reaches position `k` at the start of a piece. */
  predicate Boundary(s: string, k: nat)
    decreases |s|
  {
    k == 0
    || (s != "" && First(s).Some? && First(s).value.length <= k
        && Boundary(s[First(s).value.length..], k - First(s).value.length))
  }

  lemma {:induction false} CommentEndOfPrefix(s: string, depth: nat, n: nat)
    requires depth > 0 && n <= |s|
    ensures CommentEnd(s[..n], depth) == Some(n) <==> CommentEnd(s, depth) == Some(n)
    decreases |s|
  {
    if s != "" && n >= MarkLength(s) {
      var k := MarkLength(s);
      assert s[..n][k..] == s[k..][..n - k];
      if DepthBehind(s, depth) > 0 {
        CommentEndOfPrefix(s[k..], DepthBehind(s, depth), n - k);
      }
    }
  }

  lemma {:induction false} QuoteEndOfPrefix(s: string, n: nat)
    requires n <= |s|
    ensures QuoteEnd(s[..n]) == Some(n) <==> QuoteEnd(s) == Some(n)
    decreases |s|
  {
    if s != "" && s[0] != '"' {
      var k := if s[0] == '\\' then 2 else 1;
      if n >= k {
        assert s[..n][k..] == s[k..][..n - k];
        QuoteEndOfPrefix(s[k..], n - k);
      }
    }
  }

  /** The next piece is missing exactly where something opened is never closed. */
  lemma NoPieceExactlyUnterminated(s: string)
    requires s != ""
    ensures First(s) == None <==> Unterminated(s)
  {
    if StartsWith(s, '(', '*') {
      forall n | 2 <= n <= |s| ensures IsBlockComment(s[..n]) <==> CommentEnd(s[2..], 1) == Some(n - 2) {
        assert s[..n][2..] == s[2..][..n - 2];
        CommentEndOfPrefix(s[2..], 1, n - 2);
      }
      if First(s).Some? {
        assert IsBlockComment(s[..First(s).value.length]);
      }
    } else if s[0] == '"' {
      forall n | 1 <= n <= |s| ensures IsQuoted(s[..n]) <==> QuoteEnd(s[1..]) == Some(n - 1) {
        assert s[..n][1..] == s[1..][..n - 1];
        QuoteEndOfPrefix(s[1..], n - 1);
      }
      if First(s).Some? {
        assert IsQuoted(s[..First(s).value.length]);
      }
    }
  }

  /** Lexing comes to an unterminated comment or quoted value. */
  predicate Blocked(s: string) {
    exists k | 0 <= k < |s| :: Boundary(s, k) && Unterminated(s[k..])
  }

  lemma BlockedBehindPiece(s: string)
    requires s != "" && First(s).Some?
    ensures Blocked(s) <==> Blocked(s[First(s).value.length..])
  {
    var n := First(s).value.length;
    var rest := s[n..];
    NoPieceExactlyUnterminated(s);
    assert s[0..] == s;
    if Blocked(s) {
      var k :| 0 <= k < |s| && Boundary(s, k) && Unterminated(s[k..]);
      assert rest[k - n..] == s[k..];
    }
    if Blocked(rest) {
      var k :| 0 <= k < |rest| && Boundary(rest, k) && Unterminated(rest[k..]);
      assert rest[k..] == s[n + k..];
      assert Boundary(s, n + k);
    }
  }

  /** Lexing fails exactly on texts in which it comes to something never closed. */
  lemma {:induction false} FailsExactlyOnUnterminated(s: string)
    ensures Lex(s) == None <==> Blocked(s)
    decreases |s|
  {
    if s != "" {
      if First(s) == None {
        NoPieceExactlyUnterminated(s);
        assert s[0..] == s && Boundary(s, 0);
      } else {
        BlockedBehindPiece(s);
        FailsExactlyOnUnterminated(s[First(s).value.length..]);
      }
    }
  }

  // ---------------------------------------------------------------------------------------
  // Comments are spaces

  /** What may follow a piece in place of what did: the same character, or one that neither
      continues a name nor turns an opening character into a comment. */
  predicate Interchangeable(rest: string, rest': string) {
    || rest' == ""
    || (rest != "" && rest'[0] == rest[0])
    || (!IsIdentChar(rest'[0]) && rest'[0] != '*')
  }

  lemma {:induction false} QuoteIgnoresRest(s: string, rest: string, n: nat)
    requires QuoteEnd(s + rest) == Some(n) && n <= |s|
    ensures QuoteEnd(s) == Some(n)
  {
    assert (s + rest)[..n] == s[..n];
    QuoteEndOfPrefix(s + rest, n);
    QuoteEndOfPrefix(s, n);
  }

  lemma {:induction false} IdentIgnoresRest(s: string, rest: string, rest': string)
    requires IdentLength(s + rest) == |s| && Interchangeable(rest, rest')
    ensures IdentLength(s + rest') == |s|
    decreases |s|
  {
    if s == "" {
      assert s + rest == rest && s + rest' == rest';
    } else {
      assert (s + rest)[1..] == s[1..] + rest && (s + rest')[1..] == s[1..] + rest';
      IdentIgnoresRest(s[1..], rest, rest');
    }
  }

  /** The text `p + rest` has `p` as its first piece. */
  predicate StartsWithPiece(p: string, rest: string, kind: Kind) {
    p != "" && First(p + rest) == Some(Piece(kind, |p|))
  }

  /** A blank or a word is recognised whatever interchangeable text follows it. */
  lemma PieceIgnoresRest(p: string, rest: string, rest': string)
    requires StartsWithPiece(p, rest, Blank) || StartsWithPiece(p, rest, Word)
    requires Interchangeable(rest, rest')
    ensures First(p + rest') == First(p + rest)
  {
    var s, s' := p + rest, p + rest';
    assert s[0] == s'[0] == p[0];
    if p[0] == '"' {
      assert s[1..] == p[1..] + rest && s'[1..] == p[1..] + rest';
      QuoteIgnoresRest(p[1..], rest, |p| - 1);
      assert s'[1..][..|p| - 1] == p[1..] == p[1..][..|p| - 1];
      QuoteEndOfPrefix(s'[1..], |p| - 1);
    } else if IsIdentStart(p[0]) {
      IdentIgnoresRest(p, rest, rest');
    } else if |p| == 1 && rest' != "" {
      assert s'[1] == rest'[0];
      if rest != "" {
        assert s[1] == rest[0];
      }
    }
  }

  /** The text with every comment replaced by one space. */
  function WithoutComments(s: string): string {
    if s == "" || First(s) == None then s
    else
      var p := First(s).value;
      (if p.kind == Comment then " " else s[..p.length]) + WithoutComments(s[p.length..])
  }

  lemma StrippedRestInterchangeable(s: string)
    ensures Interchangeable(s, WithoutComments(s))
  {
  }

  lemma SpaceSeparates(rest: string)
    ensures Lex(" " + rest) == Lex(rest)
  {
    assert (" " + rest)[1..] == rest;
    if Lex(rest).Some? {
      assert First(" " + rest) == Some(Piece(Blank, 1));
    }
  }

  function Behind(words: seq<string>, rest: Option<seq<string>>): Option<seq<string>> {
    match rest case None => None case Some(ws) => Some(words + ws)
  }

  /** What a piece adds to the words behind it. */
  function Added(kind: Kind, p: string): seq<string> {
    if kind == Word then [p] else []
  }

  lemma LexBehindPiece(p: string, kind: Kind, rest: string)
    requires StartsWithPiece(p, rest, kind)
    ensures Lex(p + rest) == Behind(Added(kind, p), Lex(rest))
  {
    assert (p + rest)[|p|..] == rest && (p + rest)[..|p|] == p;
    if Lex(rest).Some? {
      assert [] + Lex(rest).value == Lex(rest).value;
    }
  }

  /** Replacing every comment by one space changes no word, nor whether lexing succeeds. */
  lemma {:induction false} CommentsAreSpaces(s: string)
    ensures Lex(WithoutComments(s)) == Lex(s)
    decreases |s|
  {
    if s != "" && First(s).Some? {
      var p := First(s).value;
      var rest := s[p.length..];
      CommentsAreSpaces(rest);
      if p.kind == Comment {
        SpaceSeparates(WithoutComments(rest));
      } else {
        assert s == s[..p.length] + rest;
        StrippedRestInterchangeable(rest);
        PieceIgnoresRest(s[..p.length], rest, WithoutComments(rest));
        LexBehindPiece(s[..p.length], p.kind, rest);
        LexBehindPiece(s[..p.length], p.kind, WithoutComments(rest));
      }
    }
  }

  /** The pieces of a text, up to the first place where none can be taken. */
  function Pieces(s: string): seq<(Kind, string)> {
    if s == "" || First(s) == None then []
    else
      var p := First(s).value;
      [(p.kind, s[..p.length])] + Pieces(s[p.length..])
  }

  function SpacesForComments(pieces: seq<(Kind, string)>): seq<(Kind, string)> {
    if pieces == [] then []
    else [if pieces[0].0 == Comment then (Blank, " ") else pieces[0]] + SpacesForComments(pieces[1..])
  }

  lemma PiecesBehindPiece(p: string, kind: Kind, rest: string)
    requires StartsWithPiece(p, rest, kind)
    ensures Pieces(p + rest) == [(kind, p)] + Pieces(rest)
  {
    assert (p + rest)[|p|..] == rest && (p + rest)[..|p|] == p;
  }

  /** Exactly the comments become spaces: every other piece stays as it is, and no comment is left. */
  lemma {:induction false} OnlyCommentsBecomeSpaces(s: string)
    ensures Pieces(WithoutComments(s)) == SpacesForComments(Pieces(s))
    decreases |s|
  {
    if s != "" && First(s).Some? {
      var p := First(s).value;
      var piece, rest := s[..p.length], s[p.length..];
      OnlyCommentsBecomeSpaces(rest);
      if p.kind == Comment {
        assert (" " + WithoutComments(rest))[0] == ' ';
        PiecesBehindPiece(" ", Blank, WithoutComments(rest));
      } else {
        assert s == piece + rest;
        StrippedRestInterchangeable(rest);
        PieceIgnoresRest(piece, rest, WithoutComments(rest));
        PiecesBehindPiece(piece, p.kind, WithoutComments(rest));
      }
    }
  }

  /** A complete comment: a balanced one, or a line comment with its line end. */
  predicate IsComment(s: string) {
    IsBlockComment(s) || (StartsWith(s, '\\', '*') && LineLength(s) == |s| && s[|s| - 1] == '\n')
  }

  lemma CommentIsOnePiece(c: string, rest: string)
    requires IsComment(c)
    ensures First(c + rest) == Some(Piece(Comment, |c|)) && Lex(c + rest) == Lex(rest)
  {
    var s := c + rest;
    assert s[0] == c[0] && s[1] == c[1];
    if IsBlockComment(c) {
      assert s[2..][..|c| - 2] == c[2..] == c[2..][..|c| - 2];
      CommentEndOfPrefix(s[2..], 1, |c| - 2);
      CommentEndOfPrefix(c[2..], 1, |c| - 2);
    } else {
      LineIgnoresRest(c, rest);
    }
    assert s[|c|..] == rest;
  }

  lemma {:induction false} LineIgnoresRest(s: string, rest: string)
    requires s != "" && LineLength(s) == |s| && s[|s| - 1] == '\n'
    ensures LineLength(s + rest) == |s|
  {
    if |s| > 1 {
      assert (s + rest)[1..] == s[1..] + rest;
      LineIgnoresRest(s[1..], rest);
    }
  }

  /** Text that is one piece whatever follows it: a complete comment or a quoted value. */
  predicate IsUnit(c: string, kind: Kind) {
    (kind == Comment && IsComment(c)) || (kind == Word && IsQuoted(c))
  }

  lemma UnitIsOnePiece(c: string, kind: Kind, rest: string)
    requires IsUnit(c, kind)
    ensures StartsWithPiece(c, rest, kind)
  {
    if kind == Comment {
      CommentIsOnePiece(c, rest);
    } else {
      var s := c + rest;
      assert s[1..][..|c| - 1] == c[1..] == c[1..][..|c| - 1];
      QuoteEndOfPrefix(s[1..], |c| - 1);
      QuoteEndOfPrefix(c[1..], |c| - 1);
    }
  }

  lemma PieceStays(p: string, kind: Kind, rest: string, rest': string)
    requires StartsWithPiece(p, rest, kind) && rest != "" && Interchangeable(rest, rest')
    ensures StartsWithPiece(p, rest', kind)
  {
    if kind == Comment {
      CommentPieceAhead(p, rest);
      CommentIsOnePiece(p, rest');
    } else {
      PieceIgnoresRest(p, rest, rest');
    }
  }

  lemma SplitAtPiece(before: string, c: string, after: string)
    requires before != "" && c != "" && Boundary(before + c + after, |before|)
    ensures
      var s := before + c + after;
      First(s).Some? && First(s).value.length <= |before| &&
      var n := First(s).value.length;
      StartsWithPiece(before[..n], before[n..] + c + after, First(s).value.kind) &&
      Boundary(before[n..] + c + after, |before[n..]|)
  {
    var s := before + c + after;
    CutAt(before, c, after, First(s).value.length);
  }

  lemma CutAt(before: string, c: string, after: string, n: nat)
    requires n <= |before|
    ensures before + c + after == before[..n] + (before[n..] + c + after)
    ensures (before + c + after)[n..] == before[n..] + c + after
  {
    assert before == before[..n] + before[n..];
  }

  lemma UnitsOpenAlike(tail: string, kind: Kind, c: string, c': string, after: string)
    requires IsUnit(c, kind) && IsUnit(c', kind)
    ensures tail + c + after != ""
    ensures Interchangeable(tail + c + after, tail + c' + after)
  {
    assert (tail + c' + after)[0] == if tail == "" then c'[0] else tail[0];
  }

  lemma Regroup(head: string, tail: string, c: string, after: string)
    ensures head + tail + c + after == head + (tail + c + after)
  {
  }

  lemma AddInFront(first: seq<string>, words: seq<string>, rest: Option<seq<string>>)
    ensures Behind(first, Behind(words, rest)) == Behind(first + words, rest)
  {
    if rest.Some? {
      assert first + (words + rest.value) == (first + words) + rest.value;
    }
  }

  /** Where lexing comes to a comment or a quoted value, another may stand in its place: the words
      before and behind stay, and only a quoted value is itself a word. */
  lemma {:induction false} UnitsAreExchangeable(
      before: string, kind: Kind, c: string, c': string, after: string) returns (front: seq<string>)
    requires IsUnit(c, kind) && IsUnit(c', kind) && Boundary(before + c + after, |before|)
    ensures Lex(before + c + after) == Behind(front + Added(kind, c), Lex(after))
    ensures Lex(before + c' + after) == Behind(front + Added(kind, c'), Lex(after))
    decreases |before|
  {
    if before == "" {
      front := [];
      UnitAtStart(c, kind, after);
      UnitAtStart(c', kind, after);
    } else {
      SplitAtPiece(before, c, after);
      var p := First(before + c + after).value;
      var head, tail := before[..p.length], before[p.length..];
      var later := UnitsAreExchangeable(tail, kind, c, c', after);
      front := Added(p.kind, head) + later;
      UnitsOpenAlike(tail, kind, c, c', after);
      PieceStays(head, p.kind, tail + c + after, tail + c' + after);
      assert before == head + tail;
      UnitBehindPiece(head, p.kind, tail, kind, c, after, later);
      UnitBehindPiece(head, p.kind, tail, kind, c', after, later);
    }
  }

  lemma UnitAtStart(c: string, kind: Kind, after: string)
    requires IsUnit(c, kind)
    ensures Lex("" + c + after) == Behind([] + Added(kind, c), Lex(after))
  {
    assert "" + c == c && [] + Added(kind, c) == Added(kind, c);
    UnitIsOnePiece(c, kind, after);
    LexBehindPiece(c, kind, after);
  }

  lemma UnitBehindPiece(head: string, headKind: Kind, tail: string, kind: Kind, c: string, after: string,
                        later: seq<string>)
    requires StartsWithPiece(head, tail + c + after, headKind)
    requires Lex(tail + c + after) == Behind(later + Added(kind, c), Lex(after))
    ensures Lex(head + tail + c + after) == Behind((Added(headKind, head) + later) + Added(kind, c), Lex(after))
  {
    Regroup(head, tail, c, after);
    LexBehindPiece(head, headKind, tail + c + after);
    AddInFront(Added(headKind, head), later + Added(kind, c), Lex(after));
    assert Added(headKind, head) + (later + Added(kind, c)) == (Added(headKind, head) + later) + Added(kind, c);
  }

  /** Exchanging one comment for another changes no word. */
  lemma CommentTextIsIrrelevant(before: string, c: string, c': string, after: string)
    requires IsComment(c) && IsComment(c') && Boundary(before + c + after, |before|)
    ensures Lex(before + c + after) == Lex(before + c' + after)
  {
    var front := UnitsAreExchangeable(before, Comment, c, c', after);
  }

  /** A comment with text behind it is a complete comment. */
  lemma CommentPieceAhead(p: string, rest: string)
    requires StartsWithPiece(p, rest, Comment) && rest != ""
    ensures IsComment(p)
  {
    var s := p + rest;
    if StartsWith(s, '\\', '*') {
      LineEndsInNewline(p, rest);
      assert s[0] == p[0];
    } else {
      assert s[2..] == p[2..] + rest;
      assert s[2..][..|p| - 2] == p[2..] == p[2..][..|p| - 2];
      CommentEndOfPrefix(s[2..], 1, |p| - 2);
      CommentEndOfPrefix(p[2..], 1, |p| - 2);
    }
  }

  lemma {:induction false} LineEndsInNewline(s: string, rest: string)
    requires s != "" && rest != "" && LineLength(s + rest) == |s|
    ensures LineLength(s) == |s| && s[|s| - 1] == '\n'
    decreases |s|
  {
    assert (s + rest)[1..] == s[1..] + rest;
    if s[0] != '\n' {
      assert LineLength(s[1..] + rest) == |s| - 1;
      LineEndsInNewline(s[1..], rest);
    }
  }

  function Spaced(words: seq<string>): string {
    if words == [] then "" else words[0] + (" " + Spaced(words[1..]))
  }

  /** Writing the words of a text with a space behind each gives a text with the same words. */
  lemma {:induction false} WordsLexToThemselves(s: string)
    requires Lex(s).Some?
    ensures Lex(Spaced(Lex(s).value)) == Lex(s)
    decreases |s|
  {
    if s != "" {
      var p := First(s).value;
      var w, rest := s[..p.length], s[p.length..];
      WordsLexToThemselves(rest);
      if p.kind == Word {
        assert s == w + rest && Lex(s).value == [w] + Lex(rest).value;
        var later := " " + Spaced(Lex(rest).value);
        SpaceSeparates(Spaced(Lex(rest).value));
        PieceIgnoresRest(w, rest, later);
        LexBehindPiece(w, Word, later);
      }
    }
  }

  // ---------------------------------------------------------------------------------------
  // The lexing loops

  /** The comment opened at `open` ends where `depth` comments still open at `index` do. */
  ghost predicate Skipping(text: string, open: nat, index: nat, depth: nat)
    requires open + 2 <= |text| && index <= |text|
  {
    Later(index, CommentEnd(text[index..], depth)) == Later(open + 2, CommentEnd(text[open + 2..], 1))
  }

  lemma SkippingStep(text: string, open: nat, index: nat, depth: nat)
    requires open + 2 <= |text| && index < |text| && depth > 0
    requires Skipping(text, open, index, depth)
    ensures
      var s := text[index..];
      Skipping(text, open, index + MarkLength(s), DepthBehind(s, depth))
  {
    var s := text[index..];
    assert s[MarkLength(s)..] == text[index + MarkLength(s)..];
  }

  lemma SkippingEnds(text: string, open: nat, index: nat, depth: nat)
    requires open + 2 <= |text| && index <= |text| && (depth == 0 || index == |text|)
    requires Skipping(text, open, index, depth)
    ensures Later(open + 2, CommentEnd(text[open + 2..], 1)) == if depth == 0 then Some(index) else None
  {
    assert index == |text| ==> text[index..] == "";
  }

  method SkipBlockComment(text: string, open: nat) returns (end: Option<nat>)
    requires open + 2 <= |text|
    ensures end == Later(open + 2, CommentEnd(text[open + 2..], 1))
  {
    var depth: nat, index := 1, open + 2;
    while depth > 0 && index < |text|
      invariant open + 2 <= index <= |text|
      invariant Skipping(text, open, index, depth)
      decreases |text| - index
    {
      SkippingStep(text, open, index, depth);
      var step := MarkLength(text[index..]);
      depth := DepthBehind(text[index..], depth);
      index := index + step;
    }
    SkippingEnds(text, open, index, depth);
    end := if depth > 0 then None else Some(index);
  }

  /** The words of the text are `words` and those found behind `index`. */
  ghost predicate Pending(text: string, words: seq<string>, index: nat)
    requires index <= |text|
  {
    Lex(text) == Behind(words, Lex(text[index..]))
  }

  lemma PendingStep(text: string, words: seq<string>, index: nat)
    requires index < |text| && Pending(text, words, index)
    ensures
      var s := text[index..];
      match First(s)
      case None => Lex(text) == None
      case Some(p) =>
        Pending(text, if p.kind == Word then words + [s[..p.length]] else words, index + p.length)
  {
    var s := text[index..];
    if First(s).Some? {
      var p := First(s).value;
      assert s[p.length..] == text[index + p.length..];
      if p.kind == Word && Lex(s[p.length..]).Some? {
        var rest := Lex(s[p.length..]).value;
        assert words + ([s[..p.length]] + rest) == (words + [s[..p.length]]) + rest;
      }
    }
  }

  lemma NothingAdded(words: seq<string>, rest: Option<seq<string>>)
    ensures Behind([], rest) == rest && Behind(words, Some([])) == Some(words)
  {
    assert words + [] == words;
    if rest.Some? {
      assert [] + rest.value == rest.value;
    }
  }

  lemma PendingAtBothEnds(text: string, words: seq<string>)
    ensures Pending(text, [], 0)
    ensures Pending(text, words, |text|) ==> Lex(text) == Some(words)
  {
    assert text[0..] == text && text[|text|..] == "";
    NothingAdded([], Lex(text));
    NothingAdded(words, Some([]));
  }

  method NextPiece(text: string, index: nat) returns (piece: Option<Piece>)
    requires index < |text|
    ensures piece == First(text[index..])
  {
    var rest := text[index..];
    if IsSpace(rest[0]) {
      return Some(Piece(Blank, 1));
    } else if StartsWith(rest, '\\', '*') {
      return Some(Piece(Comment, LineLength(rest)));
    } else if StartsWith(rest, '(', '*') {
      var end := SkipBlockComment(text, index);
      assert text[index + 2..] == rest[2..];
      return if end == None then None else Some(Piece(Comment, end.value - index));
    } else if rest[0] == '"' {
      var quote := QuoteEnd(rest[1..]);
      return if quote == None then None else Some(Piece(Word, 1 + quote.value));
    } else {
      return Some(Piece(Word, if IsIdentStart(rest[0]) then IdentLength(rest) else 1));
    }
  }

  method Tokens(text: string) returns (result: Option<seq<string>>)
    ensures result == Lex(text)
  {
    var words: seq<string>, index := [], 0;
    PendingAtBothEnds(text, words);
    while index < |text|
      invariant 0 <= index <= |text|
      invariant Pending(text, words, index)
      decreases |text| - index
    {
      PendingStep(text, words, index);
      var piece := NextPiece(text, index);
      if piece == None {
        return None;
      }
      if piece.value.kind == Word {
        words := words + [text[index..][..piece.value.length]];
      }
      index := index + piece.value.length;
    }
    PendingAtBothEnds(text, words);
    return Some(words);
  }
}
