/** The shapes of comments, quoted values and names, each said without reading position by position:
comments by the balance of their marks, quoted values by the items between their quotes, line
comments and names by the first character that ends them. The lexer finds exactly these.
*/
module ConfigGrammar {
  import opened Wrappers
  import opened ConfigLexer

  // ---------------------------------------------------------------------------------------
  // Comments are balanced

  /** A text cut into opening marks, closing marks and single characters, from left to right. */
  function Cut(s: string): (pieces: seq<string>)
    ensures forall i | 0 <= i < |pieces| :: pieces[i] != ""
  {
    if s == "" then []
    else if |s| >= 2 && (s[..2] == "(*" || s[..2] == "*)") then [s[..2]] + Cut(s[2..])
    else [s[..1]] + Cut(s[1..])
  }

  function Weight(piece: string): int {
    if piece == "(*" then 1 else if piece == "*)" then -1 else 0
  }

  /** Opening marks less closing marks. */
  function Balance(pieces: seq<string>): int {
    if pieces == [] then 0 else Weight(pieces[0]) + Balance(pieces[1..])
  }

  function Width(pieces: seq<string>): nat {
    if pieces == [] then 0 else |pieces[0]| + Width(pieces[1..])
  }

  /** The first `k` pieces close `depth` comments, and no fewer pieces do. */
  predicate ClosesAt(pieces: seq<string>, depth: nat, k: nat) {
    && k <= |pieces| && Balance(pieces[..k]) + depth == 0
    && forall j | 0 <= j < k :: Balance(pieces[..j]) + depth > 0
  }

  lemma BehindFirst(pieces: seq<string>, k: nat)
    requires 0 < k <= |pieces|
    ensures Balance(pieces[..k]) == Weight(pieces[0]) + Balance(pieces[1..][..k - 1])
    ensures Width(pieces[..k]) == |pieces[0]| + Width(pieces[1..][..k - 1])
  {
    assert pieces[..k][1..] == pieces[1..][..k - 1];
  }

  lemma ClosesBehindFirst(pieces: seq<string>, depth: nat, k: nat)
    requires depth > 0 && pieces != [] && 0 < k <= |pieces| && depth + Weight(pieces[0]) >= 0
    ensures ClosesAt(pieces, depth, k) <==>
            (if depth + Weight(pieces[0]) == 0 then k == 1
             else ClosesAt(pieces[1..], depth + Weight(pieces[0]), k - 1))
  {
    forall j | 0 < j <= k
      ensures Balance(pieces[..j]) == Weight(pieces[0]) + Balance(pieces[1..][..j - 1])
    {
      BehindFirst(pieces, j);
    }
    assert Balance(pieces[..0]) == 0 && Balance(pieces[1..][..0]) == 0;
    if ClosesAt(pieces[1..], depth + Weight(pieces[0]), k - 1) {
      forall j | 0 < j < k ensures Balance(pieces[..j]) + depth > 0 {
        assert Balance(pieces[1..][..j - 1]) + (depth + Weight(pieces[0])) > 0;
      }
    }
    if ClosesAt(pieces, depth, k) {
      forall j | 0 <= j < k - 1 ensures Balance(pieces[1..][..j]) + (depth + Weight(pieces[0])) > 0 {
        assert Balance(pieces[..j + 1]) + depth > 0;
      }
      assert k > 1 ==> Balance(pieces[..1]) + depth > 0;
    }
  }

  lemma CutFirst(s: string)
    requires s != ""
    ensures Cut(s) == [s[..MarkLength(s)]] + Cut(s[MarkLength(s)..])
  {
    if |s| >= 2 {
      assert s[..2] == [s[0], s[1]];
    }
  }

  predicate EndsAt(pieces: seq<string>, depth: nat, n: nat) {
    exists k | 0 <= k <= |pieces| :: ClosesAt(pieces, depth, k) && n == Width(pieces[..k])
  }

  lemma EndsBehindFirst(pieces: seq<string>, depth: nat, n: nat)
    requires depth > 0 && pieces != [] && depth + Weight(pieces[0]) >= 0
    ensures EndsAt(pieces, depth, n) <==>
            (if depth + Weight(pieces[0]) == 0 then n == |pieces[0]|
             else n >= |pieces[0]| && EndsAt(pieces[1..], depth + Weight(pieces[0]), n - |pieces[0]|))
  {
    var depth' := depth + Weight(pieces[0]);
    assert !ClosesAt(pieces, depth, 0);
    if depth' == 0 {
      ClosesBehindFirst(pieces, depth, 1);
      BehindFirst(pieces, 1);
      forall k | 0 < k <= |pieces| && ClosesAt(pieces, depth, k) ensures k == 1 {
        ClosesBehindFirst(pieces, depth, k);
      }
    } else {
      forall k | 0 < k <= |pieces|
        ensures ClosesAt(pieces, depth, k) <==> ClosesAt(pieces[1..], depth', k - 1)
        ensures Width(pieces[..k]) == |pieces[0]| + Width(pieces[1..][..k - 1])
      {
        ClosesBehindFirst(pieces, depth, k);
        BehindFirst(pieces, k);
      }
      if k :| 0 <= k <= |pieces[1..]| && ClosesAt(pieces[1..], depth', k) && n == |pieces[0]| + Width(pieces[1..][..k]) {
        assert ClosesAt(pieces, depth, k + 1) && Width(pieces[..k + 1]) == n;
      }
    }
  }

  /** Open comments are closed exactly where the closing marks first outweigh the opening ones by as
      many: comments nest. */
  lemma {:induction false} CommentEndsWhereBalanced(s: string, depth: nat, n: nat)
    requires depth > 0
    ensures CommentEnd(s, depth) == Some(n) <==> EndsAt(Cut(s), depth, n)
    decreases |s|
  {
    if s != "" {
      CutFirst(s);
      WeightIsDepthStep(s, depth);
      EndsBehindFirst(Cut(s), depth, n);
      var k := MarkLength(s);
      assert Cut(s)[0] == s[..k] && Cut(s)[1..] == Cut(s[k..]);
      if DepthBehind(s, depth) > 0 && n >= k {
        CommentEndsWhereBalanced(s[k..], DepthBehind(s, depth), n - k);
      }
    }
  }

  lemma WeightIsDepthStep(s: string, depth: nat)
    requires s != "" && depth > 0
    ensures DepthBehind(s, depth) == depth + Weight(s[..MarkLength(s)])
  {
    if |s| >= 2 {
      assert s[..2] == [s[0], s[1]];
    }
  }

  /** The text opens with a mark, its marks balance, and they balance nowhere before its end. */
  predicate IsBalancedComment(c: string) {
    var pieces := Cut(c);
    && pieces != [] && pieces[0] == "(*"
    && Balance(pieces) == 0
    && forall j | 0 < j < |pieces| :: Balance(pieces[..j]) > 0
  }

  lemma {:induction false} WholeWidth(s: string)
    ensures Width(Cut(s)) == |s|
    decreases |s|
  {
    if s != "" {
      CutFirst(s);
      WholeWidth(s[MarkLength(s)..]);
    }
  }

  lemma {:induction false} WidthGrows(pieces: seq<string>, k: nat)
    requires k <= |pieces| && forall i | 0 <= i < |pieces| :: pieces[i] != ""
    ensures Width(pieces[..k]) == Width(pieces) <==> k == |pieces|
    ensures Width(pieces[..k]) <= Width(pieces)
  {
    if k == |pieces| {
      assert pieces[..k] == pieces;
    } else if k == 0 {
      assert |pieces[0]| > 0;
    } else {
      BehindFirst(pieces, k);
      WidthGrows(pieces[1..], k - 1);
    }
  }

  lemma EndsWithTheText(pieces: seq<string>, depth: nat)
    requires forall i | 0 <= i < |pieces| :: pieces[i] != ""
    ensures EndsAt(pieces, depth, Width(pieces)) <==> ClosesAt(pieces, depth, |pieces|)
  {
    forall k | 0 <= k <= |pieces| ensures Width(pieces[..k]) == Width(pieces) <==> k == |pieces| {
      WidthGrows(pieces, k);
    }
  }

  lemma InsideAComment(pieces: seq<string>)
    requires pieces != [] && pieces[0] == "(*"
    ensures ClosesAt(pieces[1..], 1, |pieces| - 1) <==>
            Balance(pieces) == 0 && forall j | 0 < j < |pieces| :: Balance(pieces[..j]) > 0
  {
    var inside := pieces[1..];
    forall j | 0 < j <= |pieces| ensures Balance(pieces[..j]) == 1 + Balance(inside[..j - 1]) {
      BehindFirst(pieces, j);
    }
    assert pieces[..|pieces|] == pieces;
    if forall j | 0 < j < |pieces| :: Balance(pieces[..j]) > 0 {
      forall j | 0 <= j < |inside| ensures Balance(inside[..j]) + 1 > 0 {
        assert Balance(pieces[..j + 1]) > 0;
      }
    }
  }

  /** Comments are exactly the balanced texts. */
  lemma CommentsAreBalanced(c: string)
    ensures IsBlockComment(c) <==> IsBalancedComment(c)
  {
    if c != "" {
      CutFirst(c);
      if |c| >= 2 {
        assert c[..2] == [c[0], c[1]];
      }
    }
    if StartsWith(c, '(', '*') {
      var pieces := Cut(c);
      assert pieces[0] == "(*" && pieces[1..] == Cut(c[2..]);
      CommentEndsWhereBalanced(c[2..], 1, |c| - 2);
      WholeWidth(c[2..]);
      EndsWithTheText(Cut(c[2..]), 1);
      InsideAComment(pieces);
    }
  }

  // ---------------------------------------------------------------------------------------
  // Nesting

  /** A text that closes so many comments leaves the others open behind it. */
  lemma {:induction false} ClosingLeavesTheOthers(x: string, y: string, depth: nat, others: nat)
    requires depth > 0 && CommentEnd(x, depth) == Some(|x|)
    ensures CommentEnd(x + y, depth + others) == Later(|x|, CommentEnd(y, others))
    decreases |x|
  {
    LastMarkIsWhole(x, depth);
    SameMark(x, y, depth, others);
    var k := MarkLength(x);
    if DepthBehind(x, depth) > 0 {
      ClosingLeavesTheOthers(x[k..], y, DepthBehind(x, depth), others);
    } else {
      assert x[k..] == "" && x[k..] + y == y;
    }
    OneMark(x + y, depth + others);
  }

  lemma OneMark(s: string, depth: nat)
    requires s != "" && depth > 0
    ensures CommentEnd(s, depth) == Later(MarkLength(s), CommentEnd(s[MarkLength(s)..], DepthBehind(s, depth)))
  {
  }

  lemma SameMark(x: string, y: string, depth: nat, others: nat)
    requires |x| >= 2 && depth > 0
    ensures MarkLength(x + y) == MarkLength(x) && (x + y)[MarkLength(x)..] == x[MarkLength(x)..] + y
    ensures DepthBehind(x + y, depth + others) == DepthBehind(x, depth) + others
  {
  }

  lemma LastMarkIsWhole(x: string, depth: nat)
    requires depth > 0 && CommentEnd(x, depth) == Some(|x|)
    ensures |x| >= 2
  {
    if |x| == 1 {
      assert x[1..] == "";
    }
  }

  /** A comment may be put into a comment. */
  lemma CommentsNest(c: string)
    requires IsBlockComment(c)
    ensures IsBlockComment("(*" + c + "*)")
  {
    var whole := "(*" + c + "*)";
    assert whole[2..] == c + "*)" && whole[0] == '(' && whole[1] == '*';
    assert (c + "*)")[2..] == c[2..] + "*)" && (c + "*)")[0] == '(' && (c + "*)")[1] == '*';
    ClosingLeavesTheOthers(c[2..], "*)", 1, 1);
    assert "*)"[2..] == "";
    assert CommentEnd("*)", 1) == Some(2);
  }

  // ---------------------------------------------------------------------------------------
  // Quoted values, line comments and names

  /** What may stand between quotes: a character that is neither a quote nor a backslash, or a
      backslash with the character it protects, which is not a line end. */
  predicate IsItem(item: string) {
    || (|item| == 1 && item[0] != '"' && item[0] != '\\')
    || (|item| == 2 && item[0] == '\\' && item[1] != '\n')
  }

  function Joined(items: seq<string>): string {
    if items == [] then "" else items[0] + Joined(items[1..])
  }

  lemma {:induction false} ItemsEndAtTheQuote(items: seq<string>, rest: string)
    requires forall i | 0 <= i < |items| :: IsItem(items[i])
    ensures QuoteEnd(Joined(items) + ("\"" + rest)) == Some(|Joined(items)| + 1)
  {
    if items == [] {
      assert Joined(items) + ("\"" + rest) == "\"" + rest;
    } else {
      var s := Joined(items) + ("\"" + rest);
      var k := |items[0]|;
      assert s[k..] == Joined(items[1..]) + ("\"" + rest);
      assert s[0] == items[0][0] && (k == 2 ==> s[1] == items[0][1]);
      ItemsEndAtTheQuote(items[1..], rest);
    }
  }

  lemma {:induction false} QuoteEndsBehindItems(s: string, n: nat) returns (items: seq<string>)
    requires QuoteEnd(s) == Some(n)
    ensures n <= |s| && (forall i | 0 <= i < |items| :: IsItem(items[i])) && s[..n] == Joined(items) + "\""
    decreases |s|
  {
    if s[0] == '"' {
      items := [];
      assert s[..1] == "\"";
    } else {
      var k := if s[0] == '\\' then 2 else 1;
      var others := QuoteEndsBehindItems(s[k..], n - k);
      items := [s[..k]] + others;
      assert items[0] == s[..k] && items[1..] == others;
      assert s[..n] == s[..k] + s[k..][..n - k];
    }
  }

  /** Quoted values are exactly the items between two quotes. */
  lemma QuotedValuesAreItems(q: string)
    ensures IsQuoted(q) <==>
            exists items :: (forall i | 0 <= i < |items| :: IsItem(items[i])) && q == "\"" + (Joined(items) + "\"")
  {
    if IsQuoted(q) {
      var items := QuoteEndsBehindItems(q[1..], |q| - 1);
      assert q[1..][..|q| - 1] == q[1..] && q == "\"" + q[1..];
    }
    if items :| (forall i | 0 <= i < |items| :: IsItem(items[i])) && q == "\"" + (Joined(items) + "\"") {
      ItemsEndAtTheQuote(items, "");
      assert q[1..] == Joined(items) + ("\"" + "");
    }
  }

  /** A line comment takes its first line end, or all there is. */
  lemma {:induction false} LineMeaning(s: string)
    ensures forall i | 0 <= i < LineLength(s) - 1 :: s[i] != '\n'
    ensures LineLength(s) == |s| || (LineLength(s) > 0 && s[LineLength(s) - 1] == '\n')
  {
    if s != "" && s[0] != '\n' {
      LineMeaning(s[1..]);
    }
  }

  /** A name runs as far as letters, digits and underscores do. */
  lemma {:induction false} NameMeaning(s: string)
    ensures forall i | 0 <= i < IdentLength(s) :: IsIdentChar(s[i])
    ensures IdentLength(s) == |s| || !IsIdentChar(s[IdentLength(s)])
  {
    if s != "" && IsIdentChar(s[0]) {
      NameMeaning(s[1..]);
    }
  }

  lemma {:induction false} AllNameCharacters(w: string)
    requires forall i | 0 <= i < |w| :: IsIdentChar(w[i])
    ensures IdentLength(w) == |w|
  {
    if w != "" {
      AllNameCharacters(w[1..]);
    }
  }

  // ---------------------------------------------------------------------------------------
  // Characters

  /** Spaces are the five ASCII controls from tab on, the four separators, the blank and the two
      Latin-1 spaces. */
  lemma Spaces(c: char)
    ensures IsSpace(c) <==>
            c in {'\t', '\n', '\U{0B}', '\U{0C}', '\r', '\U{1C}', '\U{1D}', '\U{1E}', '\U{1F}', ' ', '\U{85}', '\U{A0}'}
  {
  }

  /** Names begin with one of 53 characters and go on with these and ten digits. */
  lemma NameCharacters(c: char)
    ensures IsIdentStart(c) <==>
            c in {'A', 'B', 'C', 'D', 'E', 'F', 'G', 'H', 'I', 'J', 'K', 'L', 'M', 'N', 'O', 'P', 'Q', 'R', 'S', 'T', 'U',
                  'V', 'W', 'X', 'Y', 'Z', 'a', 'b', 'c', 'd', 'e', 'f', 'g', 'h', 'i', 'j', 'k', 'l', 'm', 'n', 'o', 'p',
                  'q', 'r', 's', 't', 'u', 'v', 'w', 'x', 'y', 'z', '_'}
    ensures IsIdentChar(c) <==> IsIdentStart(c) || c in {'0', '1', '2', '3', '4', '5', '6', '7', '8', '9'}
  {
  }
}
