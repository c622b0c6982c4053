/**
 * The JavaScript string built-ins the client relies on:
 * `String.prototype.trim` and `String.prototype.split('\n')`, together with
 * the matching join, which is what the line splitter is proved against.
 */
module JsString {

  /**
   * The characters ECMAScript's `trim` removes: WhiteSpace (tab, vertical tab,
   * form feed, the byte-order mark and every space separator) and
   * LineTerminator (line feed, carriage return, line and paragraph separator).
   */
  predicate IsWhitespace(c: char) {
    c == '\t' || c == '\U{000B}' || c == '\U{000C}' || c == ' ' || c == '\U{FEFF}'
    || c == '\U{00A0}' || c == '\U{1680}' || ('\U{2000}' <= c <= '\U{200A}')
    || c == '\U{202F}' || c == '\U{205F}' || c == '\U{3000}'
    || c == '\n' || c == '\r' || c == '\U{2028}' || c == '\U{2029}'
  }

  /** Every character of `s` is whitespace (the empty string included). */
  predicate IsBlank(s: string) {
    forall k :: 0 <= k < |s| ==> IsWhitespace(s[k])
  }

  /** `s` without its longest whitespace prefix. */
  function TrimStart(s: string): string
    decreases |s|
  {
    if s != [] && IsWhitespace(s[0]) then TrimStart(s[1..]) else s
  }

  /** `s` without its longest whitespace suffix. */
  function TrimEnd(s: string): string
    decreases |s|
  {
    if s != [] && IsWhitespace(s[|s| - 1]) then TrimEnd(s[..|s| - 1]) else s
  }

  /** `String.prototype.trim`. */
  function Trim(s: string): string {
    TrimEnd(TrimStart(s))
  }

  /** `TrimStart` removes a whitespace prefix, and stops at the first other character. */
  lemma {:induction false} TrimStartRemovesBlankPrefix(s: string)
    ensures var r := TrimStart(s);
      |r| <= |s| && r == s[|s| - |r|..] && IsBlank(s[..|s| - |r|]) && (r != [] ==> !IsWhitespace(r[0]))
    decreases |s|
  {
    if s != [] && IsWhitespace(s[0]) {
      TrimStartRemovesBlankPrefix(s[1..]);
      var r := TrimStart(s);
      assert s[|s| - |r|..] == s[1..][|s| - 1 - |r|..];
      var p, p' := s[..|s| - |r|], s[1..][..|s| - 1 - |r|];
      forall k | 0 <= k < |p| ensures IsWhitespace(p[k]) {
        if k > 0 {
          assert p[k] == p'[k - 1];
        }
      }
    }
  }

  /** `TrimEnd` removes a whitespace suffix, and stops at the last other character. */
  lemma {:induction false} TrimEndRemovesBlankSuffix(s: string)
    ensures var r := TrimEnd(s);
      |r| <= |s| && r == s[..|r|] && IsBlank(s[|r|..]) && (r != [] ==> !IsWhitespace(r[|r| - 1]))
    decreases |s|
  {
    if s != [] && IsWhitespace(s[|s| - 1]) {
      var s' := s[..|s| - 1];
      TrimEndRemovesBlankSuffix(s');
      var r := TrimEnd(s);
      assert s'[..|r|] == s[..|r|];
      forall k | 0 <= k < |s| - |r| ensures IsWhitespace(s[|r|..][k]) {
        if k < |s| - 1 - |r| {
          assert s[|r|..][k] == s'[|r|..][k];
        }
      }
    }
  }

  /**
   * What `trim` gives: the result is empty exactly when `s` is blank, and
   * otherwise it neither starts nor ends with whitespace and is what remains
   * of `s` once a blank prefix and a blank suffix are cut off.
   */
  lemma TrimSpec(s: string)
    ensures Trim(s) == "" <==> IsBlank(s)
    ensures Trim(s) != "" ==> !IsWhitespace(Trim(s)[0]) && !IsWhitespace(Trim(s)[|Trim(s)| - 1])
    ensures exists i :: (0 <= i <= |s| - |Trim(s)| && s[i..i + |Trim(s)|] == Trim(s) &&
                         IsBlank(s[..i]) && IsBlank(s[i + |Trim(s)|..]))
  {
    var t := TrimStart(s);
    TrimStartRemovesBlankPrefix(s);
    TrimEndRemovesBlankSuffix(t);
    var r := TrimEnd(t);
    var i := |s| - |t|;
    assert s[i..i + |r|] == r;
    assert s[i + |r|..] == t[|r|..];
    if r == "" {
      forall k | 0 <= k < |s| ensures IsWhitespace(s[k]) {
        assert s[k] == s[..i][k];
      }
    }
  }

  /** Leading blanks are exactly what `TrimStart` removes. */
  lemma {:induction false} TrimStartOf(w: string, t: string)
    requires IsBlank(w)
    requires t == "" || !IsWhitespace(t[0])
    ensures TrimStart(w + t) == t
    decreases |w|
  {
    if w == [] {
      assert w + t == t;
    } else {
      assert (w + t)[1..] == w[1..] + t;
      TrimStartOf(w[1..], t);
    }
  }

  /** Trailing blanks are exactly what `TrimEnd` removes. */
  lemma {:induction false} TrimEndOf(t: string, w: string)
    requires IsBlank(w)
    requires t == "" || !IsWhitespace(t[|t| - 1])
    ensures TrimEnd(t + w) == t
    decreases |w|
  {
    if w == [] {
      assert t + w == t;
    } else {
      assert (t + w)[..|t + w| - 1] == t + w[..|w| - 1];
      TrimEndOf(t, w[..|w| - 1]);
    }
  }

  /**
   * The reference description of `trim`: a text that neither starts nor ends
   * with whitespace, surrounded by any blanks, trims to that text.
   */
  lemma TrimSurrounded(w1: string, t: string, w2: string)
    requires IsBlank(w1) && IsBlank(w2)
    requires t != "" ==> !IsWhitespace(t[0]) && !IsWhitespace(t[|t| - 1])
    ensures Trim(w1 + t + w2) == t
  {
    if t == "" {
      assert w1 + t + w2 == w1 + w2;
      TrimSpec(w1 + w2);
      assert IsBlank(w1 + w2) by {
        forall k | 0 <= k < |w1 + w2| ensures IsWhitespace((w1 + w2)[k]) {
          if k >= |w1| { assert (w1 + w2)[k] == w2[k - |w1|]; }
        }
      }
    } else {
      assert w1 + t + w2 == w1 + (t + w2);
      TrimStartOf(w1, t + w2);
      TrimEndOf(t, w2);
    }
  }

  /** Trimming twice trims nothing more: the stored chat content is already trimmed. */
  lemma TrimIdempotent(s: string)
    ensures Trim(Trim(s)) == Trim(s)
  {
    var r := Trim(s);
    TrimSpec(s);
    assert "" + r + "" == r;
    TrimSurrounded("", r, "");
  }

  /** `p` holds no line feed. */
  predicate IsLine(p: string) {
    '\n' !in p
  }

  /** The text after the last line feed of `s` (all of `s` when it has none). */
  function TrailingPiece(s: string): (r: string)
    ensures IsLine(r)
    decreases |s|
  {
    if s == [] then ""
    else if s[|s| - 1] == '\n' then ""
    else TrailingPiece(s[..|s| - 1]) + [s[|s| - 1]]
  }

  /**
   * The trailing piece is exactly the text after the last line feed: a suffix
   * of `s`, preceded by a line feed unless it is all of `s`.
   */
  lemma {:induction false} TrailingPieceIsSuffix(s: string)
    ensures var r := TrailingPiece(s);
      |r| <= |s| && r == s[|s| - |r|..] && (|r| < |s| ==> s[|s| - |r| - 1] == '\n')
    decreases |s|
  {
    if s != [] && s[|s| - 1] != '\n' {
      var s' := s[..|s| - 1];
      TrailingPieceIsSuffix(s');
      var r' := TrailingPiece(s');
      assert s[|s| - |r'| - 1..] == r' + [s[|s| - 1]];
      if |r'| < |s'| {
        assert s[|s| - |r'| - 2] == s'[|s'| - |r'| - 1];
      }
    }
  }

  /** The pieces of `s` before its last line feed, each without its line feed. */
  function LeadingPieces(s: string): (pieces: seq<string>)
    ensures forall i :: 0 <= i < |pieces| ==> IsLine(pieces[i])
    decreases |s|
  {
    if s == [] then []
    else if s[|s| - 1] == '\n' then LeadingPieces(s[..|s| - 1]) + [TrailingPiece(s[..|s| - 1])]
    else LeadingPieces(s[..|s| - 1])
  }

  /**
   * `s.split('\n')`: the pieces between line feeds, in order. There is always
   * at least one piece, the last one is the text after the last line feed,
   * and no piece contains a line feed.
   */
  function SplitLines(s: string): (pieces: seq<string>)
    ensures |pieces| >= 1 && pieces[|pieces| - 1] == TrailingPiece(s)
    ensures forall i :: 0 <= i < |pieces| ==> IsLine(pieces[i])
  {
    var L, t := LeadingPieces(s), TrailingPiece(s);
    assert forall i :: 0 <= i < |L| ==> (L + [t])[i] == L[i];
    L + [t]
  }

  /** `pieces.join('\n')`. */
  function JoinLines(pieces: seq<string>): string
    decreases |pieces|
  {
    if |pieces| == 0 then ""
    else if |pieces| == 1 then pieces[0]
    else JoinLines(pieces[..|pieces| - 1]) + "\n" + pieces[|pieces| - 1]
  }

  /** Joining one more piece adds a line feed and that piece at the end. */
  lemma JoinLinesSnoc(pieces: seq<string>, p: string)
    requires |pieces| >= 1
    ensures JoinLines(pieces + [p]) == JoinLines(pieces) + "\n" + p
  {
    assert (pieces + [p])[..|pieces|] == pieces;
  }

  /** Splitting loses nothing: joining the pieces gives back the string. */
  lemma {:induction false} JoinSplitLines(s: string)
    ensures JoinLines(SplitLines(s)) == s
    decreases |s|
  {
    if s != [] {
      var s', c := s[..|s| - 1], s[|s| - 1];
      assert s == s' + [c];
      JoinSplitLines(s');
      var L, t := LeadingPieces(s'), TrailingPiece(s');
      if c == '\n' {
        assert SplitLines(s) == (L + [t]) + [""];
        JoinLinesSnoc(L + [t], "");
      } else if L == [] {
        assert SplitLines(s) == [t + [c]];
      } else {
        assert SplitLines(s) == L + [t + [c]];
        JoinLinesSnoc(L, t + [c]);
        JoinLinesSnoc(L, t);
      }
    }
  }

  /** A newline-free piece after a line feed becomes the new last piece. */
  lemma {:induction false} SplitLinesSnoc(x: string, p: string)
    requires IsLine(p)
    ensures TrailingPiece(x + "\n" + p) == p
    ensures LeadingPieces(x + "\n" + p) == SplitLines(x)
    decreases |p|
  {
    var s := x + "\n" + p;
    if p == [] {
      assert s == x + "\n";
      assert s[..|s| - 1] == x;
    } else {
      var p', c := p[..|p| - 1], p[|p| - 1];
      assert c in p;
      assert s[..|s| - 1] == x + "\n" + p';
      assert s[|s| - 1] == c;
      SplitLinesSnoc(x, p');
      assert p == p' + [c];
    }
  }

  /** Joining newline-free pieces and splitting the result gives back the pieces. */
  lemma {:induction false} SplitJoinLines(pieces: seq<string>)
    requires |pieces| >= 1
    requires forall i :: 0 <= i < |pieces| ==> IsLine(pieces[i])
    ensures SplitLines(JoinLines(pieces)) == pieces
    decreases |pieces|
  {
    var n := |pieces|;
    if n == 1 {
      SplitLinesOfLine(pieces[0]);
      assert JoinLines(pieces) == pieces[0];
      assert SplitLines(pieces[0]) == [] + [pieces[0]];
    } else {
      var init, last := pieces[..n - 1], pieces[n - 1];
      assert forall i :: 0 <= i < n - 1 ==> init[i] == pieces[i];
      SplitJoinLines(init);
      assert IsLine(last);
      SplitLinesSnoc(JoinLines(init), last);
      assert JoinLines(pieces) == JoinLines(init) + "\n" + last;
      assert pieces == init + [last];
    }
  }

  /** A string without line feeds is a single piece. */
  lemma {:induction false} SplitLinesOfLine(p: string)
    requires IsLine(p)
    ensures LeadingPieces(p) == [] && TrailingPiece(p) == p
    decreases |p|
  {
    if p != [] {
      SplitLinesOfLine(p[..|p| - 1]);
      assert p == p[..|p| - 1] + [p[|p| - 1]];
    }
  }

  /** The trailing piece of a concatenation is that of `b` appended to the trailing piece of `a`. */
  lemma {:induction false} TrailingPieceAppend(a: string, b: string)
    ensures TrailingPiece(a + b) == TrailingPiece(TrailingPiece(a) + b)
    decreases |b|
  {
    var t := TrailingPiece(a);
    if b == [] {
      assert a + b == a && t + b == t;
      SplitLinesOfLine(t);
    } else {
      var b', c := b[..|b| - 1], b[|b| - 1];
      TrailingPieceAppend(a, b');
      var s, u := a + b, t + b;
      assert s[..|s| - 1] == a + b' && s[|s| - 1] == c;
      assert u[..|u| - 1] == t + b' && u[|u| - 1] == c;
    }
  }

  /**
   * Splitting a concatenation: the pieces of `a` before its last line feed
   * are kept, and its trailing piece is split again together with `b`.
   */
  lemma {:induction false} SplitLinesAppend(a: string, b: string)
    ensures LeadingPieces(a + b) == LeadingPieces(a) + LeadingPieces(TrailingPiece(a) + b)
    ensures TrailingPiece(a + b) == TrailingPiece(TrailingPiece(a) + b)
    decreases |b|
  {
    var t := TrailingPiece(a);
    TrailingPieceAppend(a, b);
    if b == [] {
      assert a + b == a && t + b == t;
      SplitLinesOfLine(t);
    } else {
      var b', c := b[..|b| - 1], b[|b| - 1];
      SplitLinesAppend(a, b');
      var s, s', u, u' := a + b, a + b', t + b, t + b';
      assert s[..|s| - 1] == s' && s[|s| - 1] == c;
      assert u[..|u| - 1] == u' && u[|u| - 1] == c;
      var La, Lu' := LeadingPieces(a), LeadingPieces(u');
      if c == '\n' {
        assert LeadingPieces(s) == (La + Lu') + [TrailingPiece(u')];
        assert LeadingPieces(u) == Lu' + [TrailingPiece(u')];
        assert (La + Lu') + [TrailingPiece(u')] == La + (Lu' + [TrailingPiece(u')]);
      } else {
        assert LeadingPieces(s) == LeadingPieces(s');
        assert LeadingPieces(u) == Lu';
      }
    }
  }
}
