/** The JavaScript string operations the program relies on, with ECMAScript semantics:
    `split` on a one-character separator, `trim`, `toLowerCase` and `slice(n)`. */
module JsStrings {

  /** ECMAScript WhiteSpace and LineTerminator code points: what `String.prototype.trim` removes. */
  predicate IsWhitespace(c: char) {
    || c == '\t' || c == '\n' || c == '\U{B}' || c == '\U{C}' || c == '\r' || c == ' '
    || c == '\U{A0}' || c == '\U{1680}' || ('\U{2000}' <= c <= '\U{200A}')
    || c == '\U{2028}' || c == '\U{2029}' || c == '\U{202F}' || c == '\U{205F}'
    || c == '\U{3000}' || c == '\U{FEFF}'
  }

  /** Number of occurrences of `c` in `s`. */
  function Count(s: string, c: char): (n: nat)
    ensures n == 0 <==> c !in s
    ensures n <= |s|
  {
    if s == [] then 0
    else (if s[0] == c then 1 else 0) + Count(s[1..], c)
  }

  lemma {:induction false} CountConcat(a: string, b: string, c: char)
    ensures Count(a + b, c) == Count(a, c) + Count(b, c)
  {
    if a != [] {
      assert (a + b)[1..] == a[1..] + b;
      CountConcat(a[1..], b, c);
    } else {
      assert a + b == b;
    }
  }

  /** `parts.join(sep)`. */
  function Join(parts: seq<string>, sep: char): string {
    if parts == [] then ""
    else if |parts| == 1 then parts[0]
    else parts[0] + [sep] + Join(parts[1..], sep)
  }

  /** The recursion behind `split`: the first character either closes the first piece
      (when it is the separator) or is put in front of it. */
  function Pieces(s: string, sep: char): seq<string>
    decreases |s|
  {
    if s == [] then [""]
    else
      var rest := Pieces(s[1..], sep);
      if s[0] == sep then [""] + rest
      else [[s[0]] + rest[0]] + rest[1..]
  }

  /** `s.split(sep)` for a one-character separator: never empty, `"".split(sep)` is `[""]`,
      and the pieces between separators are kept even when empty. */
  function Split(s: string, sep: char): (parts: seq<string>)
    ensures |parts| == Count(s, sep) + 1
    ensures Join(parts, sep) == s
    ensures forall p | p in parts :: sep !in p
  {
    PiecesJoin(s, sep);
    Pieces(s, sep)
  }

  lemma {:induction false} PiecesJoin(s: string, sep: char)
    ensures |Pieces(s, sep)| == Count(s, sep) + 1
    ensures Join(Pieces(s, sep), sep) == s
    ensures forall p | p in Pieces(s, sep) :: sep !in p
    decreases |s|
  {
    if s != [] {
      var rest := Pieces(s[1..], sep);
      PiecesJoin(s[1..], sep);
      if s[0] == sep {
        var parts := [""] + rest;
        assert Pieces(s, sep) == parts && parts[1..] == rest;
        assert Join(parts, sep) == [sep] + s[1..];
        assert [sep] + s[1..] == s;
        forall p | p in parts ensures sep !in p {
          if p != "" { assert p in rest; }
        }
      } else {
        assert Pieces(s, sep) == [[s[0]] + rest[0]] + rest[1..];
        ExtendFirstPiece(s[0], rest, sep);
        assert [s[0]] + s[1..] == s;
      }
    }
  }

  /** Putting a character that is not the separator in front of the first piece
      puts it in front of the joined text. */
  lemma ExtendFirstPiece(c: char, rest: seq<string>, sep: char)
    requires |rest| >= 1 && c != sep
    requires forall p | p in rest :: sep !in p
    ensures Join([[c] + rest[0]] + rest[1..], sep) == [c] + Join(rest, sep)
    ensures forall p | p in [[c] + rest[0]] + rest[1..] :: sep !in p
  {
    var parts := [[c] + rest[0]] + rest[1..];
    assert parts[1..] == rest[1..];
    assert rest[0] in rest;
    forall p | p in parts ensures sep !in p {
      if p != parts[0] { assert p in rest[1..]; }
    }
  }

  lemma {:induction false} SplitWithoutSeparator(p: string, sep: char)
    requires sep !in p
    ensures Split(p, sep) == [p]
  {
    var parts := Split(p, sep);
    assert |parts| == 1;
    assert Join(parts, sep) == parts[0];
  }

  lemma {:induction false} SplitAfterSeparator(p: string, sep: char, t: string)
    requires sep !in p
    ensures Split(p + [sep] + t, sep) == [p] + Split(t, sep)
  {
    PiecesAfterSeparator(p, sep, t);
  }

  lemma {:induction false} PiecesAfterSeparator(p: string, sep: char, t: string)
    requires sep !in p
    ensures Pieces(p + [sep] + t, sep) == [p] + Pieces(t, sep)
  {
    var s := p + [sep] + t;
    if p == [] {
      assert s[1..] == t;
    } else {
      assert s[1..] == p[1..] + [sep] + t;
      PiecesAfterSeparator(p[1..], sep, t);
      assert [p[0]] + p[1..] == p;
    }
  }

  lemma {:induction false} SplitBeforeSeparator(t: string, sep: char, p: string)
    requires sep !in p
    ensures Split(t + [sep] + p, sep) == Split(t, sep) + [p]
  {
    PiecesBeforeSeparator(t, sep, p);
  }

  lemma {:induction false} PiecesBeforeSeparator(t: string, sep: char, p: string)
    requires sep !in p
    ensures Pieces(t + [sep] + p, sep) == Pieces(t, sep) + [p]
    decreases |t|
  {
    var s := t + [sep] + p;
    if t == [] {
      assert s == [] + [sep] + p;
      PiecesAfterSeparator([], sep, p);
      SplitWithoutSeparator(p, sep);
    } else {
      assert s[1..] == t[1..] + [sep] + p;
      PiecesBeforeSeparator(t[1..], sep, p);
      var inner := Pieces(t[1..], sep);
      assert Pieces(s[1..], sep) == inner + [p];
      if t[0] == sep {
        assert [""] + (inner + [p]) == ([""] + inner) + [p];
      } else {
        assert (inner + [p])[0] == inner[0];
        assert (inner + [p])[1..] == inner[1..] + [p];
      }
    }
  }

  /** Splitting a joined sequence gives the pieces back when none of them holds the separator. */
  lemma {:induction false} SplitJoin(parts: seq<string>, sep: char)
    requires |parts| >= 1
    requires forall p | p in parts :: sep !in p
    ensures Split(Join(parts, sep), sep) == parts
  {
    if |parts| == 1 {
      SplitWithoutSeparator(parts[0], sep);
    } else {
      assert parts[0] in parts;
      assert forall p | p in parts[1..] :: p in parts;
      SplitJoin(parts[1..], sep);
      SplitAfterSeparator(parts[0], sep, Join(parts[1..], sep));
      assert [parts[0]] + parts[1..] == parts;
    }
  }

  /** `s.trimStart()`: the suffix of `s` left after dropping leading whitespace. */
  function TrimStart(s: string): (r: string)
    ensures |r| <= |s| && r == s[|s| - |r|..]
    ensures forall k | 0 <= k < |s| - |r| :: IsWhitespace(s[k])
    ensures r == [] || !IsWhitespace(r[0])
  {
    if s != [] && IsWhitespace(s[0]) then
      var r := TrimStart(s[1..]);
      assert s[1..][|s| - 1 - |r|..] == s[|s| - |r|..];
      r
    else s
  }

  /** `s.trimEnd()`: the prefix of `s` left after dropping trailing whitespace. */
  function TrimEnd(s: string): (r: string)
    ensures |r| <= |s| && r == s[..|r|]
    ensures forall k | |r| <= k < |s| :: IsWhitespace(s[k])
    ensures r == [] || !IsWhitespace(r[|r| - 1])
  {
    if s != [] && IsWhitespace(s[|s| - 1]) then TrimEnd(s[..|s| - 1]) else s
  }

  /** Neither end of `s` is whitespace. */
  predicate Trimmed(s: string) {
    s == [] || (!IsWhitespace(s[0]) && !IsWhitespace(s[|s| - 1]))
  }

  /** `s.trim()`. */
  function Trim(s: string): (r: string)
    ensures |r| <= |s|
    ensures Trimmed(r)
  {
    TrimEnd(TrimStart(s))
  }

  /** Trimming never introduces a character. */
  lemma TrimKeeps(s: string)
    ensures forall c | c in Trim(s) :: c in s
  {
    var a := TrimStart(s);
    var b := TrimEnd(a);
    forall c | c in b ensures c in s {
      var i :| 0 <= i < |b| && b[i] == c;
      assert b[i] == a[i];
      assert a[i] == s[|s| - |a| + i];
    }
  }

  predicate AllWhitespace(s: string) {
    forall k | 0 <= k < |s| :: IsWhitespace(s[k])
  }

  lemma {:induction false} TrimStartPadded(pre: string, y: string)
    requires AllWhitespace(pre)
    requires y == [] || !IsWhitespace(y[0])
    ensures TrimStart(pre + y) == y
  {
    if pre == [] {
      assert pre + y == y;
    } else {
      assert (pre + y)[1..] == pre[1..] + y;
      TrimStartPadded(pre[1..], y);
    }
  }

  lemma {:induction false} TrimEndPadded(y: string, post: string)
    requires AllWhitespace(post)
    requires y == [] || !IsWhitespace(y[|y| - 1])
    ensures TrimEnd(y + post) == y
  {
    if post == [] {
      assert y + post == y;
    } else {
      var s := y + post;
      assert s[..|s| - 1] == y + post[..|post| - 1];
      TrimEndPadded(y, post[..|post| - 1]);
    }
  }

  /** Trim removes exactly the whitespace padding around a text that has none at its ends. */
  lemma TrimPadded(pre: string, x: string, post: string)
    requires AllWhitespace(pre) && AllWhitespace(post)
    requires Trimmed(x)
    ensures Trim(pre + x + post) == x
  {
    if x == [] {
      var s := pre + x + post;
      assert AllWhitespace(s) by {
        assert s == pre + post;
      }
      TrimStartPadded(s, []);
      assert s + [] == s;
    } else {
      assert pre + x + post == pre + (x + post);
      TrimStartPadded(pre, x + post);
      TrimEndPadded(x, post);
    }
  }

  lemma TrimIdempotent(s: string)
    ensures Trim(Trim(s)) == Trim(s)
  {
    TrimPadded([], Trim(s), []);
    assert [] + Trim(s) + [] == Trim(s);
  }

  /** `s` is the whitespace `trimStart` drops followed by what it keeps. */
  lemma TrimStartSplits(s: string)
    ensures var r := TrimStart(s); s == s[..|s| - |r|] + r && AllWhitespace(s[..|s| - |r|])
  {
    var r := TrimStart(s);
    assert s == s[..|s| - |r|] + s[|s| - |r|..];
  }

  /** `s` is what `trimEnd` keeps followed by the whitespace it drops. */
  lemma TrimEndSplits(s: string)
    ensures var r := TrimEnd(s); s == r + s[|r|..] && AllWhitespace(s[|r|..])
  {
    var r := TrimEnd(s);
    assert s == s[..|r|] + s[|r|..];
  }

  /** Leading whitespace stops at the first character that is not whitespace. */
  lemma TrimStartThrough(x: string, c: char, w: string)
    requires !IsWhitespace(c)
    ensures TrimStart(x + [c] + w) == TrimStart(x) + [c] + w
  {
    var t := TrimStart(x);
    var pre := x[..|x| - |t|];
    TrimStartSplits(x);
    RegroupFront(x, c, w, pre, t);
    TrimStartPadded(pre, t + [c] + w);
  }

  /** Trailing whitespace stops at the last character that is not whitespace. */
  lemma TrimEndThrough(x: string, c: char, w: string)
    requires !IsWhitespace(c)
    ensures TrimEnd(x + [c] + w) == x + [c] + TrimEnd(w)
  {
    var t := TrimEnd(w);
    var post := w[|t|..];
    TrimEndSplits(w);
    assert x + [c] + w == (x + [c] + t) + post;
    TrimEndPadded(x + [c] + t, post);
  }

  /** Trimming what `trimStart` left is trimming the original. */
  lemma TrimAfterTrimStart(s: string)
    ensures Trim(TrimStart(s)) == Trim(s)
  {
    TrimStartPadded([], TrimStart(s));
    assert [] + TrimStart(s) == TrimStart(s);
  }

  /** Trimming what `trimEnd` left is trimming the original. */
  lemma TrimAfterTrimEnd(s: string)
    ensures Trim(TrimEnd(s)) == Trim(s)
  {
    var pre, post := TrimSplits(s);
    TrimEndPaddedText(s, pre, Trim(s), post);
  }

  /** `s` is the whitespace `trim` drops in front, what it keeps, and the whitespace it drops
      behind. */
  lemma TrimSplits(s: string) returns (pre: string, post: string)
    ensures s == pre + Trim(s) + post && AllWhitespace(pre) && AllWhitespace(post)
  {
    var a := TrimStart(s);
    var t := TrimEnd(a);
    TrimStartSplits(s);
    TrimEndSplits(a);
    pre, post := s[..|s| - |a|], a[|t|..];
    Regroup(s, pre, a, t, post);
  }

  lemma Regroup(s: string, pre: string, a: string, t: string, post: string)
    requires s == pre + a && a == t + post
    ensures s == pre + t + post
  {
  }

  lemma RegroupFront(x: string, c: char, w: string, pre: string, t: string)
    requires x == pre + t
    ensures x + [c] + w == pre + (t + [c] + w)
  {
  }

  /** A trimmed text between whitespace is what trimming the text with `trimEnd` applied gives. */
  lemma TrimEndPaddedText(s: string, pre: string, t: string, post: string)
    requires s == pre + t + post && AllWhitespace(pre) && AllWhitespace(post) && Trimmed(t)
    ensures Trim(TrimEnd(s)) == t
  {
    if t == [] {
      assert AllWhitespace(s) by {
        assert s == pre + post;
      }
      TrimEndPadded([], s);
      assert [] + s == s;
    } else {
      assert s == (pre + t) + post;
      TrimEndPadded(pre + t, post);
      TrimPadded(pre, t, []);
      assert pre + t + [] == pre + t;
    }
  }

  /** `toLowerCase` on one character; only the ASCII letters are mapped. */
  function LowerChar(c: char): char {
    if 'A' <= c <= 'Z' then (c as int + 32) as char else c
  }

  /** `s.toLowerCase()` (ASCII letters only). */
  function ToLower(s: string): (r: string)
    ensures |r| == |s|
    ensures forall i | 0 <= i < |s| :: r[i] == LowerChar(s[i])
    ensures forall i | 0 <= i < |r| :: !('A' <= r[i] <= 'Z')
  {
    seq(|s|, i requires 0 <= i < |s| => LowerChar(s[i]))
  }

  /** `s.slice(n)` for a non-negative `n`: empty when `n` is past the end. */
  function SliceFrom(s: string, n: nat): (r: string)
    ensures n <= |s| ==> s == s[..n] + r
    ensures n >= |s| ==> r == []
  {
    if n <= |s| then s[n..] else []
  }
}
