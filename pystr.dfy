/**
 * The Python string built-ins the core relies on, over `string` (a sequence of
 * code points): `strip()`, `split(sep)` with a one-character separator and its
 * inverse `sep.join(...)`, substring search (`p in s`), `replace(old, new)` and
 * `lower()`.
 */
module PyStr {

  /** The characters Python's `str.isspace` accepts, which `strip()` removes. */
  predicate IsSpace(c: char) {
    || c == ' '
    || ('\t' <= c <= '\r')
    || ('\U{1C}' <= c <= '\U{1F}')
    || c == '\U{85}' || c == '\U{A0}' || c == '\U{1680}'
    || ('\U{2000}' <= c <= '\U{200A}')
    || c == '\U{2028}' || c == '\U{2029}' || c == '\U{202F}'
    || c == '\U{205F}' || c == '\U{3000}'
  }

  /** `s.lstrip()`: `s` without its leading white space. */
  function TrimStart(s: string): (r: string)
    ensures |r| <= |s|
  {
    if s != [] && IsSpace(s[0]) then TrimStart(s[1..]) else s
  }

  /** What `lstrip()` leaves: the longest suffix of `s` that does not start with white space. */
  lemma {:induction false} TrimStartSpec(s: string)
    ensures TrimStart(s) == s[|s| - |TrimStart(s)|..]
    ensures forall k :: 0 <= k < |s| - |TrimStart(s)| ==> IsSpace(s[k])
    ensures TrimStart(s) == [] || !IsSpace(TrimStart(s)[0])
    decreases |s|
  {
    if s != [] && IsSpace(s[0]) {
      TrimStartSpec(s[1..]);
      assert s[1..][|s| - 1 - |TrimStart(s)|..] == s[|s| - |TrimStart(s)|..];
    }
  }

  /** `s.rstrip()`: `s` without its trailing white space. */
  function TrimEnd(s: string): (r: string)
    ensures |r| <= |s|
  {
    if s != [] && IsSpace(s[|s| - 1]) then TrimEnd(s[..|s| - 1]) else s
  }

  /** What `rstrip()` leaves: the longest prefix of `s` that does not end with white space. */
  lemma {:induction false} TrimEndSpec(s: string)
    ensures TrimEnd(s) == s[..|TrimEnd(s)|]
    ensures forall k :: |TrimEnd(s)| <= k < |s| ==> IsSpace(s[k])
    ensures TrimEnd(s) == [] || !IsSpace(TrimEnd(s)[|TrimEnd(s)| - 1])
    decreases |s|
  {
    if s != [] && IsSpace(s[|s| - 1]) {
      TrimEndSpec(s[..|s| - 1]);
      assert s[..|s| - 1][..|TrimEnd(s)|] == s[..|TrimEnd(s)|];
    }
  }

  /** `s.strip()`: `s` without its leading and trailing white space. */
  function Strip(s: string): (r: string)
    ensures |r| <= |s|
  {
    TrimEnd(TrimStart(s))
  }

  /**
   * What `strip()` leaves: a slice of `s`, empty exactly when `s` is all white
   * space, and otherwise starting and ending with a non-space character.
   */
  lemma StripSpec(s: string)
    ensures exists i :: OccursAt(s, Strip(s), i)
    ensures Strip(s) == [] <==> forall k :: 0 <= k < |s| ==> IsSpace(s[k])
    ensures Strip(s) != [] ==> !IsSpace(Strip(s)[0]) && !IsSpace(Strip(s)[|Strip(s)| - 1])
  {
    var t := TrimStart(s);
    var r := TrimEnd(t);
    TrimStartSpec(s);
    TrimEndSpec(t);
    assert Strip(s) == r;
    assert OccursAt(s, r, |s| - |t|) by {
      assert s[|s| - |t|..][..|r|] == s[|s| - |t|..|s| - |t| + |r|];
    }
  }

  lemma StripIdempotent(s: string)
    ensures Strip(Strip(s)) == Strip(s)
  {
    StripSpec(s);
  }

  /** `p` occurs in `s` starting at index `i`. */
  predicate OccursAt(s: string, p: string, i: int) {
    0 <= i && i + |p| <= |s| && s[i..i + |p|] == p
  }

  predicate StartsWith(s: string, p: string) {
    |p| <= |s| && s[..|p|] == p
  }

  predicate EndsWith(s: string, p: string) {
    |p| <= |s| && s[|s| - |p|..] == p
  }

  /** Python's `p in s` on two strings: `p` occurs somewhere in `s` (case-sensitive). */
  function Contains(s: string, p: string): (b: bool)
    ensures b <==> exists i :: OccursAt(s, p, i)
    decreases |s|
  {
    if |s| < |p| then false
    else if s[..|p|] == p then (assert OccursAt(s, p, 0); true)
    else
      var b := Contains(s[1..], p);
      assert b ==> exists i :: OccursAt(s, p, i) by {
        if b {
          var i :| OccursAt(s[1..], p, i);
          assert s[1..][i..i + |p|] == s[i + 1..i + 1 + |p|];
          assert OccursAt(s, p, i + 1);
        }
      }
      assert (exists i :: OccursAt(s, p, i)) ==> b by {
        if exists i :: OccursAt(s, p, i) {
          var i :| OccursAt(s, p, i);
          assert i != 0;
          assert s[1..][i - 1..i - 1 + |p|] == s[i..i + |p|];
          assert OccursAt(s[1..], p, i - 1);
        }
      }
      b
  }

  lemma OccursAtSplits(s: string, p: string, i: int)
    requires OccursAt(s, p, i)
    ensures s == s[..i] + p + s[i + |p|..]
  {
    assert s == s[..i] + s[i..i + |p|] + s[i + |p|..];
  }

  lemma OccursInConcat(a: string, p: string, b: string)
    ensures Contains(a + p + b, p)
  {
    assert (a + p + b)[|a|..|a| + |p|] == p;
    assert OccursAt(a + p + b, p, |a|);
  }

  /**
   * `s.replace(pattern, replacement)`: every non-overlapping occurrence of
   * `pattern`, found scanning left to right, is replaced. A string in which the
   * pattern does not occur comes back unchanged, and a replacement no longer
   * than the pattern never lengthens the string.
   */
  function Replace(s: string, pattern: string, replacement: string): (r: string)
    requires pattern != ""
    ensures !Contains(s, pattern) ==> r == s
    ensures |replacement| <= |pattern| ==> |r| <= |s|
    decreases |s|
  {
    if |s| < |pattern| then s
    else if s[..|pattern|] == pattern then
      replacement + Replace(s[|pattern|..], pattern, replacement)
    else
      var rest := Replace(s[1..], pattern, replacement);
      assert !Contains(s, pattern) ==> !Contains(s[1..], pattern) by {
        if Contains(s[1..], pattern) {
          var i :| OccursAt(s[1..], pattern, i);
          assert s[1..][i..i + |pattern|] == s[i + 1..i + 1 + |pattern|];
          assert OccursAt(s, pattern, i + 1);
        }
      }
      [s[0]] + rest
  }

  /**
   * `replace` scans left to right: when the first occurrence of the pattern
   * starts right after `a`, the text before it is kept, the occurrence is
   * replaced, and the scan resumes after it.
   */
  lemma {:induction false} ReplaceLeftToRight(a: string, p: string, b: string, q: string)
    requires p != "" && !Contains(a + p[..|p| - 1], p)
    ensures Replace(a + p + b, p, q) == a + q + Replace(b, p, q)
    decreases |a|
  {
    if a == [] {
      assert a + p + b == p + b && a + q + Replace(b, p, q) == q + Replace(b, p, q);
      ReplaceAtStart(p, b, q);
    } else {
      NotAtStart(a, p, b);
      LacksAfterFirst(a, p[..|p| - 1], p);
      var s := a + p + b;
      assert s[0] == a[0] && s[1..] == a[1..] + p + b;
      assert Replace(s, p, q) == [a[0]] + Replace(a[1..] + p + b, p, q);
      ReplaceLeftToRight(a[1..], p, b, q);
      Reassociate(a, q, Replace(b, p, q));
    }
  }

  /** An occurrence at the very start is replaced first. */
  lemma ReplaceAtStart(p: string, b: string, q: string)
    requires p != ""
    ensures Replace(p + b, p, q) == q + Replace(b, p, q)
  {
    assert (p + b)[..|p|] == p && (p + b)[|p|..] == b;
  }

  lemma Reassociate(a: string, q: string, rest: string)
    requires a != []
    ensures [a[0]] + (a[1..] + q + rest) == a + q + rest
  {
    assert [a[0]] + a[1..] == a;
  }

  /** When `a` is not empty and `p` does not start `a + p` minus its last character, it does not start `a + p + b`. */
  lemma NotAtStart(a: string, p: string, b: string)
    requires a != [] && p != "" && !Contains(a + p[..|p| - 1], p)
    ensures (a + p + b)[..|p|] != p
  {
    assert !OccursAt(a + p[..|p| - 1], p, 0);
    assert (a + p[..|p| - 1])[..|p|] == (a + p + b)[..|p|];
  }

  /** A string without `p` keeps lacking `p` once its first character is dropped. */
  lemma LacksAfterFirst(a: string, t: string, p: string)
    requires a != [] && !Contains(a + t, p)
    ensures !Contains(a[1..] + t, p)
  {
    assert (a + t)[1..] == a[1..] + t;
  }

  /** A pattern does not occur where one of its characters mismatches. */
  lemma MismatchAt(s: string, p: string, i: int, j: int)
    requires 0 <= i <= j < i + |p| && j < |s| && s[j] != p[j - i]
    ensures !OccursAt(s, p, i)
  {
    if i + |p| <= |s| {
      assert s[i..i + |p|][j - i] == s[j];
    }
  }

  /** A string that lacks `p` has no prefix containing `p`. */
  lemma LacksInPrefix(s: string, t: string, p: string)
    requires !Contains(s + t, p)
    ensures !Contains(s, p)
  {
    forall i | 0 <= i && i + |p| <= |s| ensures !OccursAt(s, p, i) {
      assert (s + t)[i..i + |p|] == s[i..i + |p|];
      assert !OccursAt(s + t, p, i);
    }
  }

  /** `sep.join(pieces)`. */
  function Join(pieces: seq<string>, sep: string): (r: string)
    ensures |pieces| == 1 ==> r == pieces[0]
  {
    if pieces == [] then ""
    else if |pieces| == 1 then pieces[0]
    else pieces[0] + sep + Join(pieces[1..], sep)
  }

  /**
   * `s.split(sep)` for a one-character separator: the pieces between the
   * separators, which is never an empty list (`"".split(" ") == [""]`).
   */
  function Split(s: string, sep: char): (r: seq<string>)
    ensures |r| >= 1
    decreases |s|
  {
    if s == [] then [""]
    else
      var rest := Split(s[1..], sep);
      if s[0] == sep then [""] + rest else [[s[0]] + rest[0]] + rest[1..]
  }

  /** No piece of `s.split(sep)` contains the separator. */
  lemma {:induction false} SplitPiecesLackSep(s: string, sep: char)
    ensures forall p <- Split(s, sep) :: sep !in p
    decreases |s|
  {
    if s != [] {
      SplitPiecesLackSep(s[1..], sep);
    }
  }

  /** Every character of a piece of `s.split(sep)` occurs in `s`. */
  lemma {:induction false} PieceCharOccurs(s: string, sep: char, p: string, c: char)
    requires p in Split(s, sep) && c in p
    ensures c in s
    decreases |s|
  {
    var rest := Split(s[1..], sep);
    if s[0] == sep {
      assert p in rest;
      PieceCharOccurs(s[1..], sep, p, c);
    } else if p == [s[0]] + rest[0] {
      if c != s[0] {
        assert c in rest[0];
        PieceCharOccurs(s[1..], sep, rest[0], c);
      }
    } else {
      assert p in rest[1..];
      PieceCharOccurs(s[1..], sep, p, c);
    }
  }

  /** Joining the pieces of `s.split(sep)` with the separator gives `s` back. */
  lemma {:induction false} JoinSplit(s: string, sep: char)
    ensures Join(Split(s, sep), [sep]) == s
    decreases |s|
  {
    if s != [] {
      JoinSplit(s[1..], sep);
      if s[0] == sep {
        JoinSplitAtSep(s, sep);
      } else {
        JoinSplitAtChar(s, sep);
      }
    }
  }

  /** `sep.join(ps)` for two pieces or more: the first, the separator, then the rest joined. */
  lemma JoinHead(ps: seq<string>, sep: string)
    requires |ps| >= 2
    ensures Join(ps, sep) == ps[0] + sep + Join(ps[1..], sep)
  {
  }

  /** `sep.join([p] + ps)` for a non-empty `ps`. */
  lemma JoinCons(p: string, ps: seq<string>, sep: string)
    requires ps != []
    ensures Join([p] + ps, sep) == p + sep + Join(ps, sep)
  {
    assert ([p] + ps)[1..] == ps;
  }

  lemma JoinSplitAtSep(s: string, sep: char)
    requires s != [] && s[0] == sep
    requires Join(Split(s[1..], sep), [sep]) == s[1..]
    ensures Join(Split(s, sep), [sep]) == s
  {
    var rest := Split(s[1..], sep);
    assert Split(s, sep) == [""] + rest;
    JoinCons("", rest, [sep]);
    assert s == "" + [sep] + s[1..];
  }

  lemma JoinSplitAtChar(s: string, sep: char)
    requires s != [] && s[0] != sep
    requires Join(Split(s[1..], sep), [sep]) == s[1..]
    ensures Join(Split(s, sep), [sep]) == s
  {
    var rest := Split(s[1..], sep);
    assert Split(s, sep) == [[s[0]] + rest[0]] + rest[1..];
    GlueFirst(s[0], rest, [sep]);
    assert s == [s[0]] + s[1..];
  }

  /** Prefixing the first piece with a character prefixes the joined string with it. */
  lemma GlueFirst(c: char, pieces: seq<string>, sep: string)
    requires pieces != []
    ensures Join([[c] + pieces[0]] + pieces[1..], sep) == [c] + Join(pieces, sep)
  {
    if |pieces| > 1 {
      var tail := Join(pieces[1..], sep);
      JoinCons([c] + pieces[0], pieces[1..], sep);
      JoinCons(pieces[0], pieces[1..], sep);
      assert [pieces[0]] + pieces[1..] == pieces;
      assert [c] + pieces[0] + sep + tail == [c] + (pieces[0] + sep + tail);
    }
  }

  /** Gluing two strings merges the last piece of the first with the first piece of the second. */
  lemma {:induction false} SplitLengthConcat(a: string, b: string, sep: char)
    ensures |Split(a + b, sep)| == |Split(a, sep)| + |Split(b, sep)| - 1
    decreases |a|
  {
    if a == [] {
      assert a + b == b;
    } else {
      assert (a + b)[1..] == a[1..] + b;
      SplitLengthConcat(a[1..], b, sep);
    }
  }

  /** A string without the separator is a single piece. */
  lemma {:induction false} SplitWithoutSep(a: string, sep: char)
    requires sep !in a
    ensures Split(a, sep) == [a]
    decreases |a|
  {
    if a != [] {
      SplitWithoutSep(a[1..], sep);
      assert [a[0]] + a[1..] == a;
    }
  }

  /** Splitting at one separator splits the two sides independently. */
  lemma {:induction false} SplitAround(a: string, sep: char, b: string)
    ensures Split(a + [sep] + b, sep) == Split(a, sep) + Split(b, sep)
    decreases |a|
  {
    var s := a + [sep] + b;
    if a == [] {
      assert s[0] == sep && s[1..] == b;
    } else {
      assert s[0] == a[0] && s[1..] == a[1..] + [sep] + b;
      SplitAround(a[1..], sep, b);
      var left, right := Split(a[1..], sep), Split(b, sep);
      if a[0] != sep {
        assert (left + right)[0] == left[0];
        assert (left + right)[1..] == left[1..] + right;
      }
    }
  }

  /** Split is the inverse of Join on pieces that do not contain the separator. */
  lemma {:induction false} SplitJoin(pieces: seq<string>, sep: char)
    requires pieces != []
    requires forall p <- pieces :: sep !in p
    ensures Split(Join(pieces, [sep]), sep) == pieces
    decreases |pieces|
  {
    SplitWithoutSep(pieces[0], sep);
    if |pieces| > 1 {
      SplitJoin(pieces[1..], sep);
      SplitAround(pieces[0], sep, Join(pieces[1..], [sep]));
    }
  }

  /** Joining two non-empty lists of pieces puts one separator between their joins. */
  lemma {:induction false} JoinAppend(a: seq<string>, b: seq<string>, sep: string)
    requires a != [] && b != []
    ensures Join(a + b, sep) == Join(a, sep) + sep + Join(b, sep)
    decreases |a|
  {
    if |a| == 1 {
      assert a + b == [a[0]] + b;
      JoinCons(a[0], b, sep);
    } else {
      var t := a[1..];
      assert a + b == [a[0]] + (t + b);
      JoinCons(a[0], t + b, sep);
      JoinAppend(t, b, sep);
      assert a == [a[0]] + t;
      JoinCons(a[0], t, sep);
      assert a[0] + sep + (Join(t, sep) + sep + Join(b, sep))
          == (a[0] + sep + Join(t, sep)) + sep + Join(b, sep);
    }
  }

  /** A piece of `s.split(sep)` is delimited by the separator or an end of `s`. */
  lemma PieceIsDelimited(s: string, sep: char, p: string)
    requires p in Split(s, sep)
    ensures s == p || StartsWith(s, p + [sep]) || EndsWith(s, [sep] + p)
      || Contains(s, [sep] + p + [sep])
  {
    var pieces := Split(s, sep);
    var k :| 0 <= k < |pieces| && pieces[k] == p;
    JoinSplit(s, sep);
    if |pieces| == 1 {
      assert s == p;
    } else if k == 0 {
      FirstPieceDelimited(pieces, sep);
      assert StartsWith(s, p + [sep]);
    } else if k == |pieces| - 1 {
      LastPieceDelimited(pieces, sep);
      assert EndsWith(s, [sep] + p);
    } else {
      InnerPieceDelimited(pieces, sep, k);
      assert Contains(s, [sep] + p + [sep]);
    }
  }

  lemma FirstPieceDelimited(pieces: seq<string>, sep: char)
    requires |pieces| > 1
    ensures StartsWith(Join(pieces, [sep]), pieces[0] + [sep])
  {
    JoinHead(pieces, [sep]);
    StartsWithConcat(pieces[0] + [sep], Join(pieces[1..], [sep]));
  }

  lemma LastPieceDelimited(pieces: seq<string>, sep: char)
    requires |pieces| > 1
    ensures EndsWith(Join(pieces, [sep]), [sep] + pieces[|pieces| - 1])
  {
    var k := |pieces| - 1;
    assert pieces[..k] + pieces[k..] == pieces;
    JoinAppend(pieces[..k], pieces[k..], [sep]);
    assert pieces[k..][0] == pieces[k];
    EndsWithConcat(Join(pieces[..k], [sep]), [sep] + pieces[k]);
  }

  lemma InnerPieceDelimited(pieces: seq<string>, sep: char, k: nat)
    requires 0 < k < |pieces| - 1
    ensures Contains(Join(pieces, [sep]), [sep] + pieces[k] + [sep])
  {
    JoinAround(pieces, sep, k);
    OccursInConcat(Join(pieces[..k], [sep]), [sep] + pieces[k] + [sep], Join(pieces[k + 1..], [sep]));
  }

  /** The joined string around an inner piece: the separator on both sides of it. */
  lemma JoinAround(pieces: seq<string>, sep: char, k: nat)
    requires 0 < k < |pieces| - 1
    ensures Join(pieces, [sep])
         == Join(pieces[..k], [sep]) + ([sep] + pieces[k] + [sep]) + Join(pieces[k + 1..], [sep])
  {
    var front, back := pieces[..k], pieces[k..];
    assert front + back == pieces;
    JoinAppend(front, back, [sep]);
    JoinHead(back, [sep]);
    assert back[0] == pieces[k] && back[1..] == pieces[k + 1..];
    Regroup(Join(front, [sep]), [sep], pieces[k], [sep], Join(pieces[k + 1..], [sep]));
  }

  lemma Regroup(a: string, x: string, p: string, y: string, b: string)
    ensures a + x + (p + y + b) == a + (x + p + y) + b
  {
  }

  lemma StartsWithConcat(a: string, b: string)
    ensures StartsWith(a + b, a)
  {
    assert (a + b)[..|a|] == a;
  }

  lemma EndsWithConcat(a: string, b: string)
    ensures EndsWith(a + b, b)
  {
    assert (a + b)[|a + b| - |b|..] == b;
  }

  /** A separator-free string delimited inside `s` is a piece of `s.split(sep)`. */
  lemma DelimitedIsPiece(s: string, sep: char, p: string)
    requires sep !in p
    requires s == p || StartsWith(s, p + [sep]) || EndsWith(s, [sep] + p)
      || Contains(s, [sep] + p + [sep])
    ensures p in Split(s, sep)
  {
    if s == p {
      SplitWithoutSep(p, sep);
    } else if StartsWith(s, p + [sep]) {
      var b := s[|p| + 1..];
      assert s == p + [sep] + b by {
        assert s == s[..|p| + 1] + b;
      }
      PieceAtStart(p, sep, b);
    } else if EndsWith(s, [sep] + p) {
      var a := s[..|s| - |p| - 1];
      assert s == a + [sep] + p by {
        assert s == a + s[|s| - |p| - 1..];
      }
      PieceAtEnd(a, sep, p);
    } else {
      var q := [sep] + p + [sep];
      var i :| OccursAt(s, q, i);
      OccursAtSplits(s, q, i);
      PieceInside(s[..i], sep, p, s[i + |q|..]);
    }
  }

  lemma PieceAtStart(p: string, sep: char, b: string)
    requires sep !in p
    ensures p in Split(p + [sep] + b, sep)
  {
    SplitWithoutSep(p, sep);
    SplitAround(p, sep, b);
    assert Split(p + [sep] + b, sep)[0] == p;
  }

  lemma PieceAtEnd(a: string, sep: char, p: string)
    requires sep !in p
    ensures p in Split(a + [sep] + p, sep)
  {
    SplitWithoutSep(p, sep);
    SplitAround(a, sep, p);
    var r := Split(a + [sep] + p, sep);
    assert r[|r| - 1] == p;
  }

  lemma PieceInside(a: string, sep: char, p: string, b: string)
    requires sep !in p
    ensures p in Split(a + ([sep] + p + [sep]) + b, sep)
  {
    var s := a + ([sep] + p + [sep]) + b;
    assert s == a + [sep] + (p + [sep] + b);
    SplitAround(a, sep, p + [sep] + b);
    PieceAtStart(p, sep, b);
  }

  /**
   * `p in s.split(sep)` holds exactly when `p` is delimited by the separator
   * or an end of `s` on both sides: `s` is `p`, starts with `p + sep`, ends
   * with `sep + p`, or contains `sep + p + sep`.
   */
  lemma PieceIffDelimited(s: string, sep: char, p: string)
    requires sep !in p
    ensures p in Split(s, sep) <==>
      s == p || StartsWith(s, p + [sep]) || EndsWith(s, [sep] + p)
      || Contains(s, [sep] + p + [sep])
  {
    if p in Split(s, sep) {
      PieceIsDelimited(s, sep, p);
    }
    if s == p || StartsWith(s, p + [sep]) || EndsWith(s, [sep] + p)
      || Contains(s, [sep] + p + [sep]) {
      DelimitedIsPiece(s, sep, p);
    }
  }

  /** ASCII case folding of one character, as `str.lower()` does for ASCII. */
  function LowerChar(c: char): char {
    if 'A' <= c <= 'Z' then (c as int + 32) as char else c
  }

  /** `s.lower()` restricted to ASCII letters. */
  function Lower(s: string): (r: string)
    ensures |r| == |s|
    ensures forall i :: 0 <= i < |s| ==> r[i] == LowerChar(s[i])
  {
    seq(|s|, i requires 0 <= i < |s| => LowerChar(s[i]))
  }
}
