/**
  Python string primitives the integration relies on, stated over `seq<char>`:
  `str.split(sep)`, `str.split()`, `str.strip()`, `str.replace(pat, '')`,
  `str.isdigit()` with `int()`, and `str(n)` for a non-negative integer.
 */
module Text {

  /** Python's `str.isspace()` for a single character. */
  predicate IsSpace(c: char) {
    || c == ' '
    || ('\t' <= c <= '\r')
    || ('\U{1C}' <= c <= '\U{1F}')
    || c == '\U{85}' || c == '\U{A0}' || c == '\U{1680}'
    || ('\U{2000}' <= c <= '\U{200A}')
    || c == '\U{2028}' || c == '\U{2029}' || c == '\U{202F}' || c == '\U{205F}' || c == '\U{3000}'
  }

  predicate NoSpace(w: string) {
    forall i :: 0 <= i < |w| ==> !IsSpace(w[i])
  }

  // ---------------------------------------------------------------------------
  // str.strip()

  function TrimStart(s: string): (r: string)
    ensures |r| <= |s| && r == s[|s| - |r|..]
    ensures r == [] || !IsSpace(r[0])
    ensures forall i :: 0 <= i < |s| - |r| ==> IsSpace(s[i])
  {
    if s != [] && IsSpace(s[0]) then TrimStart(s[1..]) else s
  }

  function TrimEnd(s: string): (r: string)
    ensures |r| <= |s| && r == s[..|r|]
    ensures r == [] || !IsSpace(r[|r| - 1])
    ensures forall i :: |r| <= i < |s| ==> IsSpace(s[i])
  {
    if s != [] && IsSpace(s[|s| - 1]) then TrimEnd(s[..|s| - 1]) else s
  }

  /** `r` is the slice of `s` at `a` with only whitespace before and after it. */
  predicate StrippedAt(s: string, r: string, a: int) {
    0 <= a <= |s| - |r| && r == s[a..a + |r|]
    && (forall i :: 0 <= i < a ==> IsSpace(s[i]))
    && (forall i :: a + |r| <= i < |s| ==> IsSpace(s[i]))
  }

  /**
    `s.strip()`: the slice of `s` left once the whitespace at both ends is cut
    away; it neither starts nor ends with whitespace, and everything cut is
    whitespace.
   */
  function Strip(s: string): (r: string)
    ensures |r| <= |s|
    ensures r == [] || (!IsSpace(r[0]) && !IsSpace(r[|r| - 1]))
    ensures exists a :: StrippedAt(s, r, a)
    ensures (s == [] || (!IsSpace(s[0]) && !IsSpace(s[|s| - 1]))) ==> r == s
  {
    TrimBoth(s);
    TrimEnd(TrimStart(s))
  }

  lemma TrimBoth(s: string)
    ensures StrippedAt(s, TrimEnd(TrimStart(s)), |s| - |TrimStart(s)|)
  {
    hide IsSpace, TrimStart, TrimEnd;
    var t := TrimStart(s);
    var r := TrimEnd(t);
    var a := |s| - |t|;
    assert t == s[a..];
    assert r == t[..|r|] == s[a..a + |r|];
    forall i | a + |r| <= i < |s|
      ensures IsSpace(s[i])
    {
      assert s[i] == t[i - a];
    }
  }

  // ---------------------------------------------------------------------------
  // str.split(sep) and sep.join(parts)

  /** `s.split(sep)` for a one-character separator: always at least one part. */
  function Split(s: string, sep: char): (parts: seq<string>)
    ensures |parts| >= 1
    ensures forall i :: 0 <= i < |parts| ==> sep !in parts[i]
  {
    if s == [] then [""]
    else
      var rest := Split(s[1..], sep);
      if s[0] == sep then [""] + rest
      else [[s[0]] + rest[0]] + rest[1..]
  }

  /** `sep.join(parts)`. */
  function Join(parts: seq<string>, sep: char): string
    requires |parts| >= 1
  {
    if |parts| == 1 then parts[0] else parts[0] + [sep] + Join(parts[1..], sep)
  }

  lemma {:induction false} JoinSplit(s: string, sep: char)
    ensures Join(Split(s, sep), sep) == s
  {
    if s != [] {
      JoinSplit(s[1..], sep);
      var rest := Split(s[1..], sep);
      if s[0] != sep {
        if |rest| > 1 {
          assert Split(s, sep)[1..] == rest[1..];
        }
      }
    }
  }

  /** Splitting `w + t`, where `w` holds no separator, glues `w` to the first part of `t`. */
  lemma {:induction false} SplitPrefix(w: string, sep: char, t: string)
    requires sep !in w
    ensures Split(w + t, sep) == [w + Split(t, sep)[0]] + Split(t, sep)[1..]
  {
    if w != [] {
      assert (w + t)[1..] == w[1..] + t;
      SplitPrefix(w[1..], sep, t);
      assert [w[0]] + (w[1..] + Split(t, sep)[0]) == w + Split(t, sep)[0];
    } else {
      assert w + t == t;
      assert w + Split(t, sep)[0] == Split(t, sep)[0];
      assert Split(t, sep) == [Split(t, sep)[0]] + Split(t, sep)[1..];
    }
  }

  /** Joining two lists of parts is joining each and putting the separator between. */
  lemma {:induction false} JoinConcat(x: seq<string>, y: seq<string>, sep: char)
    requires |x| >= 1 && |y| >= 1
    ensures Join(x + y, sep) == Join(x, sep) + [sep] + Join(y, sep)
  {
    if |x| == 1 {
      assert (x + y)[1..] == y;
    } else {
      JoinConcat(x[1..], y, sep);
      assert (x + y)[1..] == x[1..] + y;
    }
  }

  /** Splitting at a separator splits the text on either side of it separately. */
  lemma SplitConcat(a: string, sep: char, b: string)
    ensures Split(a + [sep] + b, sep) == Split(a, sep) + Split(b, sep)
  {
    var pa, pb := Split(a, sep), Split(b, sep);
    JoinSplit(a, sep);
    JoinSplit(b, sep);
    JoinConcat(pa, pb, sep);
    SplitJoin(pa + pb, sep);
  }

  /** A text without the separator is one part. */
  lemma SplitNone(t: string, sep: char)
    requires sep !in t
    ensures Split(t, sep) == [t]
  {
    SplitPrefix(t, sep, "");
    assert t + "" == t;
  }

  lemma {:induction false} SplitJoin(parts: seq<string>, sep: char)
    requires |parts| >= 1
    requires forall i :: 0 <= i < |parts| ==> sep !in parts[i]
    ensures Split(Join(parts, sep), sep) == parts
  {
    if |parts| == 1 {
      SplitPrefix(parts[0], sep, "");
      assert parts[0] + "" == parts[0];
    } else {
      var j := Join(parts[1..], sep);
      SplitJoin(parts[1..], sep);
      assert ([sep] + j)[1..] == j;
      assert Split([sep] + j, sep) == [""] + parts[1..];
      assert parts[0] + [sep] + j == parts[0] + ([sep] + j);
      SplitPrefix(parts[0], sep, [sep] + j);
      assert parts[0] + "" == parts[0];
    }
  }

  // ---------------------------------------------------------------------------
  // str.isdigit(), int(), str()

  predicate IsDigit(c: char) { '0' <= c <= '9' }

  /** `t.isdigit()` for the ASCII digits: non-empty and made only of digits. */
  predicate IsDigits(t: string) {
    |t| > 0 && forall i :: 0 <= i < |t| ==> IsDigit(t[i])
  }

  function DigitValue(c: char): nat
    requires IsDigit(c)
  {
    c as int - '0' as int
  }

  function DigitChar(d: nat): char
    requires d < 10
  {
    ('0' as int + d) as char
  }

  /** `int(t)` for a string of decimal digits (leading zeros allowed). */
  function ParseNat(t: string): nat
    requires forall i :: 0 <= i < |t| ==> IsDigit(t[i])
  {
    if t == [] then 0 else ParseNat(t[..|t| - 1]) * 10 + DigitValue(t[|t| - 1])
  }

  /** `str(n)` for a non-negative integer. */
  function NatToString(n: nat): (t: string)
    ensures IsDigits(t)
    ensures t[0] != '0' || n == 0
  {
    if n < 10 then [DigitChar(n)] else NatToString(n / 10) + [DigitChar(n % 10)]
  }

  lemma {:induction false} ParseNatToString(n: nat)
    ensures ParseNat(NatToString(n)) == n
  {
    if n >= 10 {
      var t := NatToString(n);
      assert t[..|t| - 1] == NatToString(n / 10);
      ParseNatToString(n / 10);
    }
  }

  // ---------------------------------------------------------------------------
  // str.split() with no argument

  /** Length of the run of non-whitespace characters that `s` starts with. */
  function WordLen(s: string): (n: nat)
    ensures n <= |s|
    ensures forall i :: 0 <= i < n ==> !IsSpace(s[i])
    ensures n < |s| ==> IsSpace(s[n])
  {
    if s == [] || IsSpace(s[0]) then 0 else 1 + WordLen(s[1..])
  }

  /** `s.split()`: the maximal runs of non-whitespace characters, in order. */
  function Words(s: string): (ws: seq<string>)
    decreases |s|
    ensures forall i :: 0 <= i < |ws| ==> ws[i] != [] && NoSpace(ws[i])
  {
    if s == [] then []
    else if IsSpace(s[0]) then Words(s[1..])
    else
      var n := WordLen(s);
      [s[..n]] + Words(s[n..])
  }

  lemma {:induction false} WordLenOfWord(w: string, t: string)
    requires NoSpace(w)
    requires t == [] || IsSpace(t[0])
    ensures WordLen(w + t) == |w|
  {
    if w != [] {
      assert (w + t)[1..] == w[1..] + t;
      WordLenOfWord(w[1..], t);
    } else {
      assert w + t == t;
    }
  }

  predicate AllSpace(g: string) {
    forall i :: 0 <= i < |g| ==> IsSpace(g[i])
  }

  /** `gaps[0] + ws[0] + gaps[1] + ... + ws[n - 1] + gaps[n]`. */
  function Interleave(gaps: seq<string>, ws: seq<string>): string
    requires |gaps| == |ws| + 1
  {
    if ws == [] then gaps[0] else gaps[0] + ws[0] + Interleave(gaps[1..], ws[1..])
  }

  /** The whitespace runs around and between the words of `s`, in order. */
  function Gaps(s: string): (gaps: seq<string>)
    decreases |s|
    ensures |gaps| == |Words(s)| + 1
    ensures forall i :: 0 <= i < |gaps| ==> AllSpace(gaps[i])
  {
    if s == [] then [""]
    else if IsSpace(s[0]) then
      var g := Gaps(s[1..]);
      g[0 := [s[0]] + g[0]]
    else [""] + Gaps(s[WordLen(s)..])
  }

  /**
    `s.split()` cuts `s` into its maximal runs of non-whitespace: the words,
    put back between whitespace gaps that are non-empty between two words,
    rebuild `s`.
   */
  lemma {:induction false} WordsRebuild(s: string)
    decreases |s|
    ensures Interleave(Gaps(s), Words(s)) == s
    ensures forall i :: 0 < i < |Gaps(s)| - 1 ==> Gaps(s)[i] != []
    ensures s != [] && IsSpace(s[0]) ==> Gaps(s)[0] != []
  {
    hide IsSpace, WordLen;
    if s == [] {
    } else if IsSpace(s[0]) {
      WordsRebuild(s[1..]);
      var g := Gaps(s[1..]);
      var ws := Words(s[1..]);
      if ws != [] {
        assert g[0 := [s[0]] + g[0]][1..] == g[1..];
      }
      assert [s[0]] + s[1..] == s;
    } else {
      var n := WordLen(s);
      WordsRebuild(s[n..]);
      var g := Gaps(s[n..]);
      assert ([""] + g)[1..] == g;
      assert ([s[..n]] + Words(s[n..]))[1..] == Words(s[n..]);
      assert s[..n] + s[n..] == s;
      assert "" + s[..n] + s[n..] == s;
    }
  }

  /** Words are recovered from a name written with single spaces between them. */
  lemma {:induction false} WordsOfJoin(ws: seq<string>)
    requires |ws| >= 1
    requires forall i :: 0 <= i < |ws| ==> ws[i] != [] && NoSpace(ws[i])
    ensures Words(Join(ws, ' ')) == ws
  {
    var w := ws[0];
    if |ws| == 1 {
      WordLenOfWord(w, "");
      assert w + "" == w;
      assert w[|w|..] == [];
    } else {
      var rest := Join(ws[1..], ' ');
      WordsOfJoin(ws[1..]);
      var t := [' '] + rest;
      WordLenOfWord(w, t);
      assert Join(ws, ' ') == w + t;
      assert (w + t)[..|w|] == w;
      assert (w + t)[|w|..] == t;
      assert t[1..] == rest;
    }
  }

  // ---------------------------------------------------------------------------
  // str.replace(pat, '')

  predicate OccursAt(s: string, pat: string, i: int) {
    0 <= i && i + |pat| <= |s| && s[i..i + |pat|] == pat
  }

  /** `s.replace(pat, '')`: removes the non-overlapping occurrences found left to right. */
  function RemoveAll(s: string, pat: string): (r: string)
    requires |pat| > 0
    decreases |s|
    ensures |r| <= |s|
  {
    if |s| < |pat| then s
    else if s[..|pat|] == pat then RemoveAll(s[|pat|..], pat)
    else [s[0]] + RemoveAll(s[1..], pat)
  }

  /** `pieces[0] + pat + pieces[1] + ... + pat + pieces[n - 1]`. */
  function JoinOn(pieces: seq<string>, pat: string): string
    requires |pieces| >= 1
  {
    if |pieces| == 1 then pieces[0] else pieces[0] + pat + JoinOn(pieces[1..], pat)
  }

  function Concat(pieces: seq<string>): string {
    if pieces == [] then [] else pieces[0] + Concat(pieces[1..])
  }

  /** No occurrence of `pat` in `t` starts before `n`. */
  predicate NoneBefore(t: string, pat: string, n: int) {
    forall j :: 0 <= j < n ==> !OccursAt(t, pat, j)
  }

  /**
    `pieces` cut out of `pieces[0] + pat + pieces[1] + ...` are the leftmost
    non-overlapping occurrences: the first occurrence after each piece is the
    one right after it, and the last piece has none.
   */
  predicate Leftmost(pieces: seq<string>, pat: string) {
    && |pieces| >= 1
    && (forall i :: 0 <= i < |pieces| - 1 ==> NoneBefore(pieces[i] + pat, pat, |pieces[i]|))
    && NoneBefore(pieces[|pieces| - 1], pat, |pieces[|pieces| - 1]|)
  }

  /** What is left between the occurrences `s.replace(pat, '')` removes. */
  function Pieces(s: string, pat: string): (ps: seq<string>)
    requires |pat| > 0
    decreases |s|
    ensures |ps| >= 1
  {
    if |s| < |pat| then [s]
    else if s[..|pat|] == pat then [""] + Pieces(s[|pat|..], pat)
    else
      var ps := Pieces(s[1..], pat);
      ps[0 := [s[0]] + ps[0]]
  }

  /** An occurrence past the first character is an occurrence in the rest. */
  lemma OccursShift(c: char, t: string, pat: string, j: int)
    requires j >= 1
    ensures OccursAt([c] + t, pat, j) <==> OccursAt(t, pat, j - 1)
  {
    if j + |pat| <= |t| + 1 {
      assert ([c] + t)[j..j + |pat|] == t[j - 1..j - 1 + |pat|];
    }
  }

  /** `s` is the pieces joined by the pattern. */
  lemma {:induction false} PiecesJoin(s: string, pat: string)
    requires |pat| > 0
    decreases |s|
    ensures JoinOn(Pieces(s, pat), pat) == s
  {
    hide RemoveAll, Concat;
    var ps := Pieces(s, pat);
    if |s| < |pat| {
    } else if s[..|pat|] == pat {
      var rest := s[|pat|..];
      PiecesJoin(rest, pat);
      assert ps[1..] == Pieces(rest, pat);
      assert pat + rest == s;
    } else {
      var rest := s[1..];
      PiecesJoin(rest, pat);
      var qs := Pieces(rest, pat);
      assert ps[0] == [s[0]] + qs[0] && ps[1..] == qs[1..];
      if |qs| == 1 {
        assert [s[0]] + rest == s;
      } else {
        var tail := JoinOn(qs[1..], pat);
        assert [s[0]] + (qs[0] + pat + tail) == ([s[0]] + qs[0]) + pat + tail;
      }
    }
  }

  /**
    `s.replace(pat, '')` cuts `s` at occurrences of `pat`: `s` is the pieces
    joined by `pat`, and the result is the pieces joined by nothing.
   */
  lemma {:induction false} RemoveAllPieces(s: string, pat: string)
    requires |pat| > 0
    decreases |s|
    ensures JoinOn(Pieces(s, pat), pat) == s
    ensures Concat(Pieces(s, pat)) == RemoveAll(s, pat)
  {
    PiecesJoin(s, pat);
    hide JoinOn;
    var ps := Pieces(s, pat);
    if |s| < |pat| {
      assert Concat(ps) == s + Concat([]);
    } else if s[..|pat|] == pat {
      RemoveAllPieces(s[|pat|..], pat);
      assert ps[1..] == Pieces(s[|pat|..], pat);
    } else {
      RemoveAllPieces(s[1..], pat);
      var qs := Pieces(s[1..], pat);
      assert ps[0] == [s[0]] + qs[0] && ps[1..] == qs[1..];
      assert [s[0]] + (qs[0] + Concat(qs[1..])) == ([s[0]] + qs[0]) + Concat(qs[1..]);
    }
  }

  /** Leftmost pieces stay leftmost when the first piece is replaced by one that is clear of occurrences. */
  lemma LeftmostFirst(qs: seq<string>, p0: string, pat: string)
    requires Leftmost(qs, pat)
    requires |qs| == 1 ==> NoneBefore(p0, pat, |p0|)
    requires |qs| > 1 ==> NoneBefore(p0 + pat, pat, |p0|)
    ensures Leftmost(qs[0 := p0], pat)
  {
  }

  lemma LeftmostEmptyFirst(qs: seq<string>, pat: string)
    requires Leftmost(qs, pat)
    ensures Leftmost([""] + qs, pat)
  {
    assert ([""] + qs)[1..] == qs;
  }

  /** An occurrence in `u` is one in any extension of `u`. */
  lemma OccursExtend(u: string, v: string, pat: string, j: int)
    requires OccursAt(u, pat, j)
    ensures OccursAt(u + v, pat, j)
  {
    assert (u + v)[j..j + |pat|] == u[j..j + |pat|];
  }

  /** Putting a character in front, where no occurrence starts, keeps the first occurrence's position clear. */
  lemma NoneBeforeCons(c: char, u: string, pat: string, n: int)
    requires NoneBefore(u, pat, n)
    requires !OccursAt([c] + u, pat, 0)
    ensures NoneBefore([c] + u, pat, n + 1)
  {
    forall j | 1 <= j < n + 1
      ensures !OccursAt([c] + u, pat, j)
    {
      OccursShift(c, u, pat, j);
    }
  }

  /** The occurrences `s.replace(pat, '')` removes are the leftmost non-overlapping ones. */
  lemma {:induction false} PiecesLeftmost(s: string, pat: string)
    requires |pat| > 0
    decreases |s|
    ensures Leftmost(Pieces(s, pat), pat)
  {
    if |s| < |pat| {
    } else if s[..|pat|] == pat {
      PiecesLeftmost(s[|pat|..], pat);
      LeftmostEmptyFirst(Pieces(s[|pat|..], pat), pat);
    } else {
      var rest := s[1..];
      PiecesLeftmost(rest, pat);
      PiecesJoin(rest, pat);
      hide Leftmost, NoneBefore, RemoveAll;
      var qs := Pieces(rest, pat);
      var p0 := [s[0]] + qs[0];
      assert !OccursAt(s, pat, 0);
      if |qs| == 1 {
        assert p0 == s;
        NoneBeforeCons(s[0], qs[0], pat, |qs[0]|);
      } else {
        var tail := JoinOn(qs[1..], pat);
        assert s == [s[0]] + rest == ([s[0]] + (qs[0] + pat)) + tail;
        if OccursAt([s[0]] + (qs[0] + pat), pat, 0) {
          OccursExtend([s[0]] + (qs[0] + pat), tail, pat, 0);
        }
        NoneBeforeCons(s[0], qs[0] + pat, pat, |qs[0]|);
        assert [s[0]] + (qs[0] + pat) == p0 + pat;
      }
      LeftmostFirst(qs, p0, pat);
    }
  }

  lemma {:induction false} RemoveAllAbsent(s: string, pat: string)
    requires |pat| > 0
    requires forall i :: !OccursAt(s, pat, i)
    decreases |s|
    ensures RemoveAll(s, pat) == s
  {
    if |s| >= |pat| {
      assert !OccursAt(s, pat, 0);
      assert s[..|pat|] != pat;
      forall i ensures !OccursAt(s[1..], pat, i) {
        if OccursAt(s[1..], pat, i) {
          assert s[1..][i..i + |pat|] == s[i + 1..i + 1 + |pat|];
          assert OccursAt(s, pat, i + 1);
        }
      }
      RemoveAllAbsent(s[1..], pat);
      assert [s[0]] + s[1..] == s;
    }
  }
  /** `replace` only deletes: every character of the result is a character of `s`. */
  lemma {:induction false} RemoveAllKeeps(s: string, pat: string, c: char)
    requires |pat| > 0
    requires c in RemoveAll(s, pat)
    decreases |s|
    ensures c in s
  {
    if |s| >= |pat| {
      if s[..|pat|] == pat {
        RemoveAllKeeps(s[|pat|..], pat, c);
      } else if c != s[0] {
        RemoveAllKeeps(s[1..], pat, c);
      }
    }
  }

  /** Replacing a one-character pattern leaves none of it. */
  lemma {:induction false} RemoveAllChar(s: string, c: char)
    decreases |s|
    ensures c !in RemoveAll(s, [c])
  {
    if |s| >= 1 {
      if s[..1] == [c] {
        RemoveAllChar(s[1..], c);
      } else {
        assert s[0] != c;
        RemoveAllChar(s[1..], c);
      }
    }
  }
}
