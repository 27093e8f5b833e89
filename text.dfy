// The JavaScript string operations the calculator pages use: `trim`,
// `split` on the regular expression /[\s,]+/, `match(/[a-zA-Z]+/g)`,
// `split` on one character, `Array.prototype.join` and `replace(/p/g, r)`.

module Text {

  /** The class `\s` of a JavaScript regular expression; also what `trim` removes. */
  predicate IsSpace(c: char)
  {
    || c == '\t' || c == '\n' || c == '\U{000B}' || c == '\U{000C}' || c == '\r' || c == ' '
    || c == '\U{00A0}' || c == '\U{1680}' || ('\U{2000}' <= c <= '\U{200A}')
    || c == '\U{2028}' || c == '\U{2029}' || c == '\U{202F}' || c == '\U{205F}'
    || c == '\U{3000}' || c == '\U{FEFF}'
  }

  /** The class `[\s,]`. */
  predicate IsSeparator(c: char)
  {
    IsSpace(c) || c == ','
  }

  /** The class `[a-zA-Z]`. */
  predicate IsAsciiLetter(c: char)
  {
    ('a' <= c <= 'z') || ('A' <= c <= 'Z')
  }

  predicate IsNotAsciiLetter(c: char)
  {
    !IsAsciiLetter(c)
  }

  predicate NoSeparator(f: string)
  {
    forall k :: 0 <= k < |f| ==> !IsSeparator(f[k])
  }

  // ---------------------------------------------------------------------------
  // trim

  function TrimStart(s: string): (r: string)
    ensures |r| <= |s| && r == s[|s| - |r|..]
    ensures forall k :: 0 <= k < |s| - |r| ==> IsSpace(s[k])
    ensures r == [] || !IsSpace(r[0])
  {
    if s != [] && IsSpace(s[0]) then
      var r := TrimStart(s[1..]);
      assert s[1..][|s| - 1 - |r|..] == s[|s| - |r|..];
      assert forall k :: 1 <= k < |s| ==> s[k] == s[1..][k - 1];
      r
    else s
  }

  function TrimEnd(s: string): (r: string)
    ensures |r| <= |s| && r == s[..|r|]
    ensures forall k :: |r| <= k < |s| ==> IsSpace(s[k])
    ensures r == [] || !IsSpace(r[|r| - 1])
  {
    if s != [] && IsSpace(s[|s| - 1]) then
      var r := TrimEnd(s[..|s| - 1]);
      assert s[..|s| - 1][..|r|] == s[..|r|];
      assert forall k :: 0 <= k < |s| - 1 ==> s[k] == s[..|s| - 1][k];
      r
    else s
  }

  /** `s.trim()`: the text between the leading and the trailing white space. */
  function Trim(s: string): (r: string)
    ensures |r| <= |s|
    ensures r == [] || (!IsSpace(r[0]) && !IsSpace(r[|r| - 1]))
  {
    TrimEnd(TrimStart(s))
  }

  /**
   * `r` is `s` with the white space before position `i` and the white space
   * after `r` removed: `r` is the slice of `s` starting at `i`, and
   * everything before and after that slice is white space.
   */
  ghost predicate Stripped(s: string, i: nat, r: string)
  {
    && i + |r| <= |s| && r == s[i..i + |r|]
    && (forall k :: 0 <= k < i ==> IsSpace(s[k]))
    && (forall k :: i + |r| <= k < |s| ==> IsSpace(s[k]))
  }

  /**
   * Trim removes the leading and the trailing white space and nothing else:
   * the result is the slice of the input between the two runs of white space.
   */
  lemma TrimContent(s: string)
    ensures Stripped(s, |s| - |TrimStart(s)|, Trim(s))
  {
    TrimParts(s, TrimStart(s), Trim(s));
  }

  /** What TrimStart and then TrimEnd cut off is white space, and what is left is a slice of the input. */
  lemma TrimParts(s: string, t: string, r: string)
    requires |t| <= |s| && t == s[|s| - |t|..] && forall k :: 0 <= k < |s| - |t| ==> IsSpace(s[k])
    requires |r| <= |t| && r == t[..|r|] && forall k :: |r| <= k < |t| ==> IsSpace(t[k])
    ensures Stripped(s, |s| - |t|, r)
  {
    var i := |s| - |t|;
    forall k | i + |r| <= k < |s| ensures IsSpace(s[k]) {
      assert s[k] == t[k - i];
    }
  }

  /**
   * `!s.trim()`: the input the pages reject as empty, stated as "every
   * character is white space"; BlankIffTrimEmpty shows it is exactly the
   * input whose trim is the empty string.
   */
  predicate Blank(s: string)
  {
    forall k :: 0 <= k < |s| ==> IsSpace(s[k])
  }

  /** A string is blank exactly when trimming it leaves nothing. */
  lemma BlankIffTrimEmpty(s: string)
    ensures Blank(s) <==> Trim(s) == ""
  {
    var t := TrimStart(s);
    if Trim(s) == "" {
      assert t == [];
    } else {
      var r := Trim(s);
      assert r == t[..|r|] && r[0] == t[0];
      assert t[0] == s[|s| - |t|];
    }
  }

  /** Text that neither starts nor ends with white space is its own trim. */
  lemma TrimUnchanged(s: string)
    requires s == [] || (!IsSpace(s[0]) && !IsSpace(s[|s| - 1]))
    ensures Trim(s) == s
  {
    assert TrimStart(s) == s;
  }

  // ---------------------------------------------------------------------------
  // scanning

  /** The first index at or after `i` whose character does not satisfy `p`. */
  function SkipWhile(s: string, i: nat, p: char -> bool): (j: nat)
    requires i <= |s|
    ensures i <= j <= |s|
    ensures forall k :: i <= k < j ==> p(s[k])
    ensures j == |s| || !p(s[j])
    decreases |s| - i
  {
    if i < |s| && p(s[i]) then SkipWhile(s, i + 1, p) else i
  }

  /** SkipWhile is determined by its contract: it stops at the first failing index. */
  lemma {:induction false} SkipWhileAt(s: string, i: nat, p: char -> bool, j: nat)
    requires i <= j <= |s|
    requires forall k :: i <= k < j ==> p(s[k])
    requires j == |s| || !p(s[j])
    ensures SkipWhile(s, i, p) == j
    decreases j - i
  {
    if i < j {
      SkipWhileAt(s, i + 1, p, j);
    }
  }

  // ---------------------------------------------------------------------------
  // s.split(/[\s,]+/)

  /** The end of the piece that starts at `i`: the first `[\s,]` at or after `i`, or the end. */
  function FieldEnd(s: string, i: nat): (j: nat)
    requires i <= |s|
    ensures i <= j <= |s|
    ensures forall k :: i <= k < j ==> !IsSeparator(s[k])
    ensures j == |s| || IsSeparator(s[j])
    decreases |s| - i
  {
    if i < |s| && !IsSeparator(s[i]) then FieldEnd(s, i + 1) else i
  }

  /** The end of the run of `[\s,]` that starts at `i`. */
  function RunEnd(s: string, i: nat): (j: nat)
    requires i <= |s|
    ensures i <= j <= |s|
    ensures forall k :: i <= k < j ==> IsSeparator(s[k])
    ensures j == |s| || !IsSeparator(s[j])
    decreases |s| - i
  {
    if i < |s| && IsSeparator(s[i]) then RunEnd(s, i + 1) else i
  }

  /** FieldEnd is determined by its contract. */
  lemma {:induction false} FieldEndAt(s: string, i: nat, j: nat)
    requires i <= j <= |s|
    requires forall k :: i <= k < j ==> !IsSeparator(s[k])
    requires j == |s| || IsSeparator(s[j])
    ensures FieldEnd(s, i) == j
    decreases j - i
  {
    if i < j {
      FieldEndAt(s, i + 1, j);
    }
  }

  /** RunEnd is determined by its contract. */
  lemma {:induction false} RunEndAt(s: string, i: nat, j: nat)
    requires i <= j <= |s|
    requires forall k :: i <= k < j ==> IsSeparator(s[k])
    requires j == |s| || !IsSeparator(s[j])
    ensures RunEnd(s, i) == j
    decreases j - i
  {
    if i < j {
      RunEndAt(s, i + 1, j);
    }
  }

  /**
   * `s.split(/[\s,]+/)`: the pieces between maximal runs of `[\s,]`, with an
   * empty piece before a leading run and after a trailing one. It never
   * returns an empty list.
   */
  function Fields(s: string): (r: seq<string>)
    ensures |r| >= 1
    decreases |s|
  {
    var j := FieldEnd(s, 0);
    if j == |s| then [s] else [s[..j]] + Fields(s[RunEnd(s, j)..])
  }

  /** A string made only of white space and commas splits into empty pieces only. */
  lemma FieldsOfSeparators(s: string)
    requires forall k :: 0 <= k < |s| ==> IsSeparator(s[k])
    ensures forall f :: f in Fields(s) ==> f == ""
  {
    if s != [] {
      assert FieldEnd(s, 0) == 0 && RunEnd(s, 0) == |s|;
      assert Fields(s) == [s[..0]] + Fields(s[|s|..]);
      assert Fields("") == [""];
    }
  }

  /** A piece free of separators is one field. */
  lemma FieldsOfPiece(x: string)
    requires NoSeparator(x)
    ensures Fields(x) == [x]
  {
    FieldEndAt(x, 0, |x|);
  }

  // ---------------------------------------------------------------------------
  // Array.prototype.join

  /** `xs.join(sep)`. */
  function Join(xs: seq<string>, sep: string): string
  {
    if xs == [] then "" else if |xs| == 1 then xs[0] else xs[0] + sep + Join(xs[1..], sep)
  }

  lemma {:induction false} JoinStartsWithFirst(xs: seq<string>, sep: string)
    requires xs != [] && xs[0] != ""
    ensures Join(xs, sep) != "" && Join(xs, sep)[0] == xs[0][0]
  {
  }

  lemma {:induction false} JoinEndsWithLast(xs: seq<string>, sep: string)
    requires xs != [] && xs[|xs| - 1] != ""
    ensures var t := Join(xs, sep); t != "" && t[|t| - 1] == xs[|xs| - 1][|xs[|xs| - 1]| - 1]
  {
    if |xs| > 1 {
      JoinEndsWithLast(xs[1..], sep);
    }
  }

  /** A character in neither the pieces nor the separator is not in the joined text. */
  lemma {:induction false} JoinAvoids(xs: seq<string>, sep: string, c: char)
    requires forall k :: 0 <= k < |xs| ==> c !in xs[k]
    requires c !in sep
    ensures c !in Join(xs, sep)
  {
    if |xs| > 1 {
      JoinAvoids(xs[1..], sep, c);
    }
  }

  /** A piece, a run of separators and a rest that starts with a field character: the piece is split off. */
  lemma FieldsOfPieceThenRest(x: string, sep: string, rest: string)
    requires NoSeparator(x)
    requires sep != [] && forall k :: 0 <= k < |sep| ==> IsSeparator(sep[k])
    requires rest != [] && !IsSeparator(rest[0])
    ensures Fields(x + sep + rest) == [x] + Fields(rest)
  {
    var s := x + sep + rest;
    var j, k := |x|, |x| + |sep|;
    forall m | 0 <= m < j ensures !IsSeparator(s[m]) {
      assert s[m] == x[m];
    }
    forall m | j <= m < k ensures IsSeparator(s[m]) {
      assert s[m] == sep[m - j];
    }
    assert s[k] == rest[0];
    FieldEndAt(s, 0, j);
    RunEndAt(s, j, k);
    assert s[..j] == x && s[k..] == rest;
  }

  /**
   * Joining non-empty pieces free of white space and commas with a separator
   * made of white space and commas, then splitting on /[\s,]+/, gives the
   * pieces back.
   */
  lemma {:induction false} FieldsOfJoin(xs: seq<string>, sep: string)
    requires xs != []
    requires forall k :: 0 <= k < |xs| ==> xs[k] != "" && NoSeparator(xs[k])
    requires sep != [] && forall k :: 0 <= k < |sep| ==> IsSeparator(sep[k])
    ensures Fields(Join(xs, sep)) == xs
  {
    if |xs| == 1 {
      FieldsOfPiece(xs[0]);
    } else {
      var rest := Join(xs[1..], sep);
      JoinStartsWithFirst(xs[1..], sep);
      FieldsOfPieceThenRest(xs[0], sep, rest);
      FieldsOfJoin(xs[1..], sep);
      assert xs == [xs[0]] + xs[1..];
    }
  }

  // ---------------------------------------------------------------------------
  // counting characters

  function CountChar(s: string, c: char): nat
  {
    if s == [] then 0 else (if s[0] == c then 1 else 0) + CountChar(s[1..], c)
  }

  lemma {:induction false} CountCharAppend(a: string, b: string, c: char)
    ensures CountChar(a + b, c) == CountChar(a, c) + CountChar(b, c)
  {
    if a != [] {
      assert (a + b)[0] == a[0] && (a + b)[1..] == a[1..] + b;
      CountCharAppend(a[1..], b, c);
    } else {
      assert a + b == b;
    }
  }

  lemma {:induction false} CountCharAbsent(s: string, c: char)
    requires c !in s
    ensures CountChar(s, c) == 0
  {
    if s != [] {
      CountCharAbsent(s[1..], c);
    }
  }

  /** Joining n pieces that do not contain `c` puts n - 1 copies of the separator's `c`s in. */
  lemma {:induction false} CountCharJoin(xs: seq<string>, sep: string, c: char)
    requires xs != []
    requires forall k :: 0 <= k < |xs| ==> c !in xs[k]
    ensures CountChar(Join(xs, sep), c) == (|xs| - 1) * CountChar(sep, c)
  {
    if |xs| == 1 {
      CountCharAbsent(xs[0], c);
    } else {
      CountCharJoin(xs[1..], sep, c);
      CountCharAppend(xs[0] + sep, Join(xs[1..], sep), c);
      CountCharAppend(xs[0], sep, c);
      CountCharAbsent(xs[0], c);
    }
  }

  // ---------------------------------------------------------------------------
  // s.split(d) for one character d

  /** `s.split(d)`: the pieces between the occurrences of `d`, empty ones included. */
  function SplitOn(s: string, d: char): (r: seq<string>)
    ensures |r| == CountChar(s, d) + 1
    ensures forall f :: f in r ==> d !in f
  {
    if s == [] then [""]
    else
      var rest := SplitOn(s[1..], d);
      if s[0] == d then [""] + rest else [[s[0]] + rest[0]] + rest[1..]
  }

  /** Joining the pieces with the same character gives the string back. */
  lemma {:induction false} JoinSplitOn(s: string, d: char)
    ensures Join(SplitOn(s, d), [d]) == s
  {
    if s != [] {
      var rest := SplitOn(s[1..], d);
      JoinSplitOn(s[1..], d);
      if s[0] == d {
        assert SplitOn(s, d) == [""] + rest;
        JoinCons("", rest, [d]);
      } else {
        assert SplitOn(s, d) == [[s[0]] + rest[0]] + rest[1..];
        JoinGrowFirst(s[0], rest, [d]);
      }
      assert s == [s[0]] + s[1..];
    }
  }

  /** Joining a piece in front of other pieces puts the separator between them. */
  lemma JoinCons(x: string, xs: seq<string>, sep: string)
    requires xs != []
    ensures Join([x] + xs, sep) == x + sep + Join(xs, sep)
  {
    assert ([x] + xs)[1..] == xs;
  }

  /** A character put in front of the first piece comes out in front of the joined text. */
  lemma JoinGrowFirst(c: char, xs: seq<string>, sep: string)
    requires xs != []
    ensures Join([[c] + xs[0]] + xs[1..], sep) == [c] + Join(xs, sep)
  {
    var ys := [[c] + xs[0]] + xs[1..];
    assert ys[0] == [c] + xs[0] && ys[1..] == xs[1..];
    if |xs| > 1 {
      assert [c] + xs[0] + sep + Join(xs[1..], sep) == [c] + (xs[0] + sep + Join(xs[1..], sep));
    }
  }

  /** Text without the delimiter is one piece. */
  lemma {:induction false} SplitOnAbsent(s: string, d: char)
    requires d !in s
    ensures SplitOn(s, d) == [s]
  {
    if s != [] {
      SplitOnAbsent(s[1..], d);
      assert s == [s[0]] + s[1..];
    }
  }

  /** A delimiter ends the pieces of the text before it and starts those of the text after it. */
  lemma {:induction false} SplitOnAround(a: string, b: string, d: char)
    ensures SplitOn(a + [d] + b, d) == SplitOn(a, d) + SplitOn(b, d)
  {
    var s := a + [d] + b;
    if a == [] {
      assert s == [d] + b && s[1..] == b;
    } else {
      assert s[0] == a[0] && s[1..] == a[1..] + [d] + b;
      SplitOnAround(a[1..], b, d);
    }
  }

  /** Splitting pieces joined by a delimiter they do not contain gives the pieces back. */
  lemma {:induction false} SplitOnJoin(xs: seq<string>, d: char)
    requires xs != []
    requires forall k :: 0 <= k < |xs| ==> d !in xs[k]
    ensures SplitOn(Join(xs, [d]), d) == xs
  {
    if |xs| == 1 {
      SplitOnAbsent(xs[0], d);
    } else {
      SplitOnJoin(xs[1..], d);
      SplitOnAbsent(xs[0], d);
      SplitOnAround(xs[0], Join(xs[1..], [d]), d);
    }
  }

  // ---------------------------------------------------------------------------
  // s.match(/[a-zA-Z]+/g)

  /** The maximal non-empty runs of ASCII letters in `s[i..]`, left to right. */
  function LetterRunsFrom(s: string, i: nat): (r: seq<string>)
    requires i <= |s|
    ensures forall w :: w in r ==> w != ""
    decreases |s| - i
  {
    var a := SkipWhile(s, i, IsNotAsciiLetter);
    if a == |s| then []
    else
      var b := SkipWhile(s, a, IsAsciiLetter);
      [s[a..b]] + LetterRunsFrom(s, b)
  }

  /** `s.match(/[a-zA-Z]+/g) || []`. */
  function LetterRuns(s: string): seq<string>
  {
    LetterRunsFrom(s, 0)
  }

  /** `s[a..b]` is a maximal non-empty run of ASCII letters. */
  predicate IsLetterRun(s: string, a: int, b: int)
  {
    && 0 <= a < b <= |s|
    && (forall k :: a <= k < b ==> IsAsciiLetter(s[k]))
    && (a == 0 || !IsAsciiLetter(s[a - 1]))
    && (b == |s| || !IsAsciiLetter(s[b]))
  }

  /** Position `i` does not cut a run of letters in two. */
  predicate AtRunBoundary(s: string, i: nat)
    requires i <= |s|
  {
    i == 0 || i == |s| || !IsAsciiLetter(s[i - 1]) || !IsAsciiLetter(s[i])
  }

  /** Every string the scan returns is a maximal run of letters of `s`. */
  lemma {:induction false} LetterRunsFromSound(s: string, i: nat, w: string)
    requires i <= |s| && AtRunBoundary(s, i)
    requires w in LetterRunsFrom(s, i)
    ensures exists a, b :: i <= a && IsLetterRun(s, a, b) && s[a..b] == w
    decreases |s| - i
  {
    var a := SkipWhile(s, i, IsNotAsciiLetter);
    var b := SkipWhile(s, a, IsAsciiLetter);
    if w == s[a..b] {
      assert IsLetterRun(s, a, b);
    } else {
      LetterRunsFromSound(s, b, w);
    }
  }

  /** Every maximal run of letters at or after `i` is returned by the scan. */
  lemma {:induction false} LetterRunsFromComplete(s: string, i: nat, a: int, b: int)
    requires i <= |s| && AtRunBoundary(s, i)
    requires i <= a && IsLetterRun(s, a, b)
    ensures s[a..b] in LetterRunsFrom(s, i)
    decreases |s| - i
  {
    var a' := SkipWhile(s, i, IsNotAsciiLetter);
    assert !IsNotAsciiLetter(s[a]);
    var b' := SkipWhile(s, a', IsAsciiLetter);
    if a' == a {
      SkipWhileAt(s, a, IsAsciiLetter, b);
    } else {
      assert !IsAsciiLetter(s[a - 1]);
      assert b' <= a - 1;
      LetterRunsFromComplete(s, b', a, b);
    }
  }

  /** Where each run returned by `LetterRunsFrom(s, i)` starts in `s`. */
  function RunStartsFrom(s: string, i: nat): seq<nat>
    requires i <= |s|
    decreases |s| - i
  {
    var a := SkipWhile(s, i, IsNotAsciiLetter);
    if a == |s| then []
    else
      var b := SkipWhile(s, a, IsAsciiLetter);
      [a] + RunStartsFrom(s, b)
  }

  /** Where each run returned by `LetterRuns(s)` starts in `s`. */
  function RunStarts(s: string): seq<nat>
  {
    RunStartsFrom(s, 0)
  }

  /** One step of the scan: the run at the first letter, then the scan after it. */
  lemma LetterRunsFromStep(s: string, i: nat)
    requires i <= |s|
    ensures var a := SkipWhile(s, i, IsNotAsciiLetter);
      a < |s| ==>
        var b := SkipWhile(s, a, IsAsciiLetter);
        && LetterRunsFrom(s, i) == [s[a..b]] + LetterRunsFrom(s, b)
        && RunStartsFrom(s, i) == [a] + RunStartsFrom(s, b)
  {
  }

  /** `w` is the maximal run of letters of `s` starting at `a`, at or after `lo`. */
  ghost predicate RunAt(s: string, w: string, a: nat, lo: nat)
  {
    lo <= a && a + |w| <= |s| && IsLetterRun(s, a, a + |w|) && w == s[a..a + |w|]
  }

  /** `runs[k]` is the maximal run of letters of `s` starting at `starts[k]`, at or after `lo`. */
  ghost predicate RunsAt(s: string, runs: seq<string>, starts: seq<nat>, lo: nat)
  {
    |starts| == |runs| && forall k :: 0 <= k < |runs| ==> RunAt(s, runs[k], starts[k], lo)
  }

  lemma RunAtIndex(s: string, runs: seq<string>, starts: seq<nat>, lo: nat, k: nat)
    requires RunsAt(s, runs, starts, lo) && k < |runs|
    ensures RunAt(s, runs[k], starts[k], lo)
  {
  }

  /** Each run ends at or before the start of every later one. */
  ghost predicate InOrder(runs: seq<string>, starts: seq<nat>)
    requires |starts| == |runs|
  {
    forall k, m :: 0 <= k < m < |runs| ==> starts[k] + |runs[k]| <= starts[m]
  }

  lemma RunsAtCons(s: string, a: nat, b: nat, runs: seq<string>, starts: seq<nat>, lo: nat)
    requires lo <= a && IsLetterRun(s, a, b)
    requires RunsAt(s, runs, starts, b)
    ensures RunsAt(s, [s[a..b]] + runs, [a] + starts, lo)
  {
    var runs', starts' := [s[a..b]] + runs, [a] + starts;
    forall k | 0 <= k < |runs'| ensures RunAt(s, runs'[k], starts'[k], lo) {
      if k > 0 {
        assert runs'[k] == runs[k - 1] && starts'[k] == starts[k - 1];
        assert RunAt(s, runs[k - 1], starts[k - 1], b);
      }
    }
  }

  lemma InOrderCons(s: string, a: nat, b: nat, runs: seq<string>, starts: seq<nat>)
    requires a <= b <= |s| && RunsAt(s, runs, starts, b) && InOrder(runs, starts)
    ensures InOrder([s[a..b]] + runs, [a] + starts)
  {
    var runs', starts' := [s[a..b]] + runs, [a] + starts;
    forall k, m | 0 <= k < m < |runs'| ensures starts'[k] + |runs'[k]| <= starts'[m] {
      assert runs'[m] == runs[m - 1] && starts'[m] == starts[m - 1];
      assert RunAt(s, runs[m - 1], starts[m - 1], b);
      if k > 0 {
        assert runs'[k] == runs[k - 1] && starts'[k] == starts[k - 1];
      }
    }
  }

  /**
   * The scan reads `s` left to right: the k-th returned string is the maximal
   * run of letters starting at the k-th start, and each run ends at or
   * before the start of every later one.
   */
  lemma {:induction false} LetterRunsFromAt(s: string, i: nat)
    requires i <= |s| && AtRunBoundary(s, i)
    ensures RunsAt(s, LetterRunsFrom(s, i), RunStartsFrom(s, i), i)
    ensures InOrder(LetterRunsFrom(s, i), RunStartsFrom(s, i))
    decreases |s| - i
  {
    var a := SkipWhile(s, i, IsNotAsciiLetter);
    LetterRunsFromStep(s, i);
    if a < |s| {
      var b := SkipWhile(s, a, IsAsciiLetter);
      LetterRunsFromAt(s, b);
      assert IsLetterRun(s, a, b);
      RunsAtCons(s, a, b, LetterRunsFrom(s, b), RunStartsFrom(s, b), i);
      InOrderCons(s, a, b, LetterRunsFrom(s, b), RunStartsFrom(s, b));
    }
  }

  /** Some entry of `runs` is `w`, with start `a`. */
  ghost predicate FoundAt(runs: seq<string>, starts: seq<nat>, a: nat, w: string)
  {
    exists k :: 0 <= k < |starts| && k < |runs| && starts[k] == a && runs[k] == w
  }

  lemma FoundAtCons(x: string, y: nat, runs: seq<string>, starts: seq<nat>, a: nat, w: string)
    requires FoundAt(runs, starts, a, w)
    ensures FoundAt([x] + runs, [y] + starts, a, w)
  {
    var k :| 0 <= k < |starts| && k < |runs| && starts[k] == a && runs[k] == w;
    assert ([y] + starts)[k + 1] == a && ([x] + runs)[k + 1] == w;
  }

  /** Every maximal run of letters at or after `i` is returned by the scan, at its own start. */
  lemma {:induction false} LetterRunsFromCompleteAt(s: string, i: nat, a: nat, b: nat)
    requires i <= |s| && AtRunBoundary(s, i)
    requires i <= a && IsLetterRun(s, a, b)
    ensures FoundAt(LetterRunsFrom(s, i), RunStartsFrom(s, i), a, s[a..b])
    decreases |s| - i
  {
    var a' := SkipWhile(s, i, IsNotAsciiLetter);
    assert !IsNotAsciiLetter(s[a]);
    var b' := SkipWhile(s, a', IsAsciiLetter);
    LetterRunsFromStep(s, i);
    if a' == a {
      SkipWhileAt(s, a, IsAsciiLetter, b);
      var runs, starts := LetterRunsFrom(s, i), RunStartsFrom(s, i);
      assert starts[0] == a && runs[0] == s[a..b];
    } else {
      assert !IsAsciiLetter(s[a - 1]);
      assert b' <= a - 1;
      LetterRunsFromCompleteAt(s, b', a, b);
      FoundAtCons(s[a'..b'], a', LetterRunsFrom(s, b'), RunStartsFrom(s, b'), a, s[a..b]);
    }
  }

  /** The scan finds nothing exactly when the string has no ASCII letter. */
  lemma LetterRunsEmpty(s: string)
    ensures LetterRuns(s) == [] <==> forall k :: 0 <= k < |s| ==> !IsAsciiLetter(s[k])
  {
  }

  // ---------------------------------------------------------------------------
  // s.replace(/pat/g, rep)

  /** `s.replace(/pat/g, rep)` for a literal pattern: non-overlapping matches, left to right. */
  function ReplaceAll(s: string, pat: string, rep: string): string
    requires pat != []
    decreases |s|
  {
    if |s| < |pat| then s
    else if s[..|pat|] == pat then rep + ReplaceAll(s[|pat|..], pat, rep)
    else [s[0]] + ReplaceAll(s[1..], pat, rep)
  }

  /** Replacing a pattern by itself changes nothing. */
  lemma {:induction false} ReplaceAllSame(s: string, pat: string)
    requires pat != []
    ensures ReplaceAll(s, pat, pat) == s
    decreases |s|
  {
    if |s| >= |pat| {
      if s[..|pat|] == pat {
        ReplaceAllSame(s[|pat|..], pat);
        assert s == s[..|pat|] + s[|pat|..];
      } else {
        ReplaceAllSame(s[1..], pat);
        assert s == [s[0]] + s[1..];
      }
    }
  }

  /** Replacing one character works character by character. */
  lemma {:induction false} ReplaceCharAppend(a: string, b: string, c: char, rep: string)
    ensures ReplaceAll(a + b, [c], rep) == ReplaceAll(a, [c], rep) + ReplaceAll(b, [c], rep)
  {
    if a != [] {
      assert (a + b)[1..] == a[1..] + b;
      assert (a + b)[..1] == a[..1] && (a + b)[0] == a[0];
      ReplaceCharAppend(a[1..], b, c, rep);
      if a[..1] == [c] {
        assert ReplaceAll(a, [c], rep) == rep + ReplaceAll(a[1..], [c], rep);
      } else {
        assert ReplaceAll(a, [c], rep) == [a[0]] + ReplaceAll(a[1..], [c], rep);
      }
    } else {
      assert a + b == b;
    }
  }

  /** A one-character replacement leaves every other character as it is. */
  lemma ReplaceCharOther(x: char, c: char, rep: string)
    ensures ReplaceAll([x], [c], rep) == if x == c then rep else [x]
  {
    assert [x][..1] == [x] && [x][1..] == [];
  }

  /** Once replaced, the character is gone, provided the replacement does not contain it. */
  lemma {:induction false} ReplaceCharRemoves(s: string, c: char, rep: string)
    requires c !in rep
    ensures c !in ReplaceAll(s, [c], rep)
  {
    if s != [] {
      ReplaceCharRemoves(s[1..], c, rep);
    }
  }

  /** Replacing a character that does not occur changes nothing. */
  lemma {:induction false} ReplaceCharAbsent(s: string, c: char, rep: string)
    requires c !in s
    ensures ReplaceAll(s, [c], rep) == s
  {
    if s != [] {
      ReplaceCharAbsent(s[1..], c, rep);
      assert s == [s[0]] + s[1..];
    }
  }

  /** Replacing a character by another character keeps the length and changes exactly its occurrences. */
  lemma {:induction false} ReplaceCharByChar(s: string, c: char, d: char)
    ensures |ReplaceAll(s, [c], [d])| == |s|
    ensures forall k :: 0 <= k < |s| ==> ReplaceAll(s, [c], [d])[k] == if s[k] == c then d else s[k]
  {
    if s != [] {
      ReplaceCharByChar(s[1..], c, d);
    }
  }

  /** Each occurrence of the character grows the text by the length of the replacement less one. */
  lemma {:induction false} ReplaceCharLength(s: string, c: char, rep: string)
    ensures |ReplaceAll(s, [c], rep)| == |s| + CountChar(s, c) * (|rep| - 1)
  {
    if s != [] {
      ReplaceCharLength(s[1..], c, rep);
      assert s[..1] == [s[0]];
      var n := CountChar(s[1..], c);
      assert (1 + n) * (|rep| - 1) == (|rep| - 1) + n * (|rep| - 1);
    }
  }
}
