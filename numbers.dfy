// Lists of numbers turned into text with `Array.prototype.join`, as the
// statistics, linear algebra and plotting pages do when they build a payload.

module Numbers {

  import opened Values
  import opened Text

  /** Each number as `join` prints it. */
  function ShowAll(js: Runtime, xs: seq<Num>): (r: seq<string>)
    ensures |r| == |xs|
    ensures forall k :: 0 <= k < |xs| ==> r[k] == js.show(xs[k])
  {
    if xs == [] then [] else [js.show(xs[0])] + ShowAll(js, xs[1..])
  }

  /** `xs.join(sep)` for a list of numbers. */
  function JoinNumbers(js: Runtime, xs: seq<Num>, sep: string): string
  {
    Join(ShowAll(js, xs), sep)
  }

  /** A printed number is never empty and contains no white space, comma or semicolon. */
  lemma NumberText(js: Runtime, x: Num)
    requires js.Valid()
    ensures js.show(x) != "" && NoSeparator(js.show(x)) && ';' !in js.show(x)
  {
    var t := js.show(x);
    assert ShowsAsNumber(t);
    forall k | 0 <= k < |t| ensures !IsSeparator(t[k]) && t[k] != ';' {
      assert IsNumberChar(t[k]);
    }
  }

  /**
   * Splitting a joined list of numbers on /[\s,]+/ gives the printed numbers
   * back, when the separator is made of white space and commas.
   */
  lemma FieldsOfJoinNumbers(js: Runtime, xs: seq<Num>, sep: string)
    requires js.Valid()
    requires xs != []
    requires sep != [] && forall k :: 0 <= k < |sep| ==> IsSeparator(sep[k])
    ensures Fields(JoinNumbers(js, xs, sep)) == ShowAll(js, xs)
  {
    var ts := ShowAll(js, xs);
    forall k | 0 <= k < |ts| ensures ts[k] != "" && NoSeparator(ts[k]) {
      NumberText(js, xs[k]);
    }
    FieldsOfJoin(ts, sep);
  }

  /**
   * A character that never occurs in a printed number (a comma, a semicolon)
   * occurs in the joined list only inside the separators.
   */
  lemma CountInJoinNumbers(js: Runtime, xs: seq<Num>, sep: string, c: char)
    requires js.Valid()
    requires xs != []
    requires !IsNumberChar(c)
    ensures CountChar(JoinNumbers(js, xs, sep), c) == (|xs| - 1) * CountChar(sep, c)
  {
    var ts := ShowAll(js, xs);
    forall k | 0 <= k < |ts| ensures c !in ts[k] {
      assert ShowsAsNumber(js.show(xs[k]));
    }
    CountCharJoin(ts, sep, c);
  }
}
