// The function plotter page (src/pages/features/Plotting.jsx): the plot
// button rewrites '^' to '**' in the expression field, then the plot handler
// checks the expression, lists the x-values of the range in steps of 0.1,
// asks for the y-values and accepts only a JSON array of the same length.

module Plotting {

  import opened Values
  import opened Text
  import opened Hook
  import opened Numbers

  // ---------------------------------------------------------------------------
  // handlePlot's rewrite

  /** The replace chain of handlePlot: six identity replacements, then '^' to '**'. */
  function Rewrite(s: string): string
  {
    var a := ReplaceAll(s, "sin", "sin");
    var b := ReplaceAll(a, "cos", "cos");
    var c := ReplaceAll(b, "tan", "tan");
    var d := ReplaceAll(c, "log", "log");
    var e := ReplaceAll(d, "sqrt", "sqrt");
    var f := ReplaceAll(e, "exp", "exp");
    ReplaceAll(f, "^", "**")
  }

  /** Only the '^' replacement changes anything. */
  lemma RewriteIsCaretOnly(s: string)
    ensures Rewrite(s) == ReplaceAll(s, "^", "**")
  {
    ReplaceAllSame(s, "sin");
    ReplaceAllSame(s, "cos");
    ReplaceAllSame(s, "tan");
    ReplaceAllSame(s, "log");
    ReplaceAllSame(s, "sqrt");
    ReplaceAllSame(s, "exp");
  }

  /** The rewrite works piece by piece: rewriting a joined text rewrites each part. */
  lemma RewriteAppend(a: string, b: string)
    ensures Rewrite(a + b) == Rewrite(a) + Rewrite(b)
  {
    RewriteIsCaretOnly(a + b);
    RewriteIsCaretOnly(a);
    RewriteIsCaretOnly(b);
    ReplaceCharAppend(a, b, '^', "**");
  }

  /** On one character: '^' becomes "**", every other character stays. */
  lemma RewriteCharacter(x: char)
    ensures Rewrite([x]) == if x == '^' then "**" else [x]
  {
    RewriteIsCaretOnly([x]);
    ReplaceCharOther(x, '^', "**");
  }

  /** The text grows by one character per '^'. */
  lemma RewriteLength(a: string)
    ensures |Rewrite(a)| == |a| + CountChar(a, '^')
  {
    CaretLength(a);
    RewriteIsCaretOnly(a);
  }

  lemma CaretLength(a: string)
    ensures |ReplaceAll(a, "^", "**")| == |a| + CountChar(a, '^')
  {
    ReplaceCharLength(a, '^', "**");
  }

  /** The rewritten expression has no '^' left, so rewriting it again changes nothing. */
  lemma RewriteIdempotent(s: string)
    ensures '^' !in Rewrite(s)
    ensures Rewrite(Rewrite(s)) == Rewrite(s)
  {
    RewriteIsCaretOnly(s);
    ReplaceCharRemoves(s, '^', "**");
    RewriteIsCaretOnly(Rewrite(s));
    ReplaceCharAbsent(Rewrite(s), '^', "**");
  }

  // ---------------------------------------------------------------------------
  // the x-values

  /** The loop step. */
  const Step: real := 0.1

  /** How many steps of 0.1 from `min` stay at or below `max`. */
  function Count(min: real, max: real): nat
  {
    if min <= max then ((max - min) / Step).Floor + 1 else 0
  }

  /**
   * The x-values of the range, computed exactly: min, min + 0.1, ... up to
   * max. The list is empty exactly when min > max, starts at min, rises by
   * 0.1, stays at or below max, and the next step would pass max.
   */
  function XValues(min: real, max: real): (xs: seq<real>)
    ensures |xs| == 0 <==> min > max
    ensures xs != [] ==> xs[0] == min
    ensures forall k :: 0 <= k < |xs| ==> min <= xs[k] <= max
    ensures forall k :: 0 <= k < |xs| - 1 ==> xs[k] < xs[k + 1] && xs[k + 1] - xs[k] == Step
    ensures min + |xs| as real * Step > max
  {
    seq(Count(min, max), k requires 0 <= k < Count(min, max) => min + k as real * Step)
  }

  /** The for loop of generatePlotData, over exact reals. */
  method GenerateX(min: real, max: real) returns (xs: seq<real>)
    ensures xs == XValues(min, max)
  {
    xs := [];
    var x := min;
    while x <= max
      invariant x == min + |xs| as real * Step
      invariant |xs| <= Count(min, max)
      invariant xs == XValues(min, max)[..|xs|]
      decreases Count(min, max) - |xs|
    {
      xs := xs + [x];
      x := x + Step;
    }
  }

  /** The x-values as JavaScript numbers. */
  function AsNumbers(xs: seq<real>): (r: seq<Num>)
    ensures |r| == |xs| && forall k :: 0 <= k < |xs| ==> r[k] == Finite(xs[k])
  {
    seq(|xs|, k requires 0 <= k < |xs| => Finite(xs[k]))
  }

  // ---------------------------------------------------------------------------
  // the request and the reply

  const PlotTask: string := "Evaluate the following mathematical expression for given x-values and return the results as a JSON array:"

  const NoExpression: string := "Please enter a mathematical expression"
  const InvalidFormat: string := "Invalid response format from API. Expected a JSON array of y-values."
  const CountMismatch: string := "Number of y-values does not match number of x-values."
  const ProcessingFailed: string := "An error occurred while generating the plot"

  /** The fixed end of the prompt. */
  const PromptTail: string := "]. Return a list of y-values in JSON format, e.g., [y1, y2, ...]. Use standard mathematical functions (sin, cos, tan, log, sqrt, exp) and assume x is the variable."

  const PromptLead: string := "Evaluate the mathematical expression \""
  const PromptMid: string := "\" for the following x-values: ["

  /** The prompt: the expression in quotes, then the x-values joined by ", " in brackets. */
  function PlotPrompt(js: Runtime, expression: string, xs: seq<real>): string
  {
    PromptLead + expression + PromptMid + JoinNumbers(js, AsNumbers(xs), ", ") + PromptTail
  }

  /**
   * The prompt carries the expression right after its lead, and its list part
   * splits into one printed number per x-value, in order.
   */
  lemma PlotPromptParts(js: Runtime, expression: string, xs: seq<real>)
    requires js.Valid()
    requires xs != []
    ensures var p, a := PlotPrompt(js, expression, xs), |PromptLead| + |expression| + |PromptMid|;
      && a + |PromptTail| <= |p|
      && p[|PromptLead|..|PromptLead| + |expression|] == expression
      && Fields(p[a..|p| - |PromptTail|]) == ShowAll(js, AsNumbers(xs))
      && |Fields(p[a..|p| - |PromptTail|])| == |xs|
  {
    var list := JoinNumbers(js, AsNumbers(xs), ", ");
    var p := PlotPrompt(js, expression, xs);
    var a := |PromptLead| + |expression| + |PromptMid|;
    assert p == (PromptLead + expression) + PromptMid + list + PromptTail;
    assert p[|PromptLead|..|PromptLead| + |expression|] == expression;
    assert p[a..|p| - |PromptTail|] == list;
    FieldsOfJoinNumbers(js, AsNumbers(xs), ", ");
  }

  /** What the plot handler makes of the reply. */
  datatype PlotReply = YValues(ys: seq<Json>) | NotAnArray | WrongLength

  /**
   * `JSON.parse(response)` must give an array (a null reply parses as null,
   * which is not one), and the array must hold one y-value per x-value.
   */
  function ReadReply(js: Runtime, response: Option<string>, count: nat): (r: PlotReply)
    ensures r.YValues? ==> js.jsonParse(JsonText(response)) == Some(JArray(r.ys)) && |r.ys| == count
    ensures r.YValues? <==>
      js.jsonParse(JsonText(response)).Some? && js.jsonParse(JsonText(response)).value.JArray?
      && |js.jsonParse(JsonText(response)).value.items| == count
    ensures r == NotAnArray <==> !(js.jsonParse(JsonText(response)).Some? && js.jsonParse(JsonText(response)).value.JArray?)
    ensures r == WrongLength <==>
      js.jsonParse(JsonText(response)).Some? && js.jsonParse(JsonText(response)).value.JArray?
      && |js.jsonParse(JsonText(response)).value.items| != count
  {
    match js.jsonParse(JsonText(response))
    case Some(JArray(ys)) => if |ys| == count then YValues(ys) else WrongLength
    case _ => NotAnArray
  }

  /** A null reply is never accepted. */
  lemma NullReplyRejected(js: Runtime, count: nat)
    requires js.Valid()
    ensures ReadReply(js, None, count) == NotAnArray
  {
  }

  /** The plotted data: the x-values and the y-values the reply gave. */
  datatype PlotData = PlotData(x: seq<real>, y: seq<Json>)

  class Plotter {
    var expression: string
    var xMin: real
    var xMax: real
    var data: Option<PlotData>
    var error: Option<string>
    var loading: bool

    constructor ()
      ensures expression == "sin(x)" && xMin == -10.0 && xMax == 10.0
      ensures data == None && error == None && !loading
    {
      expression, xMin, xMax := "sin(x)", -10.0, 10.0;
      data, error, loading := None, None, false;
    }

    /** The expression field. */
    method ChangeExpression(expr: string)
      modifies this
      ensures expression == expr
      ensures xMin == old(xMin) && xMax == old(xMax)
      ensures data == old(data) && error == old(error) && loading == old(loading)
    {
      expression := expr;
    }

    /** The two range fields, each read with parseFloat. */
    method SetRange(min: real, max: real)
      modifies this
      ensures xMin == min && xMax == max
      ensures expression == old(expression)
      ensures data == old(data) && error == old(error) && loading == old(loading)
    {
      xMin, xMax := min, max;
    }

    /**
     * handlePlot and generatePlotData up to the request. The field gets the
     * rewritten expression, but the handler goes on with the expression its
     * closure captured: a blank one is refused with an error and no request;
     * otherwise loading starts, error and data are cleared, the x-values are
     * listed and sent with the captured expression. The x-values are returned
     * for the continuation, which compares the reply against them.
     */
    method Plot(js: Runtime) returns (request: Option<Request>, xs: seq<real>)
      modifies this
      ensures expression == Rewrite(old(expression))
      ensures xMin == old(xMin) && xMax == old(xMax)
      ensures Blank(old(expression)) ==>
        request == None && error == Some(NoExpression) && data == old(data) && loading == old(loading)
      ensures !Blank(old(expression)) ==>
        && xs == XValues(xMin, xMax)
        && request == Some(Request(PlotTask, PlotPrompt(js, old(expression), xs)))
        && loading && error == None && data == None
    {
      var captured := expression;
      expression := Rewrite(captured);
      xs := [];
      var blank := Blank(captured);
      if blank {
        error := Some(NoExpression);
        return None, xs;
      }
      loading := true;
      error := None;
      data := None;
      xs := GenerateX(xMin, xMax);
      request := Some(Request(PlotTask, PlotPrompt(js, captured, xs)));
    }

    /**
     * generatePlotData after the request: a reply that is not a JSON array,
     * or an array of the wrong length, sets its error and leaves the data
     * alone; an accepted reply becomes the data with the x-values, and clears
     * the error. A thrown call sets the hook's error or a fixed message.
     * Loading ends on every path.
     */
    method Finish(js: Runtime, xs: seq<real>, settled: Settled, response: Option<string>, hookError: Option<string>)
      modifies this
      ensures !loading
      ensures settled == Rejected ==> error == Some(Or(hookError, ProcessingFailed)) && data == old(data)
      ensures settled == Resolved && ReadReply(js, response, |xs|) == NotAnArray ==>
        error == Some(InvalidFormat) && data == old(data)
      ensures settled == Resolved && ReadReply(js, response, |xs|) == WrongLength ==>
        error == Some(CountMismatch) && data == old(data)
      ensures settled == Resolved && ReadReply(js, response, |xs|).YValues? ==>
        && data == Some(PlotData(xs, ReadReply(js, response, |xs|).ys))
        && |data.value.x| == |data.value.y| && error == None
      ensures expression == old(expression) && xMin == old(xMin) && xMax == old(xMax)
    {
      if settled == Rejected {
        error := Some(Or(hookError, ProcessingFailed));
      } else {
        var reply := ReadReply(js, response, |xs|);
        match reply
        case NotAnArray =>
          error := Some(InvalidFormat);
        case WrongLength =>
          error := Some(CountMismatch);
        case YValues(ys) =>
          data := Some(PlotData(xs, ys));
          error := None;
      }
      loading := false;
    }
  }
}
