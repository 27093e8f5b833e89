// The symbolic computations page (src/pages/features/Symbol.jsx): the compute
// handler checks the expression, then the symbol, clears the page and makes
// two requests in turn, a simplification and then a derivative. Both results
// are read from the one `response` value the handler's closure captured.

module Symbolic {

  import opened Values
  import opened Text
  import opened Hook

  const SimplifyTask: string := "Simplify the following mathematical expression and return the result:"
  const DerivativeTask: string := "Compute the derivative of the following expression and return the result:"

  const NoExpression: string := "Please enter a valid expression."
  const NoSymbol: string := "Please enter a valid symbol for differentiation."
  const ProcessingFailed: string := "An error occurred while computing the results"

  const SimplifyLead: string := "Simplify the following mathematical expression: "
  const DerivativeLead: string := "Compute the derivative of the following expression with respect to "

  /** `Simplify the following mathematical expression: ${expression}` */
  function SimplifyPrompt(expression: string): string
  {
    SimplifyLead + expression
  }

  /** `Compute the derivative of the following expression with respect to ${symbol}: ${expression}` */
  function DerivativePrompt(symbol: string, expression: string): string
  {
    DerivativeLead + symbol + ": " + expression
  }

  /** Different expressions give different simplification prompts: the expression is the prompt's tail. */
  lemma SimplifyPromptInjective(a: string, b: string)
    ensures SimplifyPrompt(a)[|SimplifyLead|..] == a
    ensures SimplifyPrompt(a) == SimplifyPrompt(b) <==> a == b
  {
    assert SimplifyPrompt(a)[|SimplifyLead|..] == a;
    assert SimplifyPrompt(b)[|SimplifyLead|..] == b;
  }

  /**
   * A symbol without ':' and the expression can be read back from the
   * derivative prompt, so different pairs give different prompts.
   */
  lemma DerivativePromptInjective(s1: string, e1: string, s2: string, e2: string)
    requires ':' !in s1 && ':' !in s2
    ensures DerivativePrompt(s1, e1) == DerivativePrompt(s2, e2) <==> s1 == s2 && e1 == e2
  {
    var p1, p2 := DerivativePrompt(s1, e1), DerivativePrompt(s2, e2);
    var n := |DerivativeLead|;
    if p1 == p2 {
      var q1, q2 := s1 + ": " + e1, s2 + ": " + e2;
      assert q1 == p1[n..] && q2 == p2[n..];
      FirstColon(s1, e1);
      FirstColon(s2, e2);
      assert |s1| == |s2|;
      assert s1 == q1[..|s1|] && s2 == q2[..|s2|];
      assert e1 == q1[|s1| + 2..] && e2 == q2[|s2| + 2..];
    }
  }

  /** After the lead, the first ':' of the derivative prompt is the one right after a ':'-free symbol. */
  lemma FirstColon(symbol: string, expression: string)
    requires ':' !in symbol
    ensures var q := symbol + ": " + expression;
      q[|symbol|] == ':' && forall k :: 0 <= k < |symbol| ==> q[k] != ':'
  {
    var q := symbol + ": " + expression;
    forall k | 0 <= k < |symbol| ensures q[k] != ':' {
      assert q[k] == symbol[k];
    }
  }

  class SymbolicComputations {
    var expression: string
    var symbol: string
    var simplified: string
    var deriv: string
    var error: string
    var loading: bool

    constructor ()
      ensures expression == "" && symbol == "x"
      ensures simplified == "" && deriv == "" && error == "" && !loading
    {
      expression, symbol := "", "x";
      simplified, deriv, error, loading := "", "", "", false;
    }

    /** The expression field. */
    method ChangeExpression(expr: string)
      modifies this
      ensures expression == expr && symbol == old(symbol)
      ensures simplified == old(simplified) && deriv == old(deriv)
      ensures error == old(error) && loading == old(loading)
    {
      expression := expr;
    }

    /** The symbol field. */
    method ChangeSymbol(sym: string)
      modifies this
      ensures symbol == sym && expression == old(expression)
      ensures simplified == old(simplified) && deriv == old(deriv)
      ensures error == old(error) && loading == old(loading)
    {
      symbol := sym;
    }

    /**
     * handleCompute up to the first request: a blank expression is reported
     * before a blank symbol is looked at; either sends nothing. Otherwise
     * loading starts, the error and both results are cleared, and the
     * simplification request goes out with the untrimmed expression.
     */
    method Compute() returns (request: Option<Request>)
      modifies this
      ensures Blank(old(expression)) ==>
        request == None && error == NoExpression
      ensures !Blank(old(expression)) && Blank(old(symbol)) ==>
        request == None && error == NoSymbol
      ensures (Blank(old(expression)) || Blank(old(symbol))) ==>
        simplified == old(simplified) && deriv == old(deriv) && loading == old(loading)
      ensures !Blank(old(expression)) && !Blank(old(symbol)) ==>
        && request == Some(Request(SimplifyTask, SimplifyPrompt(expression)))
        && loading && error == "" && simplified == "" && deriv == ""
      ensures expression == old(expression) && symbol == old(symbol)
    {
      var noExpression, noSymbol := Blank(expression), Blank(symbol);
      if noExpression {
        error := NoExpression;
        return None;
      }
      if noSymbol {
        error := NoSymbol;
        return None;
      }
      loading := true;
      error := "";
      simplified := "";
      deriv := "";
      request := Some(Request(SimplifyTask, SimplifyPrompt(expression)));
    }

    /**
     * After the simplification request: when it resolved, the simplified
     * result is the closure's `response` (or "No result returned") and the
     * derivative request goes out with the captured symbol and expression;
     * when it threw, both results are cleared, the error is set, loading ends
     * and nothing more is sent.
     */
    method AfterSimplify(expr: string, sym: string, settled: Settled, response: Option<string>, hookError: Option<string>)
      returns (request: Option<Request>)
      modifies this
      ensures settled == Resolved ==>
        && request == Some(Request(DerivativeTask, DerivativePrompt(sym, expr)))
        && simplified == Or(response, NoResult)
        && deriv == old(deriv) && error == old(error) && loading == old(loading)
      ensures settled == Rejected ==>
        && request == None && error == Or(hookError, ProcessingFailed)
        && simplified == "" && deriv == "" && !loading
      ensures expression == old(expression) && symbol == old(symbol)
    {
      if settled == Resolved {
        simplified := Or(response, NoResult);
        request := Some(Request(DerivativeTask, DerivativePrompt(sym, expr)));
      } else {
        error := Or(hookError, ProcessingFailed);
        simplified := "";
        deriv := "";
        loading := false;
        request := None;
      }
    }

    /**
     * After the derivative request: when it resolved, the derivative result
     * is the closure's `response` (or "No result returned"); when it threw,
     * both results are cleared and the error is set. Loading ends either way.
     */
    method AfterDerivative(settled: Settled, response: Option<string>, hookError: Option<string>)
      modifies this
      ensures !loading
      ensures settled == Resolved ==>
        deriv == Or(response, NoResult) && simplified == old(simplified) && error == old(error)
      ensures settled == Rejected ==>
        error == Or(hookError, ProcessingFailed) && simplified == "" && deriv == ""
      ensures expression == old(expression) && symbol == old(symbol)
    {
      if settled == Resolved {
        deriv := Or(response, NoResult);
      } else {
        error := Or(hookError, ProcessingFailed);
        simplified := "";
        deriv := "";
      }
      loading := false;
    }

    /**
     * The whole handler, given how each call settles and the `response` its
     * closure captured: the requests sent, in order. The simplification is
     * always sent first and the derivative only after it resolved; both
     * results come from the same captured `response`, so when both calls
     * resolve they are equal.
     */
    method HandleCompute(first: Settled, second: Settled, response: Option<string>, hookError: Option<string>)
      returns (sent: seq<Request>)
      modifies this
      ensures Blank(old(expression)) ==> sent == [] && error == NoExpression
      ensures !Blank(old(expression)) && Blank(old(symbol)) ==> sent == [] && error == NoSymbol
      ensures (Blank(old(expression)) || Blank(old(symbol))) ==>
        simplified == old(simplified) && deriv == old(deriv) && loading == old(loading)
      ensures !Blank(old(expression)) && !Blank(old(symbol)) ==>
        && |sent| == (if first == Resolved then 2 else 1)
        && sent[0] == Request(SimplifyTask, SimplifyPrompt(old(expression)))
        && (first == Resolved ==> sent[1] == Request(DerivativeTask, DerivativePrompt(old(symbol), old(expression))))
        && !loading
      ensures !Blank(old(expression)) && !Blank(old(symbol)) && first == Resolved && second == Resolved ==>
        simplified == deriv == Or(response, NoResult) && error == ""
      ensures !Blank(old(expression)) && !Blank(old(symbol)) && (first == Rejected || second == Rejected) ==>
        simplified == "" && deriv == "" && error == Or(hookError, ProcessingFailed)
      ensures expression == old(expression) && symbol == old(symbol)
    {
      var expr, sym := expression, symbol;
      var req := Compute();
      if req == None {
        return [];
      }
      sent := [req.value];
      req := AfterSimplify(expr, sym, first, response, hookError);
      if req == None {
        return;
      }
      sent := sent + [req.value];
      AfterDerivative(second, response, hookError);
    }
  }
}
