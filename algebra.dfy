// The algebra solver page (src/pages/features/Algebra.jsx): variable
// detection while the expression is typed, and the solve handler that checks
// the expression, picks the instruction for the selected operation and sends
// the expression as the payload.

module Algebra {

  import opened Values
  import opened Text
  import opened Hook

  // ---------------------------------------------------------------------------
  // [...new Set(xs)]

  predicate NoDuplicates<T(==)>(xs: seq<T>)
  {
    forall i, j :: 0 <= i < j < |xs| ==> xs[i] != xs[j]
  }

  /** The position of the first occurrence of `x` in `xs`. */
  function IndexOf<T(==)>(xs: seq<T>, x: T): (k: nat)
    requires x in xs
    ensures k < |xs| && xs[k] == x && x !in xs[..k]
  {
    if xs[0] == x then 0 else 1 + IndexOf(xs[1..], x)
  }

  lemma IndexOfIsFirst<T>(xs: seq<T>, x: T, k: nat)
    requires k < |xs| && xs[k] == x && x !in xs[..k]
    ensures IndexOf(xs, x) == k
  {
    var m := IndexOf(xs, x);
    assert forall j :: 0 <= j < k ==> xs[j] in xs[..k];
    assert forall j :: 0 <= j < m ==> xs[j] in xs[..m];
  }

  /** `[...new Set(xs)]`: every element of `xs` once, in the order of its first occurrence. */
  function Dedup<T(==,!new)>(xs: seq<T>): (r: seq<T>)
    ensures forall x :: x in r <==> x in xs
    ensures NoDuplicates(r)
    ensures |r| <= |xs|
  {
    if xs == [] then []
    else
      var r := Dedup(xs[..|xs| - 1]);
      if xs[|xs| - 1] in r then r else r + [xs[|xs| - 1]]
  }

  /** The elements kept by Dedup come in the order of their first occurrence in the input. */
  lemma {:induction false} DedupFirstOccurrenceOrder<T(!new)>(xs: seq<T>)
    ensures forall i, j :: 0 <= i < j < |Dedup(xs)| ==> IndexOf(xs, Dedup(xs)[i]) < IndexOf(xs, Dedup(xs)[j])
  {
    if xs != [] {
      var n := |xs| - 1;
      var front := xs[..n];
      var r := Dedup(front);
      DedupFirstOccurrenceOrder(front);
      assert xs[..n] == front;
      forall e | e in front ensures IndexOf(xs, e) == IndexOf(front, e) {
        var k := IndexOf(front, e);
        assert xs[..k] == front[..k];
        IndexOfIsFirst(xs, e, k);
      }
      if xs[n] in r {
        assert Dedup(xs) == r;
      } else {
        var d := Dedup(xs);
        assert d == r + [xs[n]];
        IndexOfIsFirst(xs, xs[n], n);
        forall i, j | 0 <= i < j < |d| ensures IndexOf(xs, d[i]) < IndexOf(xs, d[j]) {
          assert d[i] == r[i] && r[i] in front;
          if j < |r| {
            assert d[j] == r[j] && r[j] in front;
          }
        }
      }
    }
  }

  // ---------------------------------------------------------------------------
  // extractVariables

  /** `extractVariables(expr)`: the distinct runs of ASCII letters of the expression. */
  function ExtractVariables(expr: string): (vs: seq<string>)
    ensures NoDuplicates(vs)
    ensures forall w :: w in vs <==> w in LetterRuns(expr)
    ensures forall w :: w in vs ==> w != ""
    ensures |vs| <= |LetterRuns(expr)|
  {
    Dedup(LetterRuns(expr))
  }

  /** Every detected name is a non-empty maximal run of ASCII letters of the expression. */
  lemma VariableIsMaximalRun(expr: string, w: string)
    requires w in ExtractVariables(expr)
    ensures w != ""
    ensures exists a, b :: IsLetterRun(expr, a, b) && expr[a..b] == w
  {
    LetterRunsFromSound(expr, 0, w);
  }

  /** Every maximal run of ASCII letters of the expression is detected. */
  lemma MaximalRunIsVariable(expr: string, a: int, b: int)
    requires IsLetterRun(expr, a, b)
    ensures expr[a..b] in ExtractVariables(expr)
  {
    LetterRunsFromComplete(expr, 0, a, b);
  }

  /** An element's first position is at or before any position holding it. */
  lemma {:induction false} IndexOfAtMost<T>(xs: seq<T>, x: T, m: nat)
    requires m < |xs| && xs[m] == x
    ensures IndexOf(xs, x) <= m
  {
    if xs[0] != x {
      IndexOfAtMost(xs[1..], x, m - 1);
    }
  }

  /** Where a detected name first occurs in the expression as a maximal run of letters. */
  ghost function FirstStart(expr: string, w: string): nat
    requires w in LetterRuns(expr)
  {
    LetterRunsFromAt(expr, 0);
    RunStarts(expr)[IndexOf(LetterRuns(expr), w)]
  }

  /** The first entry of `runs` equal to `w` stands in `s` as a maximal run of letters at its start. */
  lemma RunAtFirstIndex(s: string, runs: seq<string>, starts: seq<nat>, w: string)
    requires RunsAt(s, runs, starts, 0) && w in runs
    ensures RunAt(s, w, starts[IndexOf(runs, w)], 0)
  {
    RunAtIndex(s, runs, starts, 0, IndexOf(runs, w));
  }

  /** No entry equal to `w` starts before the first one. */
  lemma FirstIndexStartsFirst(runs: seq<string>, starts: seq<nat>, w: string, m: nat)
    requires |starts| == |runs| && InOrder(runs, starts)
    requires m < |runs| && runs[m] == w
    ensures starts[IndexOf(runs, w)] <= starts[m]
  {
    var k := IndexOf(runs, w);
    IndexOfAtMost(runs, w, m);
    if k < m {
      assert starts[k] + |runs[k]| <= starts[m];
    }
  }

  /**
   * FirstStart is a position where the name stands as a maximal run of
   * letters: `RunAt` says the name is `expr[a..a + |w|]` and that run is
   * maximal.
   */
  lemma FirstStartIsRun(expr: string, w: string)
    requires w in LetterRuns(expr)
    ensures RunAt(expr, w, FirstStart(expr, w), 0)
  {
    LetterRunsFromAt(expr, 0);
    RunAtFirstIndex(expr, LetterRuns(expr), RunStarts(expr), w);
  }

  /** No position where the name stands as a maximal run of letters comes before FirstStart. */
  lemma FirstStartIsFirst(expr: string, w: string)
    requires w in LetterRuns(expr)
    ensures forall a, b :: IsLetterRun(expr, a, b) && expr[a..b] == w ==> FirstStart(expr, w) <= a
  {
    var runs, starts := LetterRuns(expr), RunStarts(expr);
    LetterRunsFromAt(expr, 0);
    forall a, b | IsLetterRun(expr, a, b) && expr[a..b] == w ensures FirstStart(expr, w) <= a {
      LetterRunsFromCompleteAt(expr, 0, a, b);
      assert FoundAt(runs, starts, a, w);
      var m :| 0 <= m < |starts| && m < |runs| && starts[m] == a && runs[m] == expr[a..b];
      FirstIndexStartsFirst(runs, starts, w, m);
    }
  }

  /** The names come in the order in which each first occurs in the expression. */
  lemma VariablesInFirstOccurrenceOrder(expr: string)
    ensures var vs := ExtractVariables(expr);
      forall i, j :: 0 <= i < j < |vs| ==> FirstStart(expr, vs[i]) < FirstStart(expr, vs[j])
  {
    var vs, runs, starts := ExtractVariables(expr), LetterRuns(expr), RunStarts(expr);
    DedupFirstOccurrenceOrder(runs);
    LetterRunsFromAt(expr, 0);
    forall i, j | 0 <= i < j < |vs| ensures FirstStart(expr, vs[i]) < FirstStart(expr, vs[j]) {
      var ki, kj := IndexOf(runs, vs[i]), IndexOf(runs, vs[j]);
      assert ki < kj;
      assert starts[ki] + |runs[ki]| <= starts[kj];
      assert runs[ki] != "";
    }
  }

  /** No name is detected exactly when the expression has no ASCII letter. */
  lemma NoVariablesIffNoLetter(expr: string)
    ensures ExtractVariables(expr) == [] <==> forall k :: 0 <= k < |expr| ==> !IsAsciiLetter(expr[k])
  {
    LetterRunsEmpty(expr);
    var runs := LetterRuns(expr);
    if runs != [] {
      assert runs[0] in ExtractVariables(expr);
    }
  }

  // ---------------------------------------------------------------------------
  // the page

  /** The operations offered by the selector. */
  const Operations: seq<string> := ["simplify", "factor", "expand", "derive", "integrate", "solve"]

  /** The instruction sent for each operation. */
  const Tasks: map<string, string> := map[
    "simplify" := "Simplify the following algebraic expression:",
    "factor" := "Factor the following algebraic expression:",
    "expand" := "Expand the following algebraic expression:",
    "derive" := "Compute the derivative of the following expression with respect to x:",
    "integrate" := "Compute the indefinite integral of the following expression with respect to x:",
    "solve" := "Solve the following equation for x:"
  ]

  const DefaultTask: string := "Simplify the following algebraic expression:"

  /** The example expressions the page offers as buttons. */
  const Examples: seq<string> := ["x^2 + 2x + 1", "3x + 5 = 2x - 7", "(x + 2)(x - 3)", "2x^3 - 4x^2 + 3x - 6", "sin(x)^2 + cos(x)^2"]

  const EmptyExpression: string := "Please enter an expression"
  const ProcessingFailed: string := "An error occurred while processing the expression"

  /** The instruction for an operation; an unknown operation gets the simplify instruction. */
  function Task(op: string): (r: string)
    ensures op in Tasks ==> r == Tasks[op]
    ensures op !in Tasks ==> r == Tasks["simplify"]
  {
    TaskFor(Tasks, op, DefaultTask)
  }

  lemma TasksCoverOperations()
    ensures CoversOperations(Tasks, Operations)
  {
  }

  lemma TasksDistinct()
    ensures forall k :: 0 <= k < |Operations| ==> Operations[k] in Tasks
    ensures DistinctInstructions(Tasks, Operations)
  {
  }

  class AlgebraSolver {
    var expression: string
    var variables: seq<string>
    var selectedOperation: string
    var result: Option<string>
    var loading: bool
    var error: Option<string>

    constructor ()
      ensures expression == "" && variables == [] && selectedOperation == "simplify"
      ensures result == None && !loading && error == None
    {
      expression, variables, selectedOperation := "", [], "simplify";
      result, loading, error := None, false, None;
    }

    /** handleExpressionChange: the new text, and the names detected in it. */
    method ChangeExpression(expr: string)
      modifies this
      ensures expression == expr && variables == ExtractVariables(expr)
      ensures selectedOperation == old(selectedOperation) && result == old(result)
      ensures loading == old(loading) && error == old(error)
    {
      expression := expr;
      variables := ExtractVariables(expr);
    }

    /** An example button: sets the expression only; the detected names stay as they were. */
    method PickExample(k: nat)
      requires k < |Examples|
      modifies this
      ensures expression == Examples[k] && variables == old(variables)
      ensures selectedOperation == old(selectedOperation) && result == old(result)
      ensures loading == old(loading) && error == old(error)
    {
      expression := Examples[k];
    }

    /** The operation selector. */
    method SelectOperation(op: string)
      modifies this
      ensures selectedOperation == op
      ensures expression == old(expression) && variables == old(variables) && result == old(result)
      ensures loading == old(loading) && error == old(error)
    {
      selectedOperation := op;
    }

    /**
     * handleSolve up to the request: a blank expression is refused with an
     * error and no request; otherwise loading starts, the error is cleared and
     * the untrimmed expression is sent with the operation's instruction.
     */
    method Solve() returns (request: Option<Request>)
      modifies this
      ensures Blank(old(expression)) ==> request == None && error == Some(EmptyExpression) && loading == old(loading)
      ensures !Blank(old(expression)) ==>
        request == Some(Request(Task(selectedOperation), expression)) && loading && error == None
      ensures expression == old(expression) && variables == old(variables)
      ensures selectedOperation == old(selectedOperation) && result == old(result)
    {
      var blank := Blank(expression);
      if blank {
        error := Some(EmptyExpression);
        return None;
      }
      loading := true;
      error := None;
      request := Some(Request(Task(selectedOperation), expression));
    }

    /**
     * handleSolve after the request: the result is the `response` the
     * handler's closure sees, or "No result returned" when that is empty or
     * null; a thrown call sets the hook's error or a fixed message. Loading
     * ends on both paths.
     */
    method Finish(settled: Settled, response: Option<string>, hookError: Option<string>)
      modifies this
      ensures !loading
      ensures settled == Resolved ==> result == Some(Or(response, NoResult)) && error == old(error)
      ensures settled == Rejected ==> error == Some(Or(hookError, ProcessingFailed)) && result == old(result)
      ensures expression == old(expression) && variables == old(variables)
      ensures selectedOperation == old(selectedOperation)
    {
      if settled == Resolved {
        result := Some(Or(response, NoResult));
      } else {
        error := Some(Or(hookError, ProcessingFailed));
      }
      loading := false;
    }
  }
}
