// The numerical maths page (src/pages/features/Numerical.jsx): the solve
// handler checks the expression, resets the page and sends the raw
// expression with the instruction for the selected operation.

module Numerical {

  import opened Values
  import opened Text
  import opened Hook

  /** The operations offered by the selector. */
  const Operations: seq<string> := ["evaluate", "round", "sqrt", "abs"]

  /** The instruction sent for each operation. */
  const Tasks: map<string, string> := map[
    "evaluate" := "Evaluate the following numerical expression:",
    "round" := "Round the following numerical expression to the nearest integer:",
    "sqrt" := "Compute the square root of the following numerical expression:",
    "abs" := "Compute the absolute value of the following numerical expression:"
  ]

  const DefaultTask: string := "Evaluate the following numerical expression:"

  const EmptyExpression: string := "Please enter a numeric expression"
  const ProcessingFailed: string := "An error occurred while processing the expression"

  /** The instruction for an operation; an unknown operation gets the evaluate instruction. */
  function Task(op: string): (r: string)
    ensures op in Tasks ==> r == Tasks[op]
    ensures op !in Tasks ==> r == Tasks["evaluate"]
  {
    TaskFor(Tasks, op, DefaultTask)
  }

  lemma TasksCoverOperations()
    ensures CoversOperations(Tasks, Operations)
  {
  }

  lemma TasksDistinct()
    ensures forall k :: 0 <= k < |Operations| ==> Operations[k] in Tasks
    ensures DistinctInstructions(Tasks, Operations)
  {
  }

  class NumericalMaths {
    var expression: string
    var selectedOperation: string
    var result: Option<string>
    var loading: bool
    var error: Option<string>

    constructor ()
      ensures expression == "" && selectedOperation == "evaluate"
      ensures result == None && !loading && error == None
    {
      expression, selectedOperation := "", "evaluate";
      result, loading, error := None, false, None;
    }

    /** The expression field. */
    method ChangeExpression(expr: string)
      modifies this
      ensures expression == expr
      ensures selectedOperation == old(selectedOperation) && result == old(result)
      ensures loading == old(loading) && error == old(error)
    {
      expression := expr;
    }

    /** The operation selector. */
    method SelectOperation(op: string)
      modifies this
      ensures selectedOperation == op
      ensures expression == old(expression) && result == old(result)
      ensures loading == old(loading) && error == old(error)
    {
      selectedOperation := op;
    }

    /**
     * handleSolve up to the request: a blank expression is refused with an
     * error and no request; otherwise loading starts, error and result are
     * cleared and the raw expression is sent with the operation's instruction.
     */
    method Solve() returns (request: Option<Request>)
      modifies this
      ensures Blank(old(expression)) ==>
        request == None && error == Some(EmptyExpression) && loading == old(loading) && result == old(result)
      ensures !Blank(old(expression)) ==>
        request == Some(Request(Task(selectedOperation), expression)) && loading && error == None && result == None
      ensures expression == old(expression) && selectedOperation == old(selectedOperation)
    {
      var blank := Blank(expression);
      if blank {
        error := Some(EmptyExpression);
        return None;
      }
      loading := true;
      error := None;
      result := None;
      request := Some(Request(Task(selectedOperation), expression));
    }

    /**
     * handleSolve after the request: the result is the `response` the
     * handler's closure sees, or "No result returned" when that is empty or
     * null; a thrown call sets the hook's error or a fixed message. Loading
     * ends on every path.
     */
    method Finish(settled: Settled, response: Option<string>, hookError: Option<string>)
      modifies this
      ensures !loading
      ensures settled == Resolved ==> result == Some(Or(response, NoResult)) && error == old(error)
      ensures settled == Rejected ==> error == Some(Or(hookError, ProcessingFailed)) && result == old(result)
      ensures expression == old(expression) && selectedOperation == old(selectedOperation)
    {
      if settled == Resolved {
        result := Some(Or(response, NoResult));
      } else {
        error := Some(Or(hookError, ProcessingFailed));
      }
      loading := false;
    }
  }
}
