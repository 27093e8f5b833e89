// The linear algebra page (src/pages/features/linear.jsx): both matrix fields
// are parsed one row per line, A is checked, B is checked only for the two
// operations that take it, and the matrices are sent as rows joined by "; ".
// The reply has its semicolons turned into commas before it is read as JSON.

module Linear {

  import opened Values
  import opened Text
  import opened Hook
  import opened Numbers

  /** A parsed matrix: each entry is `Number(token)`, None where that is NaN. */
  type Parsed = seq<seq<Option<Num>>>

  // ---------------------------------------------------------------------------
  // parseMatrix

  /** `row.trim().split(/[\s,]+/).map(Number)` */
  function ParseRow(js: Runtime, line: string): (r: seq<Option<Num>>)
    ensures |r| == |Fields(Trim(line))| && |r| >= 1
    ensures forall k :: 0 <= k < |r| ==> r[k] == js.number(Fields(Trim(line))[k])
  {
    var tokens := Fields(Trim(line));
    seq(|tokens|, k requires 0 <= k < |tokens| => js.number(tokens[k]))
  }

  /** `parseMatrix(input)`: one row per line of the trimmed input. */
  function ParseMatrix(js: Runtime, input: string): (m: Parsed)
    ensures |m| == CountChar(Trim(input), '\n') + 1
    ensures forall i :: 0 <= i < |m| ==> m[i] == ParseRow(js, SplitOn(Trim(input), '\n')[i])
    ensures forall i :: 0 <= i < |m| ==> |m[i]| >= 1
  {
    var lines := SplitOn(Trim(input), '\n');
    seq(|lines|, i requires 0 <= i < |lines| => ParseRow(js, lines[i]))
  }

  /** Empty or blank input is not rejected: it reads as the 1x1 matrix [[0]]. */
  lemma BlankInputIsZero(js: Runtime, input: string)
    requires js.Valid()
    requires Blank(input)
    ensures ParseMatrix(js, input) == [[Some(Finite(0.0))]]
  {
    BlankIffTrimEmpty(input);
    assert Trim(input) == "";
    var lines := SplitOn("", '\n');
    assert lines == [""];
    FieldsOfPiece("");
    assert Trim("") == "" && Fields("") == [""];
    var row := ParseRow(js, "");
    assert |row| == 1 && row[0] == js.number("");
    var m := ParseMatrix(js, input);
    assert |m| == 1 && m[0] == row;
    assert row == [Some(Finite(0.0))];
    assert m == [row];
  }

  /** `!A.some(row => row.some(isNaN))`: no entry is NaN. Row lengths are not compared. */
  predicate AllNumbers(m: Parsed)
  {
    forall i, j :: 0 <= i < |m| && 0 <= j < |m[i]| ==> m[i][j].Some?
  }

  /** The numbers of a matrix without NaN entries. */
  function Entries(m: Parsed): (r: seq<seq<Num>>)
    requires AllNumbers(m)
    ensures |r| == |m|
    ensures forall i :: 0 <= i < |m| ==> |r[i]| == |m[i]| && forall j :: 0 <= j < |m[i]| ==> m[i][j] == Some(r[i][j])
  {
    seq(|m|, i requires 0 <= i < |m| => seq(|m[i]|, j requires 0 <= j < |m[i]| => m[i][j].value))
  }

  // ---------------------------------------------------------------------------
  // matrixToString

  /** `row.join(' ')` */
  function RowText(js: Runtime, row: seq<Num>): string
  {
    JoinNumbers(js, row, " ")
  }

  function RowTexts(js: Runtime, m: seq<seq<Num>>): (r: seq<string>)
    ensures |r| == |m| && forall i :: 0 <= i < |m| ==> r[i] == RowText(js, m[i])
  {
    seq(|m|, i requires 0 <= i < |m| => RowText(js, m[i]))
  }

  /** `matrixToString(m)`: the rows, each joined by ' ', joined by "; ". */
  function MatrixToString(js: Runtime, m: seq<seq<Num>>): string
  {
    Join(RowTexts(js, m), "; ")
  }

  /** A row prints without semicolons or line breaks; a non-empty one starts and ends outside white space. */
  lemma RowTextShape(js: Runtime, row: seq<Num>)
    requires js.Valid()
    ensures var t := RowText(js, row); ';' !in t && '\n' !in t
    ensures row != [] ==> var t := RowText(js, row); t != "" && !IsSpace(t[0]) && !IsSpace(t[|t| - 1])
  {
    var ts := ShowAll(js, row);
    forall k | 0 <= k < |ts| ensures ';' !in ts[k] && '\n' !in ts[k] {
      assert ShowsAsNumber(js.show(row[k]));
    }
    JoinAvoids(ts, " ", ';');
    JoinAvoids(ts, " ", '\n');
    if row != [] {
      assert ShowsAsNumber(ts[0]) && ShowsAsNumber(ts[|ts| - 1]);
      JoinStartsWithFirst(ts, " ");
      JoinEndsWithLast(ts, " ");
    }
  }

  /** An n-row matrix prints with exactly n - 1 semicolons, one between each two rows. */
  lemma MatrixToStringSemicolons(js: Runtime, m: seq<seq<Num>>)
    requires js.Valid()
    requires m != []
    ensures CountChar(MatrixToString(js, m), ';') == |m| - 1
  {
    var rows := RowTexts(js, m);
    forall i | 0 <= i < |rows| ensures ';' !in rows[i] {
      RowTextShape(js, m[i]);
    }
    CountCharJoin(rows, "; ", ';');
    assert CountChar("; ", ';') == 1;
  }

  /** A row printed by `join(' ')` is read back by the row parser. */
  lemma ParseRowOfRowText(js: Runtime, row: seq<Num>)
    requires js.Valid() && AllDoubles(js, row)
    requires row != []
    ensures var r := ParseRow(js, RowText(js, row)); |r| == |row| && forall j :: 0 <= j < |row| ==> r[j] == Some(row[j])
  {
    var t := RowText(js, row);
    RowTextShape(js, row);
    TrimUnchanged(t);
    FieldsOfJoinNumbers(js, row, " ");
  }

  /** The matrix written one printed row per line, as a user types it. */
  function MatrixLines(js: Runtime, m: seq<seq<Num>>): string
  {
    Join(RowTexts(js, m), "\n")
  }

  /** The lines of a matrix written one row per line are the printed rows. */
  lemma LinesOfMatrixLines(js: Runtime, m: seq<seq<Num>>)
    requires js.Valid()
    requires m != []
    requires forall i :: 0 <= i < |m| ==> m[i] != []
    ensures SplitOn(Trim(MatrixLines(js, m)), '\n') == RowTexts(js, m)
  {
    var rows := RowTexts(js, m);
    var text := MatrixLines(js, m);
    forall i | 0 <= i < |rows| ensures '\n' !in rows[i] && rows[i] != "" {
      RowTextShape(js, m[i]);
    }
    RowTextShape(js, m[0]);
    RowTextShape(js, m[|m| - 1]);
    JoinStartsWithFirst(rows, "\n");
    JoinEndsWithLast(rows, "\n");
    TrimUnchanged(text);
    SplitOnJoin(rows, '\n');
  }

  /** A matrix written one row per line is parsed back to itself. */
  lemma ParseMatrixOfLines(js: Runtime, m: seq<seq<Num>>)
    requires js.Valid()
    requires m != []
    requires forall i :: 0 <= i < |m| ==> m[i] != [] && AllDoubles(js, m[i])
    ensures AllNumbers(ParseMatrix(js, MatrixLines(js, m)))
    ensures Entries(ParseMatrix(js, MatrixLines(js, m))) == m
  {
    var p := ParseMatrix(js, MatrixLines(js, m));
    var rows := RowTexts(js, m);
    LinesOfMatrixLines(js, m);
    assert |p| == |m| && forall i :: 0 <= i < |m| ==> p[i] == ParseRow(js, rows[i]);
    forall i | 0 <= i < |m| ensures |p[i]| == |m[i]| && forall j :: 0 <= j < |m[i]| ==> p[i][j] == Some(m[i][j]) {
      ParseRowOfRowText(js, m[i]);
    }
    EntriesOfSome(p, m);
  }

  /** A parsed matrix whose every entry is Some(number) has exactly those numbers as entries. */
  lemma EntriesOfSome(p: Parsed, m: seq<seq<Num>>)
    requires |p| == |m|
    requires forall i :: 0 <= i < |m| ==> |p[i]| == |m[i]| && forall j :: 0 <= j < |m[i]| ==> p[i][j] == Some(m[i][j])
    ensures AllNumbers(p) && Entries(p) == m
  {
    assert AllNumbers(p);
    var e := Entries(p);
    assert forall i :: 0 <= i < |m| ==> e[i] == m[i];
  }

  // ---------------------------------------------------------------------------
  // the page

  /** The operations offered by the selector. */
  const Operations: seq<string> := ["add", "multiply", "transposeA", "determinantA", "inverseA"]

  /** The instruction sent for each operation. */
  const Tasks: map<string, string> := map[
    "add" := "Add the following two matrices (Matrix A and Matrix B):",
    "multiply" := "Multiply the following two matrices (Matrix A and Matrix B):",
    "transposeA" := "Compute the transpose of the following matrix (Matrix A):",
    "determinantA" := "Compute the determinant of the following matrix (Matrix A):",
    "inverseA" := "Compute the inverse of the following matrix (Matrix A):"
  ]

  /** The fallback, which differs from the add entry of the table. */
  const DefaultTask: string := "Add the following two matrices:"

  const InvalidA: string := "Matrix A is invalid."
  const InvalidB: string := "Matrix B is invalid or required."
  const ProcessingFailed: string := "An error occurred while processing the matrix operation"

  /** `['add', 'multiply'].includes(op)`: the operations that take matrix B. */
  predicate NeedsB(op: string)
  {
    op == "add" || op == "multiply"
  }

  /** The instruction for an operation; an unknown operation gets the fallback, which no table entry equals. */
  function Task(op: string): (r: string)
    ensures op in Tasks ==> r == Tasks[op]
    ensures op !in Tasks ==> r == DefaultTask && forall k :: k in Tasks ==> Tasks[k] != r
  {
    TaskFor(Tasks, op, DefaultTask)
  }

  lemma TasksCoverOperations()
    ensures CoversOperations(Tasks, Operations)
    ensures forall op :: op in Operations ==> (NeedsB(op) <==> op == Operations[0] || op == Operations[1])
  {
  }

  lemma TasksDistinct()
    ensures forall k :: 0 <= k < |Operations| ==> Operations[k] in Tasks
    ensures DistinctInstructions(Tasks, Operations)
  {
  }

  /** `Matrix A: [...]` */
  function PartA(js: Runtime, a: seq<seq<Num>>): string
  {
    "Matrix A: [" + MatrixToString(js, a) + "]"
  }

  /** `; Matrix B: [...]`, appended to the prompt for add and multiply. */
  function PartB(js: Runtime, b: seq<seq<Num>>): string
  {
    "; Matrix B: [" + MatrixToString(js, b) + "]"
  }

  /** One semicolon between each two rows of A. */
  lemma PartASemicolons(js: Runtime, a: seq<seq<Num>>)
    requires js.Valid()
    requires a != []
    ensures CountChar(PartA(js, a), ';') == |a| - 1
  {
    var sa := MatrixToString(js, a);
    MatrixToStringSemicolons(js, a);
    assert CountChar("Matrix A: [", ';') == 0 && CountChar("]", ';') == 0 by {
      CountCharAbsent("Matrix A: [", ';');
      CountCharAbsent("]", ';');
    }
    CountCharAppend("Matrix A: [", sa, ';');
    CountCharAppend("Matrix A: [" + sa, "]", ';');
  }

  /** One semicolon before "Matrix B", and one between each two rows of B. */
  lemma PartBSemicolons(js: Runtime, b: seq<seq<Num>>)
    requires js.Valid()
    requires b != []
    ensures CountChar(PartB(js, b), ';') == |b|
  {
    var sb := MatrixToString(js, b);
    MatrixToStringSemicolons(js, b);
    var head := "; Matrix B: [";
    assert CountChar(head, ';') == 1 by {
      assert head[0] == ';' && head[1..] == " Matrix B: [";
      CountCharAbsent(head[1..], ';');
    }
    CountCharAbsent("]", ';');
    CountCharAppend(head, sb, ';');
    CountCharAppend(head + sb, "]", ';');
  }

  /**
   * The prompt has |A| - 1 semicolons without B, and |A| + |B| - 1 with it,
   * so B is in the prompt exactly when the operation takes it.
   */
  lemma PromptSemicolons(js: Runtime, op: string, a: seq<seq<Num>>, b: seq<seq<Num>>)
    requires js.Valid()
    requires a != [] && b != []
    ensures var prompt := PartA(js, a) + (if NeedsB(op) then PartB(js, b) else "");
      CountChar(prompt, ';') == if NeedsB(op) then |a| + |b| - 1 else |a| - 1
  {
    PartASemicolons(js, a);
    PartBSemicolons(js, b);
    CountCharAppend(PartA(js, a), PartB(js, b), ';');
    assert PartA(js, a) + "" == PartA(js, a);
  }

  /** `response.replace(/;/g, ',')`: the text handed to JSON.parse. */
  function ReplyText(response: string): (t: string)
    ensures |t| == |response| && ';' !in t
    ensures forall k :: 0 <= k < |t| ==> t[k] == if response[k] == ';' then ',' else response[k]
  {
    ReplaceCharByChar(response, ';', ',');
    ReplaceCharRemoves(response, ';', ",");
    ReplaceAll(response, ";", ",")
  }

  /**
   * How the reply is shown: its JSON value once semicolons are commas, else
   * the raw reply, or "No result returned" when that is empty; a null reply
   * makes `replace` throw inside the same try, so it also shows the fallback.
   */
  function Interpret(js: Runtime, response: Option<string>): (r: Json)
    ensures response == None ==> r == JString(NoResult)
    ensures response != None && js.jsonParse(ReplyText(response.value)) != None ==>
      r == js.jsonParse(ReplyText(response.value)).value
    ensures response != None && js.jsonParse(ReplyText(response.value)) == None ==> r == JString(Or(response, NoResult))
  {
    match response
    case None => JString(NoResult)
    case Some(t) =>
      match js.jsonParse(ReplyText(t))
      case Some(v) => v
      case None => JString(Or(response, NoResult))
  }

  /** What handleSolve does with the two fields before it changes the page: an error, or a request. */
  datatype Outcome = Refuse(message: string) | Send(request: Request)

  /**
   * The checks of handleSolve: A must have no NaN entry, then B neither when
   * the operation takes it; A (and B for add and multiply) are then sent as
   * printed matrices with the operation's instruction.
   */
  function Check(js: Runtime, textA: string, textB: string, op: string): Outcome
  {
    var a, b := ParseMatrix(js, textA), ParseMatrix(js, textB);
    if !AllNumbers(a) then Refuse(InvalidA)
    else if NeedsB(op) && !AllNumbers(b) then Refuse(InvalidB)
    else if NeedsB(op) then Send(Request(Task(op), PartA(js, Entries(a)) + PartB(js, Entries(b))))
    else Send(Request(Task(op), PartA(js, Entries(a))))
  }

  /**
   * A with a NaN entry is refused first; B is looked at only for add and
   * multiply; otherwise the request carries the operation's instruction and
   * A, followed by B exactly when the operation takes it.
   */
  lemma CheckOutcomes(js: Runtime, textA: string, textB: string, op: string)
    ensures var a, b, r := ParseMatrix(js, textA), ParseMatrix(js, textB), Check(js, textA, textB, op);
      && (!AllNumbers(a) ==> r == Refuse(InvalidA))
      && (AllNumbers(a) && NeedsB(op) && !AllNumbers(b) ==> r == Refuse(InvalidB))
      && (AllNumbers(a) && NeedsB(op) && AllNumbers(b) ==>
            r == Send(Request(Task(op), PartA(js, Entries(a)) + PartB(js, Entries(b)))))
      && (AllNumbers(a) && !NeedsB(op) ==> r == Send(Request(Task(op), PartA(js, Entries(a)))))
  {
  }

  class LinearAlgebra {
    var matrixA: string
    var matrixB: string
    var operation: string
    /** The shown result; JNull is the page's `null`. */
    var result: Json
    var error: Option<string>
    var loading: bool

    constructor ()
      ensures matrixA == "" && matrixB == "" && operation == "add"
      ensures result == JNull && error == None && !loading
    {
      matrixA, matrixB, operation := "", "", "add";
      result, error, loading := JNull, None, false;
    }

    /** The matrix A field. */
    method ChangeA(text: string)
      modifies this
      ensures matrixA == text
      ensures matrixB == old(matrixB) && operation == old(operation)
      ensures result == old(result) && error == old(error) && loading == old(loading)
    {
      matrixA := text;
    }

    /** The matrix B field. */
    method ChangeB(text: string)
      modifies this
      ensures matrixB == text
      ensures matrixA == old(matrixA) && operation == old(operation)
      ensures result == old(result) && error == old(error) && loading == old(loading)
    {
      matrixB := text;
    }

    /** The operation selector. */
    method SelectOperation(op: string)
      modifies this
      ensures operation == op
      ensures matrixA == old(matrixA) && matrixB == old(matrixB)
      ensures result == old(result) && error == old(error) && loading == old(loading)
    {
      operation := op;
    }

    /**
     * handleSolve up to the request: the checks of Check, in that order; a
     * refusal sets its error and sends nothing. Otherwise loading starts,
     * error and result are cleared and the request goes out.
     */
    method Solve(js: Runtime) returns (request: Option<Request>)
      modifies this
      ensures var outcome := Check(js, old(matrixA), old(matrixB), old(operation));
        && (outcome.Refuse? ==>
          request == None && error == Some(outcome.message) && loading == old(loading) && result == old(result))
        && (outcome.Send? ==> request == Some(outcome.request) && loading && error == None && result == JNull)
      ensures matrixA == old(matrixA) && matrixB == old(matrixB) && operation == old(operation)
    {
      var outcome := Check(js, matrixA, matrixB, operation);
      request := Settle(outcome);
    }

    /** The page changes Solve makes for one outcome of the checks. */
    method Settle(outcome: Outcome) returns (request: Option<Request>)
      modifies this
      ensures outcome.Refuse? ==>
        request == None && error == Some(outcome.message) && loading == old(loading) && result == old(result)
      ensures outcome.Send? ==> request == Some(outcome.request) && loading && error == None && result == JNull
      ensures matrixA == old(matrixA) && matrixB == old(matrixB) && operation == old(operation)
    {
      match outcome
      case Refuse(message) =>
        error := Some(message);
        request := None;
      case Send(r) =>
        loading := true;
        error := None;
        result := JNull;
        request := Some(r);
    }

    /**
     * handleSolve after the request: the result is the closure's `response`
     * read as JSON with semicolons as commas, or the raw text; a thrown call
     * sets the hook's error or a fixed message. Loading ends on both paths.
     */
    method Finish(js: Runtime, settled: Settled, response: Option<string>, hookError: Option<string>)
      modifies this
      ensures !loading
      ensures settled == Resolved ==> result == Interpret(js, response) && error == old(error)
      ensures settled == Rejected ==> error == Some(Or(hookError, ProcessingFailed)) && result == old(result)
      ensures matrixA == old(matrixA) && matrixB == old(matrixB) && operation == old(operation)
    {
      if settled == Resolved {
        result := Interpret(js, response);
      } else {
        error := Some(Or(hookError, ProcessingFailed));
      }
      loading := false;
    }
  }
}
