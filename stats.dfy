// The statistics and probability page (src/pages/features/Stats.jsx): the
// dataset is split on runs of white space and commas, the tokens that
// `parseFloat` reads as numbers are kept, and the numbers are sent back as
// the list inside `Dataset: [...]`. The reply is read as JSON when it parses.

module Stats {

  import opened Values
  import opened Text
  import opened Hook
  import opened Numbers

  // ---------------------------------------------------------------------------
  // the dataset

  /** `tokens.map(parseFloat).filter(n => !isNaN(n))`: the tokens read as numbers, in order. */
  function ParseFloats(js: Runtime, tokens: seq<string>): (r: seq<Num>)
    ensures |r| <= |tokens|
  {
    if tokens == [] then []
    else
      var rest := ParseFloats(js, tokens[1..]);
      match js.parseFloat(tokens[0])
      case Some(x) => [x] + rest
      case None => rest
  }

  /** A number is kept exactly when some token reads as it; none is kept exactly when no token reads as a number. */
  lemma {:induction false} ParseFloatsMembers(js: Runtime, tokens: seq<string>)
    ensures forall x :: x in ParseFloats(js, tokens) <==> exists k :: 0 <= k < |tokens| && js.parseFloat(tokens[k]) == Some(x)
    ensures ParseFloats(js, tokens) == [] <==> forall k :: 0 <= k < |tokens| ==> js.parseFloat(tokens[k]) == None
  {
    if tokens != [] {
      ParseFloatsMembers(js, tokens[1..]);
      assert forall k :: 1 <= k < |tokens| ==> tokens[k] == tokens[1..][k - 1];
      forall x | x in ParseFloats(js, tokens)
        ensures exists k :: 0 <= k < |tokens| && js.parseFloat(tokens[k]) == Some(x)
      {
        if js.parseFloat(tokens[0]) != Some(x) {
          var k :| 0 <= k < |tokens[1..]| && js.parseFloat(tokens[1..][k]) == Some(x);
          assert js.parseFloat(tokens[k + 1]) == Some(x);
        }
      }
      forall x, k | 0 <= k < |tokens| && js.parseFloat(tokens[k]) == Some(x)
        ensures x in ParseFloats(js, tokens)
      {
        if k > 0 {
          assert js.parseFloat(tokens[1..][k - 1]) == Some(x);
        }
      }
    }
  }

  /** The numbers of a longer token list are those of its two parts, in the same order. */
  lemma {:induction false} ParseFloatsAppend(js: Runtime, a: seq<string>, b: seq<string>)
    ensures ParseFloats(js, a + b) == ParseFloats(js, a) + ParseFloats(js, b)
  {
    if a == [] {
      assert a + b == b;
    } else {
      var ab := a + b;
      assert ab[0] == a[0] && ab[1..] == a[1..] + b;
      ParseFloatsAppend(js, a[1..], b);
      var head := if js.parseFloat(a[0]).Some? then [js.parseFloat(a[0]).value] else [];
      assert ParseFloats(js, ab) == head + ParseFloats(js, a[1..] + b);
      assert ParseFloats(js, a) == head + ParseFloats(js, a[1..]);
    }
  }

  /** The numbers the handler reads from the dataset field. */
  function DatasetNumbers(js: Runtime, input: string): seq<Num>
  {
    ParseFloats(js, Fields(input))
  }

  /** A dataset made only of white space and commas, the empty one included, holds no number. */
  lemma SeparatorsHoldNoNumber(js: Runtime, input: string)
    requires js.Valid()
    requires forall k :: 0 <= k < |input| ==> IsSeparator(input[k])
    ensures DatasetNumbers(js, input) == []
  {
    var toks := Fields(input);
    FieldsOfSeparators(input);
    ParseFloatsMembers(js, toks);
    forall k | 0 <= k < |toks| ensures js.parseFloat(toks[k]) == None {
      assert toks[k] in toks;
    }
  }

  /** Reading the printed numbers back gives the numbers. */
  lemma {:induction false} ParseFloatsOfShowAll(js: Runtime, nums: seq<Num>)
    requires js.Valid() && AllDoubles(js, nums)
    ensures ParseFloats(js, ShowAll(js, nums)) == nums
  {
    if nums != [] {
      ParseFloatsOfShowAll(js, nums[1..]);
      assert ShowAll(js, nums)[1..] == ShowAll(js, nums[1..]);
    }
  }

  /** `Dataset: [${numbers.join(', ')}]` */
  function DatasetPayload(js: Runtime, nums: seq<Num>): string
  {
    "Dataset: [" + JoinNumbers(js, nums, ", ") + "]"
  }

  /**
   * The payload is the bracketed list behind "Dataset: ", and reading that
   * list the way the handler reads its input gives the numbers back.
   */
  lemma DatasetPayloadRoundTrip(js: Runtime, nums: seq<Num>)
    requires js.Valid() && AllDoubles(js, nums)
    requires nums != []
    ensures var p := DatasetPayload(js, nums);
      |p| >= 11 && p[..10] == "Dataset: [" && p[|p| - 1] == ']'
      && DatasetNumbers(js, p[10..|p| - 1]) == nums
  {
    var p := DatasetPayload(js, nums);
    assert p[10..|p| - 1] == JoinNumbers(js, nums, ", ");
    FieldsOfJoinNumbers(js, nums, ", ");
    ParseFloatsOfShowAll(js, nums);
  }

  /** Every number read from the tokens is a double. */
  lemma {:induction false} ParseFloatsDoubles(js: Runtime, tokens: seq<string>)
    requires js.Valid()
    ensures AllDoubles(js, ParseFloats(js, tokens))
  {
    if tokens != [] {
      ParseFloatsDoubles(js, tokens[1..]);
    }
  }

  /** The list sent for a dataset reads back as the numbers of that dataset. */
  lemma DatasetPayloadOfInput(js: Runtime, input: string)
    requires js.Valid()
    requires DatasetNumbers(js, input) != []
    ensures var p := DatasetPayload(js, DatasetNumbers(js, input));
      DatasetNumbers(js, p[10..|p| - 1]) == DatasetNumbers(js, input)
  {
    ParseFloatsDoubles(js, Fields(input));
    DatasetPayloadRoundTrip(js, DatasetNumbers(js, input));
  }

  /** The list in the payload holds one ", " fewer than there are numbers. */
  lemma DatasetPayloadCommas(js: Runtime, nums: seq<Num>)
    requires js.Valid()
    requires nums != []
    ensures CountChar(DatasetPayload(js, nums), ',') == |nums| - 1
  {
    var list := JoinNumbers(js, nums, ", ");
    assert CountChar(list, ',') == |nums| - 1 by {
      CountInJoinNumbers(js, nums, ", ", ',');
      assert CountChar(", ", ',') == 1;
    }
    assert CountChar("Dataset: [", ',') == 0 && CountChar("]", ',') == 0 by {
      CountCharAbsent("Dataset: [", ',');
      CountCharAbsent("]", ',');
    }
    CountCharAppend("Dataset: [", list, ',');
    CountCharAppend("Dataset: [" + list, "]", ',');
  }

  // ---------------------------------------------------------------------------
  // the page

  /** The operations offered by the selector. */
  const Operations: seq<string> := ["mean", "median", "mode", "stddev", "probability"]

  /** The instruction sent for each operation. */
  const Tasks: map<string, string> := map[
    "mean" := "Calculate the mean (average) of the following dataset:",
    "median" := "Calculate the median of the following dataset:",
    "mode" := "Calculate the mode of the following dataset:",
    "stddev" := "Calculate the standard deviation of the following dataset:",
    "probability" := "Calculate the probability of a specific value in the following dataset (assume a discrete uniform distribution unless specified):"
  ]

  const DefaultTask: string := "Calculate the mean (average) of the following dataset:"

  /** The sample datasets the page offers as buttons. */
  const Samples: seq<string> := ["5, 10, 15, 10, 20", "1 2 3 4 5 6", "7, 8, 9, 10, 11, 12, 13"]

  const NoNumbers: string := "Please enter a valid list of numbers."
  const ProcessingFailed: string := "An error occurred while processing the dataset"

  /** The instruction for an operation; an unknown operation gets the mean instruction. */
  function Task(op: string): (r: string)
    ensures op in Tasks ==> r == Tasks[op]
    ensures op !in Tasks ==> r == Tasks["mean"]
  {
    TaskFor(Tasks, op, DefaultTask)
  }

  lemma TasksCoverOperations()
    ensures CoversOperations(Tasks, Operations)
  {
  }

  lemma TasksDistinct()
    ensures forall k :: 0 <= k < |Operations| ==> Operations[k] in Tasks
    ensures DistinctInstructions(Tasks, Operations)
  {
  }

  /**
   * How the reply is shown: the value `JSON.parse` gives for it (a null reply
   * parses as the text "null"), else the raw reply, or "No result returned"
   * when that is empty.
   */
  function Interpret(js: Runtime, response: Option<string>): (r: Json)
    requires js.Valid()
    ensures response == None ==> r == JNull
    ensures response != None && js.jsonParse(response.value) != None ==> r == js.jsonParse(response.value).value
    ensures response != None && js.jsonParse(response.value) == None ==> r == JString(Or(response, NoResult))
    ensures response == Some("") ==> r == JString(NoResult)
  {
    match js.jsonParse(JsonText(response))
    case Some(v) => v
    case None => JString(Or(response, NoResult))
  }

  class StatsProbability {
    var dataInput: string
    var selectedOperation: string
    /** The shown result; JNull is the page's `null`. */
    var result: Json
    var loading: bool
    var error: Option<string>

    constructor ()
      ensures dataInput == "" && selectedOperation == "mean"
      ensures result == JNull && !loading && error == None
    {
      dataInput, selectedOperation := "", "mean";
      result, loading, error := JNull, false, None;
    }

    /** The dataset field. */
    method ChangeData(input: string)
      modifies this
      ensures dataInput == input
      ensures selectedOperation == old(selectedOperation) && result == old(result)
      ensures loading == old(loading) && error == old(error)
    {
      dataInput := input;
    }

    /** A sample button: fills the dataset field with the sample. */
    method PickSample(k: nat)
      requires k < |Samples|
      modifies this
      ensures dataInput == Samples[k]
      ensures selectedOperation == old(selectedOperation) && result == old(result)
      ensures loading == old(loading) && error == old(error)
    {
      dataInput := Samples[k];
    }

    /** The operation selector. */
    method SelectOperation(op: string)
      modifies this
      ensures selectedOperation == op
      ensures dataInput == old(dataInput) && result == old(result)
      ensures loading == old(loading) && error == old(error)
    {
      selectedOperation := op;
    }

    /**
     * handleSolve up to the request: a dataset with no number is refused
     * with an error and no request; otherwise loading starts, error and
     * result are cleared and the numbers are sent in the dataset template.
     */
    method Solve(js: Runtime) returns (request: Option<Request>)
      modifies this
      ensures DatasetNumbers(js, old(dataInput)) == [] ==>
        request == None && error == Some(NoNumbers) && loading == old(loading) && result == old(result)
      ensures DatasetNumbers(js, old(dataInput)) != [] ==>
        && request == Some(Request(Task(selectedOperation), DatasetPayload(js, DatasetNumbers(js, dataInput))))
        && loading && error == None && result == JNull
      ensures dataInput == old(dataInput) && selectedOperation == old(selectedOperation)
    {
      var numbers := DatasetNumbers(js, dataInput);
      if |numbers| == 0 {
        error := Some(NoNumbers);
        return None;
      }
      loading := true;
      error := None;
      result := JNull;
      var prompt := DatasetPayload(js, numbers);
      request := Some(Request(Task(selectedOperation), prompt));
    }

    /**
     * handleSolve after the request: the result is the closure's `response`
     * read as JSON, or the raw text; a thrown call sets the hook's error or a
     * fixed message. Loading ends on both paths.
     */
    method Finish(js: Runtime, settled: Settled, response: Option<string>, hookError: Option<string>)
      requires js.Valid()
      modifies this
      ensures !loading
      ensures settled == Resolved ==> result == Interpret(js, response) && error == old(error)
      ensures settled == Rejected ==> error == Some(Or(hookError, ProcessingFailed)) && result == old(result)
      ensures dataInput == old(dataInput) && selectedOperation == old(selectedOperation)
    {
      if settled == Resolved {
        result := Interpret(js, response);
      } else {
        error := Some(Or(hookError, ProcessingFailed));
      }
      loading := false;
    }
  }
}
