// What the calculator pages exchange with the `useGroq` hook. The hook itself
// and the remote completion service behind it are not part of this model: a
// request is the pair the page passes to `fetchGroqResponse`, and the page's
// continuation after `await` receives how the call settled together with the
// `response` and `error` values its closure sees.

module Hook {

  import opened Values

  /** The (instruction, payload) pair passed to `fetchGroqResponse`. */
  datatype Request = Request(instruction: string, payload: string)

  /** Whether the awaited `fetchGroqResponse` call resolved or threw. */
  datatype Settled = Resolved | Rejected

  /** The text every page shows when the reply is empty or null. */
  const NoResult: string := "No result returned"

  /** `table[key] || fallback` for a task table whose values are strings. */
  function TaskFor(table: map<string, string>, key: string, fallback: string): (r: string)
    ensures key in table && table[key] != "" ==> r == table[key]
    ensures key in table && table[key] == "" ==> r == fallback
    ensures key !in table ==> r == fallback
  {
    Or(if key in table then Some(table[key]) else None, fallback)
  }

  /** Every operation a page offers has a non-empty instruction, and the table has no other key. */
  ghost predicate CoversOperations(table: map<string, string>, operations: seq<string>)
  {
    && (forall k :: 0 <= k < |operations| ==> operations[k] in table && table[operations[k]] != "")
    && table.Keys == set op | op in operations
  }

  /** No two operations a page offers share an instruction. */
  ghost predicate DistinctInstructions(table: map<string, string>, operations: seq<string>)
    requires forall k :: 0 <= k < |operations| ==> operations[k] in table
  {
    forall k, m :: 0 <= k < m < |operations| ==> table[operations[k]] != table[operations[m]]
  }
}
