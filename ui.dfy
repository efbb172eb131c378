/** Outcomes of the foreign calls the pages make (HTTP requests through axios,
    confirmation prompts) and the notifications they show. A request is not
    performed here: its outcome is an input, and the page's reaction to it is
    what the model states. */
module Ui {

  datatype Option<+T> = None | Some(value: T)

  /** What a rejected request carries: `err.response?.data?.message` (the
      server's message) and `err.message` (the client's own). An absent or
      falsy value is the empty string. */
  datatype Failure = Failure(serverMessage: string, message: string)

  /** The outcome of one awaited request. */
  datatype Response<+T> = Ok(data: T) | Err(failure: Failure)

  /** A toast notification. */
  datatype Toast = Success(text: string) | Error(text: string)

  /** JavaScript's `c0 || c1 || … || fallback` over strings: the first
      candidate that is not empty, or the fallback when every candidate is. */
  function FirstTruthy(candidates: seq<string>, fallback: string): (r: string)
    ensures (forall i :: 0 <= i < |candidates| ==> candidates[i] == "") ==> r == fallback
    ensures (exists i :: 0 <= i < |candidates| && candidates[i] != "") ==>
              exists k :: 0 <= k < |candidates| && r == candidates[k] && r != "" &&
                          forall j :: 0 <= j < k ==> candidates[j] == ""
    ensures r != "" || fallback == ""
  {
    if candidates == [] then fallback
    else if candidates[0] != "" then candidates[0]
    else
      var r := FirstTruthy(candidates[1..], fallback);
      assert forall i :: 1 <= i < |candidates| ==> candidates[i] == candidates[1..][i - 1];
      r
  }

  /** `err.response?.data?.message || fallback`, as the dashboard reports a failure. */
  function ServerMessageOr(f: Failure, fallback: string): (r: string)
    ensures f.serverMessage != "" ==> r == f.serverMessage
    ensures f.serverMessage == "" ==> r == fallback
  {
    FirstTruthy([f.serverMessage], fallback)
  }

  /** `err.response?.data?.message || err.message || fallback`, as the forms
      report a failure. */
  function AnyMessageOr(f: Failure, fallback: string): (r: string)
    ensures f.serverMessage != "" ==> r == f.serverMessage
    ensures f.serverMessage == "" && f.message != "" ==> r == f.message
    ensures f.serverMessage == "" && f.message == "" ==> r == fallback
  {
    var candidates := [f.serverMessage, f.message];
    assert candidates[1] == f.message;
    FirstTruthy(candidates, fallback)
  }
}
