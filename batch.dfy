/**
 * Selecting requests by name and executing a batch of requests one after
 * another, stopping at the first request that fails.
 */
module Batch {
  import opened Common
  import opened Requests
  import opened Execution

  /** The requests whose name is one of `names`, in their original order. */
  function Filtered(reqs: seq<Req>, names: seq<string>): seq<Req>
    decreases |reqs|
  {
    if reqs == [] then []
    else
      var n := |reqs| - 1;
      Filtered(reqs[..n], names) + (if ContainsString(names, reqs[n].name) then [reqs[n]] else [])
  }

  /** The positions of the requests whose name is one of `names`, in increasing order. */
  function Selected(reqs: seq<Req>, names: seq<string>): seq<nat>
    decreases |reqs|
  {
    if reqs == [] then []
    else
      var n := |reqs| - 1;
      Selected(reqs[..n], names) + (if reqs[n].name in names then [n] else [])
  }

  /** The selected positions are positions of the input, in strictly increasing order. */
  lemma {:induction false} SelectedIncreasing(reqs: seq<Req>, names: seq<string>)
    ensures forall k :: 0 <= k < |Selected(reqs, names)| ==> Selected(reqs, names)[k] < |reqs|
    ensures forall k, l :: 0 <= k < l < |Selected(reqs, names)| ==> Selected(reqs, names)[k] < Selected(reqs, names)[l]
    decreases |reqs|
  {
    if reqs != [] {
      var n := |reqs| - 1;
      var idx0 := Selected(reqs[..n], names);
      SelectedIncreasing(reqs[..n], names);
      assert forall k :: 0 <= k < |idx0| ==> idx0[k] < n;
      var idx := Selected(reqs, names);
      if reqs[n].name in names {
        assert idx == idx0 + [n];
        assert forall k :: 0 <= k < |idx0| ==> idx[k] == idx0[k];
      } else {
        assert idx == idx0;
      }
    }
  }

  /** A position is selected exactly when the request there has a listed name. */
  lemma {:induction false} SelectedMembers(reqs: seq<Req>, names: seq<string>)
    ensures forall j :: 0 <= j < |reqs| ==> (j in Selected(reqs, names) <==> reqs[j].name in names)
    decreases |reqs|
  {
    if reqs != [] {
      var n := |reqs| - 1;
      var pre := reqs[..n];
      SelectedMembers(pre, names);
      SelectedIncreasing(pre, names);
      var idx0 := Selected(pre, names);
      assert n !in idx0;
      forall j | 0 <= j < |reqs|
        ensures j in Selected(reqs, names) <==> reqs[j].name in names
      {
        if j < n {
          assert pre[j] == reqs[j];
        }
      }
    }
  }

  /** The filter's result is the input read at the selected positions. */
  lemma {:induction false} FilteredAtSelected(reqs: seq<Req>, names: seq<string>)
    ensures var idx := Selected(reqs, names);
      && |Filtered(reqs, names)| == |idx|
      && (forall k :: 0 <= k < |idx| ==> idx[k] < |reqs| && Filtered(reqs, names)[k] == reqs[idx[k]])
    decreases |reqs|
  {
    SelectedIncreasing(reqs, names);
    if reqs != [] {
      var n := |reqs| - 1;
      var pre := reqs[..n];
      FilteredAtSelected(pre, names);
      var idx0 := Selected(pre, names);
      assert forall k :: 0 <= k < |idx0| ==> pre[idx0[k]] == reqs[idx0[k]];
    }
  }

  /**
   * The filter keeps exactly the requests whose name is listed, once per
   * occurrence (requests sharing a name are all kept), in their original
   * order: the result is the input read at the increasing positions of
   * those requests.
   */
  lemma FilteredIsSelection(reqs: seq<Req>, names: seq<string>)
    ensures var idx := Selected(reqs, names);
      && |Filtered(reqs, names)| == |idx|
      && (forall k :: 0 <= k < |idx| ==> idx[k] < |reqs| && Filtered(reqs, names)[k] == reqs[idx[k]])
      && (forall k, l :: 0 <= k < l < |idx| ==> idx[k] < idx[l])
      && (forall j :: 0 <= j < |reqs| ==> (j in idx <==> reqs[j].name in names))
  {
    SelectedIncreasing(reqs, names);
    SelectedMembers(reqs, names);
    FilteredAtSelected(reqs, names);
  }

  /** A request is in the result iff it is in the input and its name is listed. */
  lemma FilteredMembers(reqs: seq<Req>, names: seq<string>, r: Req)
    ensures r in Filtered(reqs, names) <==> r in reqs && r.name in names
  {
    FilteredIsSelection(reqs, names);
    var idx := Selected(reqs, names);
    if r in reqs && r.name in names {
      var j :| 0 <= j < |reqs| && reqs[j] == r;
      assert j in idx;
      var k :| 0 <= k < |idx| && idx[k] == j;
      assert Filtered(reqs, names)[k] == r;
    }
  }

  /** The selection loop of the source's `filterReqs`. */
  method FilterReqs(reqs: seq<Req>, names: seq<string>) returns (filtered: seq<Req>)
    ensures filtered == Filtered(reqs, names)
  {
    filtered := [];
    for i := 0 to |reqs|
      invariant filtered == Filtered(reqs[..i], names)
    {
      TakeTake(reqs, i, i + 1);
      if ContainsString(names, reqs[i].name) {
        filtered := filtered + [reqs[i]];
      }
    }
    TakeFull(reqs);
  }

  /** What a batch returns: the responses collected and the error that stopped it, if any. */
  datatype Outcome<R, E> = Outcome(responses: seq<R>, err: Option<E>)

  /**
   * The batch executed by `exec`, one request at a time in order; the
   * first failure ends it and is returned with the responses before it.
   */
  function RunBatch<R, E>(reqs: seq<Req>, exec: Req -> Result<R, E>): Outcome<R, E>
    decreases |reqs|
  {
    if reqs == [] then Outcome([], None)
    else
      match exec(reqs[0])
      case Failure(e) => Outcome([], Some(e))
      case Success(r) =>
        var rest := RunBatch(reqs[1..], exec);
        Outcome([r] + rest.responses, rest.err)
  }

  /** The index of the first request `exec` fails on, or the batch's length when none fails. */
  function FirstFailure<R, E>(reqs: seq<Req>, exec: Req -> Result<R, E>): (i: nat)
    ensures i <= |reqs|
    ensures forall j :: 0 <= j < i ==> exec(reqs[j]).Success?
    ensures i < |reqs| ==> exec(reqs[i]).Failure?
    decreases |reqs|
  {
    if reqs == [] || exec(reqs[0]).Failure? then 0
    else 1 + FirstFailure(reqs[1..], exec)
  }

  /**
   * Fail-fast: a batch in which nothing fails yields one response per
   * request, in order; otherwise it yields exactly the responses of the
   * requests before the first failure, together with that failure's error.
   */
  lemma {:induction false} RunBatchFailFast<R, E>(reqs: seq<Req>, exec: Req -> Result<R, E>)
    ensures var o := RunBatch(reqs, exec); var i := FirstFailure(reqs, exec);
      && |o.responses| == i
      && (forall j :: 0 <= j < i ==> exec(reqs[j]) == Success(o.responses[j]))
      && (o.err.None? <==> i == |reqs|)
      && (o.err.Some? ==> exec(reqs[i]) == Failure(o.err.value))
    decreases |reqs|
  {
    if reqs != [] && exec(reqs[0]).Success? {
      RunBatchFailFast(reqs[1..], exec);
      var o := RunBatch(reqs, exec);
      var rest := RunBatch(reqs[1..], exec);
      assert forall j :: 1 <= j < |o.responses| ==> o.responses[j] == rest.responses[j - 1];
    }
  }

  /**
   * Requests after the first failure are never executed: changing what the
   * executor does on them does not change the outcome.
   */
  lemma {:induction false} RunBatchIgnoresLater<R, E>(
    reqs: seq<Req>, exec: Req -> Result<R, E>, other: Req -> Result<R, E>)
    requires forall j :: 0 <= j < |reqs| && j <= FirstFailure(reqs, exec) ==> other(reqs[j]) == exec(reqs[j])
    ensures RunBatch(reqs, other) == RunBatch(reqs, exec)
    decreases |reqs|
  {
    if reqs != [] && exec(reqs[0]).Success? {
      assert forall j :: 0 <= j < |reqs| - 1 ==> reqs[1..][j] == reqs[j + 1];
      RunBatchIgnoresLater(reqs[1..], exec, other);
    }
  }

  /** The batch loop of the source's `execReqs`: returns early with what it has on the first error. */
  method ExecReqs<R, E>(reqs: seq<Req>, exec: Req -> Result<R, E>) returns (responses: seq<R>, err: Option<E>)
    ensures Outcome(responses, err) == RunBatch(reqs, exec)
  {
    RunBatchFailFast(reqs, exec);
    ghost var o := RunBatch(reqs, exec);
    responses := [];
    for i := 0 to |reqs|
      invariant i <= FirstFailure(reqs, exec)
      invariant responses == o.responses[..i]
    {
      var response := exec(reqs[i]);
      if response.Failure? {
        return responses, Some(response.error);
      }
      responses := responses + [response.value];
    }
    TakeFull(o.responses);
    return responses, None;
  }

  /**
   * Executing the requests of a batch with the corrected per-request
   * execution: the responses answer the requests in order, each one is the
   * transport's answer to a request that was built without error (no
   * response comes from a request that a malformed header or a rejected URL
   * stopped), and a batch without error answers all of them.
   */
  lemma ExecutedInOrder(
    reqs: seq<Req>,
    expand: string -> string,
    check: (string, string) -> Option<string>,
    send: Prepared -> Result<Response, string>)
    ensures var o := RunBatch(reqs, r => Execute(r, expand, check, send));
      && |o.responses| <= |reqs|
      && (forall j :: 0 <= j < |o.responses| ==>
            && o.responses[j].req == reqs[j]
            && Prepare(reqs[j], expand, check).Success?
            && send(Prepare(reqs[j], expand, check).value) == Success(o.responses[j].response))
      && (o.err.None? ==> |o.responses| == |reqs|)
  {
    var exec := r => Execute(r, expand, check, send);
    RunBatchFailFast(reqs, exec);
  }

  /**
   * Three requests of which the second fails: exactly one response and the
   * second request's error, and the third is not executed.
   */
  lemma SecondOfThreeFails<R, E>(a: Req, b: Req, c: Req, exec: Req -> Result<R, E>)
    requires exec(a).Success? && exec(b).Failure?
    ensures RunBatch([a, b, c], exec) == Outcome([exec(a).value], Some(exec(b).error))
  {
    assert [a, b, c][1..] == [b, c];
  }
}
