/**
 * internal/agent/stats.go: the agent's published snapshot. collect drains the
 * collectors' results, and publishes the metrics only when nothing went wrong;
 * GetMetrics hands out a copy.
 *
 * The goroutines and the channel are not modelled: `received` is what the drain loop
 * took from the channel, in order, before it stopped, and `stoppedByDone` says
 * whether it stopped on ctx.Done() rather than on the channel closing.
 */
module AgentStats {
  import opened Wrappers
  import opened Errors
  import opened Models

  /** A collector's result: a metric, or an error (agent.Result). */
  datatype CollectorResult = CollectorResult(metric: MetricModel, err: Option<Error>)

  /** The metrics of the error-free results, in arrival order. */
  function Delivered(rs: seq<CollectorResult>): (ms: seq<MetricModel>)
    ensures |ms| <= |rs|
    ensures (forall i :: 0 <= i < |rs| ==> rs[i].err.None?) ==> |ms| == |rs| && forall i :: 0 <= i < |rs| ==> ms[i] == rs[i].metric
  {
    if rs == [] then []
    else
      var init, last := rs[..|rs| - 1], rs[|rs| - 1];
      assert forall i :: 0 <= i < |init| ==> init[i] == rs[i];
      Delivered(init) + (if last.err.None? then [last.metric] else [])
  }

  /** The errors of the results, in arrival order. */
  function Failures(rs: seq<CollectorResult>): (es: seq<Error>)
    ensures (forall i :: 0 <= i < |rs| ==> rs[i].err.None?) <==> es == []
  {
    if rs == [] then []
    else
      var init, last := rs[..|rs| - 1], rs[|rs| - 1];
      assert forall i :: 0 <= i < |init| ==> init[i] == rs[i];
      Failures(init) + (if last.err.Some? then [last.err.value] else [])
  }

  /** Every delivered metric came from a result without an error. */
  lemma {:induction false} DeliveredFromSuccesses(rs: seq<CollectorResult>, m: MetricModel)
    requires m in Delivered(rs)
    ensures exists i :: 0 <= i < |rs| && rs[i].err.None? && rs[i].metric == m
    decreases |rs|
  {
    var init, last := rs[..|rs| - 1], rs[|rs| - 1];
    if m in Delivered(init) {
      DeliveredFromSuccesses(init, m);
      var i :| 0 <= i < |init| && init[i].err.None? && init[i].metric == m;
      assert rs[i] == init[i];
    } else {
      assert rs[|rs| - 1] == last;
    }
  }

  /**
   * The errors collect joins: the results' errors, then ctx.Err() if the loop stopped
   * on Done, then the "collection interrupted" wrapping if the context is cancelled.
   */
  function CollectErrors(received: seq<CollectorResult>, stoppedByDone: bool, ctxErr: Option<Error>): seq<Error>
    requires stoppedByDone ==> ctxErr.Some?
  {
    Failures(received)
    + (if stoppedByDone then [ctxErr.value] else [])
    + (if ctxErr.Some? then [Wrapped("collection interrupted", ctxErr.value)] else [])
  }

  class Stats {
    /** The published snapshot (s.metrics). */
    var metrics: seq<MetricModel>

    /** newStats: nothing published yet. */
    constructor ()
      ensures metrics == []
    {
      metrics := [];
    }

    /**
     * collect: drains the results, then either publishes every metric received (no
     * error at all) or clears the snapshot and returns the errors joined.
     */
    method Collect(received: seq<CollectorResult>, stoppedByDone: bool, ctxErr: Option<Error>) returns (err: Option<Error>)
      requires stoppedByDone ==> ctxErr.Some?
      modifies this
      ensures err.None? <==> CollectErrors(received, stoppedByDone, ctxErr) == []
      ensures err.Some? ==> err.value == Joined(CollectErrors(received, stoppedByDone, ctxErr)) && metrics == []
      ensures err.None? ==> metrics == Delivered(received)
    {
      var errs: seq<Error> := [];
      var ms: seq<MetricModel> := [];
      var i := 0;
      while i < |received|
        invariant 0 <= i <= |received|
        invariant errs == Failures(received[..i]) && ms == Delivered(received[..i])
      {
        assert received[..i + 1][..i] == received[..i];
        var res := received[i];
        if res.err.Some? {
          errs := errs + [res.err.value];
        } else {
          ms := ms + [res.metric];
        }
        i := i + 1;
      }
      assert received[..i] == received;
      if stoppedByDone {
        errs := errs + [ctxErr.value];
      }
      if ctxErr.Some? {
        errs := errs + [Wrapped("collection interrupted", ctxErr.value)];
      }
      if |errs| > 0 {
        metrics := [];
        return Some(Joined(errs));
      }
      metrics := ms;
      return None;
    }

    /** GetMetrics: a fresh slice holding the snapshot. */
    method GetMetrics() returns (copy: array<MetricModel>)
      ensures fresh(copy) && copy[..] == metrics
    {
      copy := new MetricModel[|metrics|](i requires 0 <= i < |metrics| reads this => metrics[i]);
    }
  }

  /** Writing into the copy GetMetrics returned leaves the published snapshot as it was. */
  method MutateCopy(s: Stats, m: MetricModel)
    ensures s.metrics == old(s.metrics)
  {
    var copy := s.GetMetrics();
    if copy.Length > 0 {
      copy[0] := m;
    }
  }

  /** A cancelled context always fails collect, and its error is among those joined. */
  lemma CancelledCollectFails(received: seq<CollectorResult>, stoppedByDone: bool, ctxErr: Error)
    ensures CollectErrors(received, stoppedByDone, Some(ctxErr)) != []
    ensures Is(Joined(CollectErrors(received, stoppedByDone, Some(ctxErr))), ctxErr)
  {
    var es := CollectErrors(received, stoppedByDone, Some(ctxErr));
    assert es[|es| - 1] == Wrapped("collection interrupted", ctxErr);
    assert Is(es[|es| - 1], ctxErr);
  }

  /** With no error anywhere, collect publishes every result's metric in arrival order. */
  lemma CleanCollectPublishesAll(received: seq<CollectorResult>)
    requires forall i :: 0 <= i < |received| ==> received[i].err.None?
    ensures CollectErrors(received, false, None) == []
    ensures |Delivered(received)| == |received|
    ensures forall i :: 0 <= i < |received| ==> Delivered(received)[i] == received[i].metric
  {
  }
}
