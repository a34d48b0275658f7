/**
 The goroutines of a parallel group, interleaved at every API call, as steps of the protocol:
 what the protocol keeps is kept at every call, and what it collects does not depend on the
 interleaving.
 */
module Goroutines {
  import opened Wrappers
  import opened Kube
  import opened Rollout
  import opened Walk
  import opened Protocol
  import Parallel

  function ProgressOfThread(t: Parallel.Status): Progress {
    if t.Running? then Running else Returned(t.err)
  }

  function ProgressOfThreads(threads: seq<Parallel.Status>): seq<Progress> {
    seq(|threads|, i requires 0 <= i < |threads| => ProgressOfThread(threads[i]))
  }

  /** The protocol is in a parallel group, all of whose steps have started, as far as `w` is. */
  ghost predicate Linked(c: Config, s: State, w: Parallel.World) {
    && s.ending.Going? && |s.past| < |c.groups|
    && c.groups[|s.past|].parallel
    && s.here == ProgressOfThreads(w.threads)
    && |s.here| == |c.groups[|s.past|].steps| == s.next
  }

  /** A step of a goroutine is no step of the protocol, or the return of a step. */
  lemma StepIsReturn(c: Config, s: State, jobs: seq<Job>, w: Parallel.World, i: nat, faults: Faults)
    requires |w.threads| == |jobs| && Linked(c, s, w)
    ensures var w' := Parallel.Step(jobs, w, i, faults);
      || Linked(c, s, w')
      || exists err :: Enabled(c, s, Return(i, err)) && Linked(c, After(c, s, Return(i, err)), w')
  {
    var w' := Parallel.Step(jobs, w, i, faults);
    if i < |jobs| && w.threads[i].Running? && w'.threads[i].Returned? {
      var err := w'.threads[i].err;
      assert ProgressOfThreads(w'.threads) == s.here[i := Returned(err)];
      assert Enabled(c, s, Return(i, err)) && Linked(c, After(c, s, Return(i, err)), w');
    } else {
      assert ProgressOfThreads(w'.threads) == s.here;
    }
  }

  lemma OneMoreLabel(c: Config, states: seq<State>, labels: seq<Label>, l: Label)
    requires IsRun(c, states, labels) && Enabled(c, states[|labels|], l)
    ensures IsRun(c, states + [After(c, states[|labels|], l)], labels + [l])
  {
    var states', labels' := states + [After(c, states[|labels|], l)], labels + [l];
    forall i | 0 <= i < |labels'|
      ensures Enabled(c, states'[i], labels'[i]) && states'[i + 1] == After(c, states'[i], labels'[i])
    {
      if i < |labels| {
        assert states'[i] == states[i] && states'[i + 1] == states[i + 1] && labels'[i] == labels[i];
      } else {
        assert states'[i] == states[|labels|] && labels'[i] == l && states'[i + 1] == After(c, states[|labels|], l);
      }
    }
  }

  /** The loop may start all steps of a parallel group before any returns: the link can be made. */
  lemma {:induction false} AllMayStart(c: Config, states: seq<State>, labels: seq<Label>, jobs: seq<Job>,
      leaves: seq<Object>, st: Store)
    returns (states': seq<State>, labels': seq<Label>)
    requires IsRun(c, states, labels)
    requires var s := states[|labels|];
      && s.ending.Going? && |s.past| < |c.groups| && c.groups[|s.past|].parallel
      && |s.here| == |c.groups[|s.past|].steps| == |jobs| && s.next <= |s.here|
      && (forall k :: 0 <= k < |s.here| ==> s.here[k] == if k < s.next then Running else NotStarted)
    ensures IsRun(c, states', labels') && |states'[|labels'|].past| == |states[|labels|].past|
    ensures Linked(c, states'[|labels'|], Parallel.Begin(jobs, leaves, st))
    decreases |states[|labels|].here| - states[|labels|].next
  {
    var s := states[|labels|];
    if s.next == |s.here| {
      states', labels' := states, labels;
      assert s.here == ProgressOfThreads(Parallel.Begin(jobs, leaves, st).threads);
    } else {
      OneMoreLabel(c, states, labels, Start);
      states', labels' := AllMayStart(c, states + [After(c, s, Start)], labels + [Start], jobs, leaves, st);
    }
  }

  /** The run has gone on, from where it was, with returns of steps only. */
  ghost predicate Continues(c: Config, states: seq<State>, labels: seq<Label>, states': seq<State>, labels': seq<Label>) {
    && IsRun(c, states', labels') && |labels| <= |labels'|
    && |states| <= |states'| && states'[..|states|] == states
    && labels'[..|labels|] == labels
    && (forall k :: |labels| <= k < |labels'| ==> labels'[k].Return?)
  }

  /**
   Every interleaving of the API calls of a parallel group is a run of the protocol, at every
   call: from a run that has started the steps of the group, `schedule` leads to a longer run.
   */
  lemma {:induction false} CallsAreRuns(c: Config, states: seq<State>, labels: seq<Label>, jobs: seq<Job>,
      w: Parallel.World, schedule: seq<nat>, faults: Faults)
    returns (states': seq<State>, labels': seq<Label>)
    requires IsRun(c, states, labels) && |w.threads| == |jobs| && Linked(c, states[|labels|], w)
    ensures Continues(c, states, labels, states', labels')
    ensures Linked(c, states'[|labels'|], Parallel.Run(jobs, w, schedule, faults))
    ensures |states'[|labels'|].past| == |states[|labels|].past|
  {
    if schedule == [] {
      states', labels' := states, labels;
    } else {
      var init, i := schedule[..|schedule| - 1], schedule[|schedule| - 1];
      states', labels' := CallsAreRuns(c, states, labels, jobs, w, init, faults);
      var v, s := Parallel.Run(jobs, w, init, faults), states'[|labels'|];
      StepIsReturn(c, s, jobs, v, i, faults);
      if !Linked(c, s, Parallel.Step(jobs, v, i, faults)) {
        var err :| Enabled(c, s, Return(i, err)) && Linked(c, After(c, s, Return(i, err)), Parallel.Step(jobs, v, i, faults));
        OneMoreLabel(c, states', labels', Return(i, err));
        states', labels' := states' + [After(c, s, Return(i, err))], labels' + [Return(i, err)];
      }
    }
  }

  /** At every API call of a parallel group, every earlier group is over. */
  lemma BarrierForCalls(c: Config, states: seq<State>, labels: seq<Label>, jobs: seq<Job>,
      w: Parallel.World, schedule: seq<nat>, faults: Faults, i: nat)
    returns (states': seq<State>, labels': seq<Label>)
    requires IsRun(c, states, labels) && |w.threads| == |jobs| > 0 && Linked(c, states[|labels|], w)
    requires i < |states[|labels|].past|
    ensures Continues(c, states, labels, states', labels')
    ensures Linked(c, states'[|labels'|], Parallel.Run(jobs, w, schedule, faults))
    ensures c.feedback ==> states'[|labels'|].accepted > i
    ensures var ps := ProgressOf(c, states'[|labels'|], i);
      && |ps| == |c.groups[i].steps|
      && forall x :: 0 <= x < |ps| ==>
           && ps[x].Returned?
           && (c.groups[i].parallel || !c.groups[i].steps[x].continueOnError ==> ps[x].err.None?)
  {
    states', labels' := CallsAreRuns(c, states, labels, jobs, w, schedule, faults);
    var s := states'[|labels'|];
    assert !ProgressOf(c, s, |s.past|)[0].NotStarted?;
    Barrier(c, states', labels', |labels'|, i, |s.past|);
  }

  // ---- What is collected does not depend on the interleaving ----

  function ProgressOfResults(results: seq<Option<Error>>): seq<Progress> {
    seq(|results|, i requires 0 <= i < |results| => Returned(results[i]))
  }

  lemma {:induction false} CountErrors(results: seq<Option<Error>>, e: Error)
    ensures Count(ProgressOfResults(results), e) == multiset(Errors(results))[e]
  {
    if results != [] {
      var init, last := results[..|results| - 1], results[|results| - 1];
      CountErrors(init, e);
      ErrorsAppend(init, last);
      assert results == init + [last];
      assert ProgressOfResults(results)[..|results| - 1] == ProgressOfResults(init);
    }
  }

  lemma ConservedMeans(errs: seq<Error>, results: seq<Option<Error>>)
    requires Conserved(errs, ProgressOfResults(results))
    ensures multiset(errs) == multiset(Errors(results))
  {
    forall e
      ensures multiset(errs)[e] == multiset(Errors(results))[e]
    {
      CountErrors(results, e);
    }
  }

  /**
   When all goroutines of a group on disjoint objects have returned, in whatever order, the
   errors collected are those that the listed order collects, each as often; and the group
   then fails exactly if it fails in the listed order.
   */
  lemma CollectedErrorsAgree(c: Config, states: seq<State>, labels: seq<Label>, objects: map<string, Tree>,
      leaves: seq<Object>, st: Store, schedule: seq<nat>, faults: Faults)
    returns (states': seq<State>, labels': seq<Label>)
    requires IsRun(c, states, labels) && |states[|labels|].past| < |c.groups|
    requires ValidStore(st) && Parallel.LocalFaults(faults) && ValidObjects(objects, |leaves|)
    requires var jobs := Parallel.JobsOf(c.groups[|states[|labels|].past|].steps, objects);
      && Parallel.Disjoint(jobs, leaves)
      && Linked(c, states[|labels|], Parallel.Begin(jobs, leaves, st))
      && Parallel.Complete(Parallel.Run(jobs, Parallel.Begin(jobs, leaves, st), schedule, faults))
    ensures Continues(c, states, labels, states', labels') && AllReturned(states'[|labels'|].here)
    ensures var steps := c.groups[|states[|labels|].past|].steps;
      var results := RunAll(steps, objects, leaves, st, faults).results;
      var errs := states'[|labels'|].errs;
      multiset(errs) == multiset(Errors(results)) && (errs != [] <==> ParallelFailure(results).Some?)
  {
    var steps := c.groups[|states[|labels|].past|].steps;
    var jobs := Parallel.JobsOf(steps, objects);
    var w := Parallel.Begin(jobs, leaves, st);
    states', labels' := CallsAreRuns(c, states, labels, jobs, w, schedule, faults);
    var s := states'[|labels'|];
    Parallel.Confluence(steps, objects, leaves, st, schedule, faults);
    var results := RunAll(steps, objects, leaves, st, faults).results;
    assert s.here == ProgressOfResults(results);
    ErrorsAreConserved(c, states', labels', |labels'|);
    ConservedMeans(s.errs, results);
    assert |multiset(s.errs)| == |multiset(Errors(results))|;
  }
}
