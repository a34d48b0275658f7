/**
 Runner.Execute as a protocol: which step may start when, what is collected, and what is
 marked finished, over every order in which steps return and whatever they return.
 */
module Protocol {
  import opened Wrappers
  import opened Kube
  import opened Rollout
  import opened Status

  datatype Progress = NotStarted | Running | Returned(err: Option<Error>)

  datatype Ending =
    | Going
    | Succeeded
    | StepEnded(error: Error)
    | StepsEnded(errors: seq<Error>)
    | StatusRefused

  /**
   `past` holds the steps of the groups that the loop has left behind and `here` those of
   its current group; `next` is the step of its inner loop; `errs` is what the goroutines of
   the current group have appended; `log` lists the groups whose steps are done, in order
   of completion; `accepted` counts the Finished writes that succeeded, if there is feedback.
   */
  datatype State = State(
    past: seq<seq<Progress>>,
    here: seq<Progress>,
    next: nat,
    errs: seq<Error>,
    conditions: seq<Condition>,
    log: seq<nat>,
    accepted: nat,
    ending: Ending)

  datatype Label =
    | Start
    | Return(k: nat, err: Option<Error>)
    | Finish(accepted: bool, clock: Clock)
    | Conclude

  /** The rollout, and the old status when there is feedback. */
  datatype Config = Config(groups: seq<Group>, feedback: bool, was: Option<seq<Condition>>, clock: Clock)

  function Merged(c: Config): seq<Condition> {
    Merge(c.was, GroupNames(c.groups), c.clock)
  }

  function NoneStarted(c: Config, i: nat): (ps: seq<Progress>)
    ensures |ps| == (if i < |c.groups| then |c.groups[i].steps| else 0)
    ensures forall k :: 0 <= k < |ps| ==> ps[k] == NotStarted
  {
    seq(if i < |c.groups| then |c.groups[i].steps| else 0, _ => NotStarted)
  }

  /** How far the steps of group `i` are. */
  function ProgressOf(c: Config, s: State, i: nat): seq<Progress> {
    if i < |s.past| then s.past[i] else if i == |s.past| then s.here else NoneStarted(c, i)
  }

  /** The state after an accepted Initialize. */
  function Initial(c: Config): State {
    State([], NoneStarted(c, 0), 0, [], Merged(c), [], 0, Going)
  }

  ghost predicate AllReturned(ps: seq<Progress>) {
    forall k :: 0 <= k < |ps| ==> ps[k].Returned?
  }

  ghost predicate Enabled(c: Config, s: State, l: Label) {
    && s.ending.Going?
    && match l
       case Start => |s.past| < |c.groups| && s.next < |s.here| && s.here[s.next].NotStarted?
       case Return(k, _) => |s.past| < |c.groups| && k < |s.here| == |c.groups[|s.past|].steps| && s.here[k].Running?
       case Finish(_, _) => |s.past| < |c.groups| && s.next == |s.here| && AllReturned(s.here)
       case Conclude => |s.past| == |c.groups|
  }

  function After(c: Config, s: State, l: Label): State
    requires Enabled(c, s, l)
  {
    match l
    case Start =>
      s.(here := s.here[s.next := Running], next := if c.groups[|s.past|].parallel then s.next + 1 else s.next)
    case Return(k, err) =>
      var t := s.(here := s.here[k := Returned(err)]);
      if c.groups[|s.past|].parallel then t.(errs := if err.Some? then s.errs + [err.value] else s.errs)
      else if err.None? || c.groups[|s.past|].steps[k].continueOnError then t.(next := s.next + 1)
      else t.(ending := StepEnded(err.value))
    case Finish(accepted, clock) =>
      if s.errs != [] then s.(ending := StepsEnded(s.errs))
      else
        var t := s.(log := s.log + [|s.past|],
                    conditions := if c.feedback then SetAll(s.conditions, c.groups[|s.past|].name, FINISHED, clock)
                                  else s.conditions);
        if c.feedback && !accepted then t.(ending := StatusRefused)
        else t.(past := s.past + [s.here], here := NoneStarted(c, |s.past| + 1), next := 0,
                accepted := if c.feedback then s.accepted + 1 else s.accepted)
    case Conclude => s.(ending := Succeeded)
  }

  /** A run: each label is enabled where it is taken. */
  ghost predicate IsRun(c: Config, states: seq<State>, labels: seq<Label>) {
    && |states| == |labels| + 1
    && states[0] == Initial(c)
    && forall i :: 0 <= i < |labels| ==>
         Enabled(c, states[i], labels[i]) && states[i + 1] == After(c, states[i], labels[i])
  }

  // ---- The invariant ----

  /** A group that the loop has left behind without failing. */
  ghost predicate Passed(g: Group, ps: seq<Progress>) {
    && |ps| == |g.steps|
    && forall k :: 0 <= k < |ps| ==>
         ps[k].Returned? && (ps[k].err.None? || (!g.parallel && g.steps[k].continueOnError))
  }

  ghost predicate Ongoing(g: Group, ps: seq<Progress>, next: nat, going: bool) {
    && |ps| == |g.steps| && next <= |ps|
    && (forall k :: next < k < |ps| ==> ps[k].NotStarted?)
    && (g.parallel ==>
         && (next < |ps| ==> ps[next].NotStarted?)
         && forall k :: 0 <= k < next ==> !ps[k].NotStarted?)
    && (!g.parallel ==>
         && (going && next < |ps| ==> !ps[next].Returned?)
         && forall k :: 0 <= k < next ==> ps[k].Returned? && (ps[k].err.None? || g.steps[k].continueOnError))
  }

  /** How many steps have returned error `e`. */
  function Count(ps: seq<Progress>, e: Error): nat {
    if ps == [] then 0
    else Count(ps[..|ps| - 1], e) + if ps[|ps| - 1] == Returned(Some(e)) then 1 else 0
  }

  /** The collection has one entry for each step that has returned an error. */
  ghost predicate Conserved(errs: seq<Error>, ps: seq<Progress>) {
    forall e :: multiset(errs)[e] == Count(ps, e)
  }

  ghost predicate InvSteps(c: Config, s: State) {
    && |s.past| <= |c.groups|
    && (forall i :: 0 <= i < |s.past| ==> Passed(c.groups[i], s.past[i]))
    && (if |s.past| == |c.groups| then s.errs == [] && s.here == []
        else
          && Ongoing(c.groups[|s.past|], s.here, s.next, s.ending.Going?)
          && (if c.groups[|s.past|].parallel then Conserved(s.errs, s.here) else s.errs == [])
          && (s.ending.StatusRefused? ==> Passed(c.groups[|s.past|], s.here)))
  }

  /** A finished mark when `done` groups are done: carried over, or of a name whose group is done. */
  ghost predicate Marked(c: Config, done: nat, i: nat)
    requires i < |c.groups|
  {
    || Merged(c)[i].status == FINISHED
    || exists j: nat :: j < done && j < |c.groups| && c.groups[j].name == c.groups[i].name
  }

  ghost predicate InvMarks(c: Config, s: State) {
    && s.accepted == (if c.feedback then |s.past| else 0)
    && |s.log| == |s.past| + (if s.ending.StatusRefused? then 1 else 0) <= |c.groups|
    && (forall j :: 0 <= j < |s.log| ==> s.log[j] == j)
    && |s.conditions| == |c.groups|
    && (forall i :: 0 <= i < |c.groups| ==> s.conditions[i].name == c.groups[i].name)
    && (c.feedback ==> forall i: nat :: i < |c.groups| ==> (s.conditions[i].status == FINISHED <==> Marked(c, |s.log|, i)))
  }

  ghost predicate Inv(c: Config, s: State) {
    InvSteps(c, s) && InvMarks(c, s)
  }

  lemma {:induction false} CountUpdate(ps: seq<Progress>, k: nat, p: Progress, e: Error)
    requires k < |ps| && !ps[k].Returned?
    ensures Count(ps[k := p], e) == Count(ps, e) + if p == Returned(Some(e)) then 1 else 0
  {
    var qs := ps[k := p];
    if k == |ps| - 1 {
      assert qs[..|qs| - 1] == ps[..|ps| - 1];
    } else {
      assert qs[..|qs| - 1] == ps[..|ps| - 1][k := p];
      CountUpdate(ps[..|ps| - 1], k, p, e);
    }
  }

  lemma {:induction false} Counted(ps: seq<Progress>, e: Error)
    ensures Count(ps, e) > 0 <==> exists k :: 0 <= k < |ps| && ps[k] == Returned(Some(e))
  {
    if ps != [] {
      var init := ps[..|ps| - 1];
      Counted(init, e);
      assert forall k :: 0 <= k < |init| ==> init[k] == ps[k];
    }
  }

  lemma ConservedStep(errs: seq<Error>, ps: seq<Progress>, k: nat, p: Progress)
    requires k < |ps| && !ps[k].Returned? && Conserved(errs, ps)
    ensures Conserved(if p.Returned? && p.err.Some? then errs + [p.err.value] else errs, ps[k := p])
  {
    forall e
      ensures Count(ps[k := p], e) == Count(ps, e) + if p == Returned(Some(e)) then 1 else 0
    {
      CountUpdate(ps, k, p, e);
    }
  }

  /** A collection that conserves errors is empty exactly if no step has failed. */
  lemma NothingCollected(errs: seq<Error>, ps: seq<Progress>)
    requires Conserved(errs, ps)
    ensures errs == [] <==> forall k :: 0 <= k < |ps| && ps[k].Returned? ==> ps[k].err.None?
  {
    if errs != [] {
      Counted(ps, errs[0]);
      assert multiset(errs)[errs[0]] > 0;
    }
    forall k | 0 <= k < |ps| && ps[k].Returned? && ps[k].err.Some?
      ensures errs != []
    {
      Counted(ps, ps[k].err.value);
      assert multiset(errs)[ps[k].err.value] > 0;
    }
  }

  lemma NoneStartedConserves(c: Config, i: nat)
    ensures Conserved([], NoneStarted(c, i))
  {
    forall e
      ensures Count(NoneStarted(c, i), e) == 0
    {
      Counted(NoneStarted(c, i), e);
    }
  }

  lemma InvInitial(c: Config)
    ensures Inv(c, Initial(c))
  {
    forall i: nat | i < |c.groups|
      ensures Merged(c)[i].name == c.groups[i].name
    {
      MergedName(c.was, GroupNames(c.groups), c.clock, i);
    }
    NoneStartedConserves(c, 0);
  }

  lemma StartKeepsSteps(c: Config, s: State)
    requires InvSteps(c, s) && Enabled(c, s, Start)
    ensures InvSteps(c, After(c, s, Start))
  {
    if c.groups[|s.past|].parallel {
      ConservedStep(s.errs, s.here, s.next, Running);
    }
  }

  lemma ReturnKeepsSteps(c: Config, s: State, k: nat, err: Option<Error>)
    requires InvSteps(c, s) && Enabled(c, s, Return(k, err))
    ensures InvSteps(c, After(c, s, Return(k, err)))
  {
    if c.groups[|s.past|].parallel {
      ConservedStep(s.errs, s.here, k, Returned(err));
    }
  }

  /** Starting and returning steps changes no mark. */
  lemma MarksStay(c: Config, s: State, l: Label)
    requires InvMarks(c, s) && Enabled(c, s, l) && !l.Finish?
    ensures InvMarks(c, After(c, s, l))
  {
  }

  lemma GroupPasses(g: Group, ps: seq<Progress>, errs: seq<Error>, going: bool)
    requires Ongoing(g, ps, |ps|, going) && AllReturned(ps)
    requires g.parallel ==> Conserved(errs, ps) && errs == []
    ensures Passed(g, ps)
  {
    if g.parallel {
      NothingCollected(errs, ps);
    }
  }

  /** The loop moves on to the next group. */
  lemma AdvanceKeepsSteps(c: Config, s: State, t: State)
    requires InvSteps(c, s) && s.ending.Going? && |s.past| < |c.groups| && Passed(c.groups[|s.past|], s.here)
    requires t.past == s.past + [s.here] && t.here == NoneStarted(c, |s.past| + 1) && t.next == 0 && t.errs == []
    requires t.ending.Going?
    ensures InvSteps(c, t)
  {
    NoneStartedConserves(c, |s.past| + 1);
    forall i | 0 <= i < |t.past|
      ensures Passed(c.groups[i], t.past[i])
    {
      assert t.past[i] == if i < |s.past| then s.past[i] else s.here;
    }
  }

  lemma FinishKeepsSteps(c: Config, s: State, accepted: bool, clock: Clock)
    requires Inv(c, s) && Enabled(c, s, Finish(accepted, clock))
    ensures InvSteps(c, After(c, s, Finish(accepted, clock)))
  {
    if s.errs == [] {
      GroupPasses(c.groups[|s.past|], s.here, s.errs, true);
      if !c.feedback || accepted {
        AdvanceKeepsSteps(c, s, After(c, s, Finish(accepted, clock)));
      }
    }
  }

  /** One more group done marks the conditions of its name, and no others. */
  lemma MarkedMore(c: Config, n: nat, i: nat)
    requires n < |c.groups| && i < |c.groups|
    ensures Marked(c, n + 1, i) <==> Marked(c, n, i) || c.groups[i].name == c.groups[n].name
  {
  }

  lemma FinishKeepsMarks(c: Config, s: State, accepted: bool, clock: Clock)
    requires InvMarks(c, s) && Enabled(c, s, Finish(accepted, clock))
    ensures InvMarks(c, After(c, s, Finish(accepted, clock)))
  {
    var n := |s.past|;
    if s.errs == [] {
      var t := After(c, s, Finish(accepted, clock));
      assert t.log == s.log + [n];
      forall i: nat | c.feedback && i < |c.groups|
        ensures t.conditions[i].status == FINISHED <==> Marked(c, n + 1, i)
      {
        MarkedMore(c, n, i);
        assert t.conditions[i] == SetOne(s.conditions[i], c.groups[n].name, FINISHED, clock(i));
      }
    }
  }

  lemma InvStep(c: Config, s: State, l: Label)
    requires Inv(c, s) && Enabled(c, s, l)
    ensures Inv(c, After(c, s, l))
  {
    match l
    case Start =>
      StartKeepsSteps(c, s);
      MarksStay(c, s, l);
    case Return(k, err) =>
      ReturnKeepsSteps(c, s, k, err);
      MarksStay(c, s, l);
    case Finish(accepted, clock) =>
      FinishKeepsSteps(c, s, accepted, clock);
      FinishKeepsMarks(c, s, accepted, clock);
    case Conclude =>
  }

  lemma {:induction false} InvRun(c: Config, states: seq<State>, labels: seq<Label>, i: nat)
    requires IsRun(c, states, labels) && i < |states|
    ensures Inv(c, states[i])
  {
    if i == 0 {
      InvInitial(c);
    } else {
      InvRun(c, states, labels, i - 1);
      InvStep(c, states[i - 1], labels[i - 1]);
    }
  }

  // ---- What every run keeps ----

  /**
   The barrier: once a step of a group has started, every earlier group has returned from
   all its steps, without an error if it is parallel, with no error but those of steps
   that may be ignored if it is sequential, and its Finished write was accepted.
   */
  lemma Barrier(c: Config, states: seq<State>, labels: seq<Label>, n: nat, i: nat, j: nat)
    requires IsRun(c, states, labels) && n < |states|
    requires i < j < |c.groups|
    requires exists k :: 0 <= k < |ProgressOf(c, states[n], j)| && !ProgressOf(c, states[n], j)[k].NotStarted?
    ensures var s := states[n];
      var ps := ProgressOf(c, s, i);
      && (c.feedback ==> s.accepted > i)
      && |ps| == |c.groups[i].steps|
      && forall x :: 0 <= x < |ps| ==>
           && ps[x].Returned?
           && (c.groups[i].parallel || !c.groups[i].steps[x].continueOnError ==> ps[x].err.None?)
  {
    InvRun(c, states, labels, n);
  }

  /** Finished marks agree with what has happened, and groups are done in order. */
  lemma FinishedMarksAgree(c: Config, states: seq<State>, labels: seq<Label>, n: nat)
    requires IsRun(c, states, labels) && n < |states| && c.feedback
    ensures var s := states[n];
      && |s.log| <= |c.groups| == |s.conditions|
      && (forall j :: 0 <= j < |s.log| ==> s.log[j] == j && Passed(c.groups[j], ProgressOf(c, s, j)))
      && (forall i: nat :: i < |c.groups| ==>
           (s.conditions[i].status == FINISHED <==>
             || Merged(c)[i].status == FINISHED
             || exists j: nat :: j < |s.log| && c.groups[s.log[j]].name == c.groups[i].name))
  {
    InvRun(c, states, labels, n);
    var s := states[n];
    forall i: nat | i < |c.groups|
      ensures Marked(c, |s.log|, i) <==>
        || Merged(c)[i].status == FINISHED
        || exists j: nat :: j < |s.log| && c.groups[s.log[j]].name == c.groups[i].name
    {
      if j: nat :| j < |s.log| && j < |c.groups| && c.groups[j].name == c.groups[i].name {
        assert c.groups[s.log[j]].name == c.groups[i].name;
      }
    }
  }

  /**
   Errors of a parallel group are conserved: at every point the collection holds one entry
   for each step that has returned an error, and when the group is over the rollout ends
   there, with that collection, exactly if some step failed.
   */
  lemma ErrorsAreConserved(c: Config, states: seq<State>, labels: seq<Label>, n: nat)
    requires IsRun(c, states, labels) && n < |states|
    requires |states[n].past| < |c.groups| && c.groups[|states[n].past|].parallel
    ensures var s := states[n];
      && Conserved(s.errs, s.here)
      && (n < |labels| && labels[n].Finish? ==>
           var t := states[n + 1];
           && AllReturned(s.here)
           && (t.ending.StepsEnded? <==> exists k :: 0 <= k < |s.here| && s.here[k].err.Some?)
           && (t.ending.StepsEnded? ==> Conserved(t.ending.errors, s.here)))
  {
    InvRun(c, states, labels, n);
    var s := states[n];
    NothingCollected(s.errs, s.here);
    if n < |labels| && labels[n].Finish? {
      assert Enabled(c, s, labels[n]);
    }
  }
}
