/**
 A parallel group: one goroutine a step, interleaved at every API call.  When the steps
 work on different objects, every interleaving ends like the steps run in listed order.
 */
module Parallel {
  import opened Wrappers
  import opened Kube
  import opened Client
  import opened Actions
  import opened Rollout
  import opened Walk

  /** A goroutine is at some call of its k-th item, or has returned. */
  datatype Status = Running(k: nat, pc: Pc) | Returned(err: Option<Error>)

  datatype World = World(threads: seq<Status>, leaves: seq<Object>, st: Store)

  function NextStatus(k: nat, pc: Pc): Status {
    if pc == Done(None) then Running(k + 1, Start)
    else if pc.Done? then Returned(pc.err)
    else Running(k, pc)
  }

  /** The item a goroutine is working on, if it is one that reaches the server. */
  predicate Serving(job: Job, s: Status, n: nat) {
    && s.Running? && s.k < |job.items|
    && job.items[s.k].Pointer? && job.items[s.k].ptr < n
    && ActionNamed(job.action).Some?
  }

  /** One step of goroutine `i`: at most one API call. */
  function Step(jobs: seq<Job>, w: World, i: nat, faults: Faults): (w': World)
    requires |w.threads| == |jobs|
    ensures |w'.threads| == |jobs| && |w'.leaves| == |w.leaves|
  {
    if i >= |jobs| || w.threads[i].Returned? then w
    else
      var job, s := jobs[i], w.threads[i];
      if Serving(job, s, |w.leaves|) then
        var ptr := job.items[s.k].ptr;
        var m := NextServed(ActionNamed(job.action).value, s.pc, w.leaves[ptr], w.st, faults);
        World(w.threads[i := NextStatus(s.k, m.pc)], w.leaves[ptr := m.leaf], m.st)
      else
        w.(threads := w.threads[i := Returned(
             if s.k >= |job.items| then job.end
             else if job.items[s.k].Malformed? then Some(MalformedItem)
             else Some(UnknownAction(job.action)))])
  }

  function Run(jobs: seq<Job>, w: World, schedule: seq<nat>, faults: Faults): (w': World)
    requires |w.threads| == |jobs|
    ensures |w'.threads| == |jobs| && |w'.leaves| == |w.leaves|
  {
    if schedule == [] then w
    else Step(jobs, Run(jobs, w, schedule[..|schedule| - 1], faults), schedule[|schedule| - 1], faults)
  }

  ghost predicate Complete(w: World) {
    forall i :: 0 <= i < |w.threads| ==> w.threads[i].Returned?
  }

  function Begin(jobs: seq<Job>, leaves: seq<Object>, st: Store): World {
    World(seq(|jobs|, i => Running(0, Start)), leaves, st)
  }

  // ---- Whom an object belongs to ----

  ghost predicate Uses(job: Job, ptr: nat) {
    exists x :: 0 <= x < |job.items| && job.items[x] == Pointer(ptr)
  }

  ghost predicate Owns(job: Job, leaves: seq<Object>, id: Identity) {
    exists ptr: nat :: ptr < |leaves| && Uses(job, ptr) && leaves[ptr].id == id
  }

  ghost predicate Disjoint(jobs: seq<Job>, leaves: seq<Object>) {
    forall i, j, id :: 0 <= i < |jobs| && 0 <= j < |jobs| && i != j ==>
      !(Owns(jobs[i], leaves, id) && Owns(jobs[j], leaves, id))
  }

  ghost predicate ValidJobs(jobs: seq<Job>, n: nat) {
    forall i :: 0 <= i < |jobs| ==> Within(jobs[i].items, n)
  }

  /** API outcomes depend only on the addressed object. */
  ghost predicate LocalFaults(faults: Faults) {
    forall s, t, verb, id :: View(s, id) == View(t, id) ==> faults(s, verb, id) == faults(t, verb, id)
  }

  // ---- One call, up to resource versions ----

  function ErasePc(pc: Pc): Pc {
    if pc.Have? then Have(Erase(pc.current)) else pc
  }

  function EraseStatus(s: Status): Status {
    if s.Running? then Running(s.k, ErasePc(s.pc)) else s
  }

  /** What a goroutine last saw of its object is still so. */
  predicate UpToDate(pc: Pc, leaf: Object, st: Store) {
    && (pc.Have? ==> leaf.id in st.objects && st.objects[leaf.id] == pc.current)
    && (pc.Missing? ==> leaf.id !in st.objects)
  }

  /** An update changes nothing but the addressed object. */
  lemma NextUpdateIsLocal(current: Object, leaf: Object, st: Store, fault: Fault)
    ensures var m := NextUpdate(current, leaf, st, fault);
      && m.leaf.id == leaf.id && m.pc.Done?
      && SameBut(leaf.id, st, m.st)
      && (ValidStore(st) ==> ValidStore(m.st))
  {
    PreparedIdentity(current, leaf);
    UpdateIsLocal(st, Prepare(current, leaf).updated, fault);
  }

  lemma NextIsLocal(a: Action, pc: Pc, leaf: Object, st: Store, fault: Fault)
    ensures var m := Next(a, pc, leaf, st, fault);
      && m.leaf.id == leaf.id
      && SameBut(leaf.id, st, m.st)
      && (ValidStore(st) ==> ValidStore(m.st))
      && (!pc.Have? && !pc.Missing? ==> UpToDate(m.pc, leaf, m.st))
      && (pc.Have? || pc.Missing? ==> m.pc.Done?)
  {
    if pc.Have? {
      NextUpdateIsLocal(pc.current, leaf, st, fault);
    } else if pc.Missing? {
      CreateIsLocal(st, leaf, fault);
    }
  }

  lemma ServiceUpToVersions(current: Object, leaf: Object, current': Object, leaf': Object)
    requires Erase(current) == Erase(current') && Blur(leaf) == Blur(leaf')
    ensures var p, p' := PrepareService(current, leaf), PrepareService(current', leaf');
      p.err == p'.err && Blur(p.updated) == Blur(p'.updated)
  {
  }

  lemma UpdateUpToVersions(current: Object, leaf: Object, current': Object, leaf': Object)
    requires Erase(current) == Erase(current') && Blur(leaf) == Blur(leaf')
    requires current.resourceVersion.Some? && current'.resourceVersion.Some?
    ensures var p, p' := Prepare(current, leaf), Prepare(current', leaf');
      && p.err == p'.err && Blur(p.updated) == Blur(p'.updated)
  {
    ServiceUpToVersions(current, leaf.(resourceVersion := current.resourceVersion),
      current', leaf'.(resourceVersion := current'.resourceVersion));
  }

  lemma CheckUpToVersions(current: Object, o: Object, current': Object, o': Object)
    requires Erase(current) == Erase(current') && Blur(o) == Blur(o')
    ensures WellFormed(o) == WellFormed(o') && CheckServiceAccount(current, o) == CheckServiceAccount(current', o')
  {
  }

  lemma NextUpdateUpToVersions(current: Object, leaf: Object, st: Store, current': Object, leaf': Object, st': Store, fault: Fault)
    requires ValidStore(st) && ValidStore(st') && Blur(leaf) == Blur(leaf')
    requires UpToDate(Have(current), leaf, st) && UpToDate(Have(current'), leaf', st')
    requires Erase(current) == Erase(current')
    ensures var m, m' := NextUpdate(current, leaf, st, fault), NextUpdate(current', leaf', st', fault);
      m.pc == m'.pc && Blur(m.leaf) == Blur(m'.leaf) && View(m.st, leaf.id) == View(m'.st, leaf.id)
  {
    UpdateUpToVersions(current, leaf, current', leaf');
    CheckUpToVersions(current, Prepare(current, leaf).updated, current', Prepare(current', leaf').updated);
    PreparedIdentity(current, leaf);
    PreparedIdentity(current', leaf');
  }

  lemma NextUpToVersions(a: Action, pc: Pc, leaf: Object, st: Store, pc': Pc, leaf': Object, st': Store, fault: Fault)
    requires ValidStore(st) && ValidStore(st')
    requires ErasePc(pc) == ErasePc(pc') && Blur(leaf) == Blur(leaf')
    requires View(st, leaf.id) == View(st', leaf.id)
    requires UpToDate(pc, leaf, st) && UpToDate(pc', leaf', st')
    ensures var m, m' := Next(a, pc, leaf, st, fault), Next(a, pc', leaf', st', fault);
      && ErasePc(m.pc) == ErasePc(m'.pc)
      && Blur(m.leaf) == Blur(m'.leaf)
      && View(m.st, leaf.id) == View(m'.st, leaf.id)
  {
    if pc.Have? {
      NextUpdateUpToVersions(pc.current, leaf, st, pc'.current, leaf', st', fault);
    }
  }

  // ---- Invariant of every interleaving ----

  ghost predicate Inv(jobs: seq<Job>, leaves: seq<Object>, w: World) {
    && |w.threads| == |jobs| && |w.leaves| == |leaves|
    && ValidStore(w.st)
    && (forall p :: 0 <= p < |leaves| ==> w.leaves[p].id == leaves[p].id)
    && (forall i :: 0 <= i < |jobs| && Serving(jobs[i], w.threads[i], |leaves|) ==>
         UpToDate(w.threads[i].pc, leaves[jobs[i].items[w.threads[i].k].ptr], w.st))
  }

  lemma OwnsItem(job: Job, leaves: seq<Object>, s: Status)
    requires Serving(job, s, |leaves|)
    ensures Uses(job, job.items[s.k].ptr)
    ensures Owns(job, leaves, leaves[job.items[s.k].ptr].id)
  {
  }

  lemma UsedIsOwned(job: Job, leaves: seq<Object>)
    ensures forall p: nat :: p < |leaves| && Uses(job, p) ==> Owns(job, leaves, leaves[p].id)
  {
  }

  lemma InvStep(jobs: seq<Job>, leaves: seq<Object>, w: World, i: nat, faults: Faults)
    requires Disjoint(jobs, leaves) && Inv(jobs, leaves, w)
    ensures Inv(jobs, leaves, Step(jobs, w, i, faults))
  {
    if i < |jobs| && Serving(jobs[i], w.threads[i], |leaves|) {
      var s := w.threads[i];
      var ptr := jobs[i].items[s.k].ptr;
      var a := ActionNamed(jobs[i].action).value;
      var fault := faults(w.st, VerbOf(a, s.pc), w.leaves[ptr].id);
      NextIsLocal(a, s.pc, w.leaves[ptr], w.st, fault);
      OwnsItem(jobs[i], leaves, s);
      forall j | 0 <= j < |jobs| && j != i && Serving(jobs[j], w.threads[j], |leaves|)
        ensures leaves[jobs[j].items[w.threads[j].k].ptr].id != leaves[ptr].id
      {
        OwnsItem(jobs[j], leaves, w.threads[j]);
      }
    }
  }

  lemma {:induction false} InvRun(jobs: seq<Job>, leaves: seq<Object>, w: World, schedule: seq<nat>, faults: Faults)
    requires Disjoint(jobs, leaves) && Inv(jobs, leaves, w)
    ensures Inv(jobs, leaves, Run(jobs, w, schedule, faults))
  {
    if schedule != [] {
      InvRun(jobs, leaves, w, schedule[..|schedule| - 1], faults);
      InvStep(jobs, leaves, Run(jobs, w, schedule[..|schedule| - 1], faults), schedule[|schedule| - 1], faults);
    }
  }

  // ---- What one goroutine sees ----

  /** Two worlds look the same to goroutine `i`, up to resource versions. */
  ghost predicate Agree(jobs: seq<Job>, leaves: seq<Object>, i: nat, v: World, w: World) {
    && i < |jobs| && |v.threads| == |w.threads| == |jobs| && |v.leaves| == |w.leaves| == |leaves|
    && EraseStatus(v.threads[i]) == EraseStatus(w.threads[i])
    && (forall p: nat :: p < |leaves| && Uses(jobs[i], p) ==> Blur(v.leaves[p]) == Blur(w.leaves[p]))
    && (forall id :: Owns(jobs[i], leaves, id) ==> View(v.st, id) == View(w.st, id))
  }

  /** The call itself, made in two worlds that look the same to the goroutine. */
  lemma OwnCall(a: Action, leaves: seq<Object>, ptr: nat, pc: Pc, v: World, pc': Pc, w: World, faults: Faults)
    requires LocalFaults(faults) && ValidStore(v.st) && ValidStore(w.st)
    requires ptr < |leaves| == |v.leaves| == |w.leaves| && v.leaves[ptr].id == w.leaves[ptr].id == leaves[ptr].id
    requires ErasePc(pc) == ErasePc(pc') && Blur(v.leaves[ptr]) == Blur(w.leaves[ptr])
    requires View(v.st, leaves[ptr].id) == View(w.st, leaves[ptr].id)
    requires UpToDate(pc, leaves[ptr], v.st) && UpToDate(pc', leaves[ptr], w.st)
    ensures var m, m' := NextServed(a, pc, v.leaves[ptr], v.st, faults), NextServed(a, pc', w.leaves[ptr], w.st, faults);
      && ErasePc(m.pc) == ErasePc(m'.pc) && Blur(m.leaf) == Blur(m'.leaf)
      && View(m.st, leaves[ptr].id) == View(m'.st, leaves[ptr].id)
      && (forall id :: id != leaves[ptr].id ==> View(m.st, id) == View(v.st, id) && View(m'.st, id) == View(w.st, id))
  {
    var id := leaves[ptr].id;
    assert VerbOf(a, pc) == VerbOf(a, pc');
    var fault := faults(v.st, VerbOf(a, pc), id);
    assert fault == faults(w.st, VerbOf(a, pc'), id);
    NextIsLocal(a, pc, v.leaves[ptr], v.st, fault);
    NextIsLocal(a, pc', w.leaves[ptr], w.st, fault);
    NextUpToVersions(a, pc, v.leaves[ptr], v.st, pc', w.leaves[ptr], w.st, fault);
  }

  lemma OwnStep(jobs: seq<Job>, leaves: seq<Object>, i: nat, v: World, w: World, faults: Faults)
    requires LocalFaults(faults) && Inv(jobs, leaves, v) && Inv(jobs, leaves, w)
    requires Agree(jobs, leaves, i, v, w)
    ensures Agree(jobs, leaves, i, Step(jobs, v, i, faults), Step(jobs, w, i, faults))
  {
    var s, t := v.threads[i], w.threads[i];
    if Serving(jobs[i], s, |leaves|) {
      OwnsItem(jobs[i], leaves, s);
      OwnCall(ActionNamed(jobs[i].action).value, leaves, jobs[i].items[s.k].ptr, s.pc, v, t.pc, w, faults);
    }
  }

  lemma OtherStep(jobs: seq<Job>, leaves: seq<Object>, i: nat, j: nat, w: World, faults: Faults)
    requires Disjoint(jobs, leaves) && Inv(jobs, leaves, w)
    requires i < |jobs| && i != j
    ensures Agree(jobs, leaves, i, Step(jobs, w, j, faults), w)
  {
    if j < |jobs| && Serving(jobs[j], w.threads[j], |leaves|) {
      var s := w.threads[j];
      var ptr := jobs[j].items[s.k].ptr;
      var a := ActionNamed(jobs[j].action).value;
      OwnsItem(jobs[j], leaves, s);
      UsedIsOwned(jobs[i], leaves);
      NextIsLocal(a, s.pc, w.leaves[ptr], w.st, faults(w.st, VerbOf(a, s.pc), w.leaves[ptr].id));
    }
  }

  function Repeat(i: nat, n: nat): seq<nat> {
    seq(n, _ => i)
  }

  function Count(schedule: seq<nat>, i: nat): nat {
    if schedule == [] then 0
    else Count(schedule[..|schedule| - 1], i) + (if schedule[|schedule| - 1] == i then 1 else 0)
  }

  lemma RunRepeat(jobs: seq<Job>, w: World, i: nat, n: nat, faults: Faults)
    requires |w.threads| == |jobs| && n > 0
    ensures Run(jobs, w, Repeat(i, n), faults) == Step(jobs, Run(jobs, w, Repeat(i, n - 1), faults), i, faults)
  {
    assert Repeat(i, n)[..n - 1] == Repeat(i, n - 1);
  }

  /** A goroutine ends up where its own steps alone would have taken it. */
  lemma {:induction false} OnlyOwnStepsMatter(jobs: seq<Job>, leaves: seq<Object>, i: nat, w: World,
      schedule: seq<nat>, faults: Faults)
    requires LocalFaults(faults) && Disjoint(jobs, leaves) && Inv(jobs, leaves, w) && i < |jobs|
    ensures Agree(jobs, leaves, i, Run(jobs, w, schedule, faults), Run(jobs, w, Repeat(i, Count(schedule, i)), faults))
  {
    if schedule != [] {
      var init, last := schedule[..|schedule| - 1], schedule[|schedule| - 1];
      var alone := Repeat(i, Count(init, i));
      OnlyOwnStepsMatter(jobs, leaves, i, w, init, faults);
      InvRun(jobs, leaves, w, init, faults);
      InvRun(jobs, leaves, w, alone, faults);
      if last == i {
        OwnStep(jobs, leaves, i, Run(jobs, w, init, faults), Run(jobs, w, alone, faults), faults);
        RunRepeat(jobs, w, i, Count(schedule, i), faults);
      } else {
        OtherStep(jobs, leaves, i, last, Run(jobs, w, init, faults), faults);
      }
    }
  }

  lemma {:induction false} StaysReturned(jobs: seq<Job>, w: World, i: nat, n: nat, m: nat, faults: Faults)
    requires |w.threads| == |jobs| && i < |jobs| && n <= m
    requires Run(jobs, w, Repeat(i, n), faults).threads[i].Returned?
    ensures Run(jobs, w, Repeat(i, m), faults) == Run(jobs, w, Repeat(i, n), faults)
  {
    if n < m {
      StaysReturned(jobs, w, i, n, m - 1, faults);
      RunRepeat(jobs, w, i, m, faults);
    }
  }

  /** Any two interleavings that let goroutine `i` return look the same to it. */
  lemma CompleteRunsAgree(jobs: seq<Job>, leaves: seq<Object>, i: nat, w: World, p: seq<nat>, q: seq<nat>,
      faults: Faults)
    requires LocalFaults(faults) && Disjoint(jobs, leaves) && Inv(jobs, leaves, w) && i < |jobs|
    requires Run(jobs, w, p, faults).threads[i].Returned?
    requires Run(jobs, w, q, faults).threads[i].Returned?
    ensures Agree(jobs, leaves, i, Run(jobs, w, p, faults), Run(jobs, w, q, faults))
  {
    OnlyOwnStepsMatter(jobs, leaves, i, w, p, faults);
    OnlyOwnStepsMatter(jobs, leaves, i, w, q, faults);
    var n, m := Count(p, i), Count(q, i);
    if n <= m {
      StaysReturned(jobs, w, i, n, m, faults);
    } else {
      StaysReturned(jobs, w, i, m, n, faults);
    }
  }

  /** Objects that no goroutine works on stay as they were. */
  lemma {:induction false} Untouched(jobs: seq<Job>, leaves: seq<Object>, w: World, schedule: seq<nat>, faults: Faults)
    requires Disjoint(jobs, leaves) && Inv(jobs, leaves, w)
    ensures var w' := Run(jobs, w, schedule, faults);
      && (forall id :: (forall i :: 0 <= i < |jobs| ==> !Owns(jobs[i], leaves, id)) ==> View(w'.st, id) == View(w.st, id))
      && (forall p: nat :: p < |leaves| && (forall i :: 0 <= i < |jobs| ==> !Uses(jobs[i], p)) ==> w'.leaves[p] == w.leaves[p])
  {
    if schedule != [] {
      var init, j := schedule[..|schedule| - 1], schedule[|schedule| - 1];
      Untouched(jobs, leaves, w, init, faults);
      InvRun(jobs, leaves, w, init, faults);
      var v := Run(jobs, w, init, faults);
      if j < |jobs| && Serving(jobs[j], v.threads[j], |leaves|) {
        var s := v.threads[j];
        var ptr := jobs[j].items[s.k].ptr;
        var a := ActionNamed(jobs[j].action).value;
        OwnsItem(jobs[j], leaves, s);
        NextIsLocal(a, s.pc, v.leaves[ptr], v.st, faults(v.st, VerbOf(a, s.pc), v.leaves[ptr].id));
      }
    }
  }

  /** Two complete interleavings end with the same outcomes, contents and cluster. */
  lemma AnyTwoCompleteRuns(jobs: seq<Job>, leaves: seq<Object>, w: World, p: seq<nat>, q: seq<nat>, faults: Faults)
    requires LocalFaults(faults) && Disjoint(jobs, leaves) && Inv(jobs, leaves, w)
    requires w.leaves == leaves
    requires Complete(Run(jobs, w, p, faults)) && Complete(Run(jobs, w, q, faults))
    ensures var u, v := Run(jobs, w, p, faults), Run(jobs, w, q, faults);
      && SameCluster(u.st, v.st)
      && u.threads == v.threads
      && (forall x :: 0 <= x < |leaves| ==> Blur(u.leaves[x]) == Blur(v.leaves[x]))
  {
    var u, v := Run(jobs, w, p, faults), Run(jobs, w, q, faults);
    forall i | 0 <= i < |jobs|
      ensures Agree(jobs, leaves, i, u, v) && u.threads[i] == v.threads[i]
    {
      CompleteRunsAgree(jobs, leaves, i, w, p, q, faults);
    }
    Untouched(jobs, leaves, w, p, faults);
    Untouched(jobs, leaves, w, q, faults);
    forall id
      ensures View(u.st, id) == View(v.st, id)
    {
      if i :| 0 <= i < |jobs| && Owns(jobs[i], leaves, id) {
        assert Agree(jobs, leaves, i, u, v);
      }
    }
    forall x: nat | x < |leaves|
      ensures Blur(u.leaves[x]) == Blur(v.leaves[x])
    {
      if i :| 0 <= i < |jobs| && Uses(jobs[i], x) {
        assert Agree(jobs, leaves, i, u, v);
      }
    }
  }

  // ---- The listed order is one of the interleavings ----

  lemma {:induction false} RunConcat(jobs: seq<Job>, w: World, a: seq<nat>, b: seq<nat>, faults: Faults)
    requires |w.threads| == |jobs|
    ensures Run(jobs, w, a + b, faults) == Run(jobs, Run(jobs, w, a, faults), b, faults)
  {
    if b == [] {
      assert a + b == a;
    } else {
      assert (a + b)[..|a + b| - 1] == a + b[..|b| - 1];
      RunConcat(jobs, w, a, b[..|b| - 1], faults);
    }
  }

  lemma RunRepeats(jobs: seq<Job>, w: World, i: nat, n: nat, m: nat, faults: Faults)
    requires |w.threads| == |jobs|
    ensures Run(jobs, w, Repeat(i, n + m), faults) == Run(jobs, Run(jobs, w, Repeat(i, n), faults), Repeat(i, m), faults)
  {
    assert Repeat(i, n + m) == Repeat(i, n) + Repeat(i, m);
    RunConcat(jobs, w, Repeat(i, n), Repeat(i, m), faults);
  }

  /** Undisturbed, a goroutine is done with an item after one step or two. */
  lemma OneItem(jobs: seq<Job>, w: World, i: nat, faults: Faults) returns (n: nat)
    requires |w.threads| == |jobs| && i < |jobs|
    requires w.threads[i].Running? && w.threads[i].pc == Start && Serving(jobs[i], w.threads[i], |w.leaves|)
    ensures var k := w.threads[i].k;
      var o := RunItem(jobs[i].action, jobs[i].items[k], w.leaves, w.st, faults);
      Run(jobs, w, Repeat(i, n), faults) ==
        World(w.threads[i := if o.err.Some? then Returned(o.err) else Running(k + 1, Start)], o.leaves, o.st)
  {
    var ptr := jobs[i].items[w.threads[i].k].ptr;
    var first := NextServed(ActionNamed(jobs[i].action).value, Start, w.leaves[ptr], w.st, faults);
    RunRepeat(jobs, w, i, 1, faults);
    assert Repeat(i, 0) == [];
    n := 1;
    if !first.pc.Done? {
      RunRepeat(jobs, w, i, 2, faults);
      n := 2;
    }
  }

  /** A job from item k on. */
  function RunRest(job: Job, k: nat, leaves: seq<Object>, st: Store, faults: Faults): (o: Outcome)
    requires k <= |job.items| && Within(job.items, |leaves|)
    ensures |o.leaves| == |leaves|
    decreases |job.items| - k
  {
    if k == |job.items| then Outcome(job.end, leaves, st)
    else
      var o := RunItem(job.action, job.items[k], leaves, st, faults);
      if o.err.Some? then o else RunRest(job, k + 1, o.leaves, o.st, faults)
  }

  lemma {:induction false} RestIsJob(job: Job, k: nat, leaves: seq<Object>, st: Store, faults: Faults)
    requires k <= |job.items| && Within(job.items, |leaves|)
    ensures RunRest(job, k, leaves, st, faults) == RunJob(job.(items := job.items[k..]), leaves, st, faults)
    decreases |job.items| - k
  {
    if k < |job.items| {
      assert job.items[k..][0] == job.items[k] && job.items[k..][1..] == job.items[k + 1..];
      var o := RunItem(job.action, job.items[k], leaves, st, faults);
      RestIsJob(job, k + 1, o.leaves, o.st, faults);
    }
  }

  /** `v` is `w` after goroutine `i` has done its job from item k on. */
  ghost predicate JobDone(job: Job, w: World, v: World, i: nat, k: nat, faults: Faults)
    requires i < |w.threads| && k <= |job.items| && Within(job.items, |w.leaves|)
  {
    var o := RunRest(job, k, w.leaves, w.st, faults);
    v == World(w.threads[i := Returned(o.err)], o.leaves, o.st)
  }

  /** A goroutine without an item for the server returns at once. */
  lemma EndsAlone(jobs: seq<Job>, w: World, i: nat, faults: Faults)
    requires |w.threads| == |jobs| && i < |jobs| && ValidJobs(jobs, |w.leaves|)
    requires w.threads[i].Running? && w.threads[i].k <= |jobs[i].items|
    requires !Serving(jobs[i], w.threads[i], |w.leaves|)
    ensures JobDone(jobs[i], w, Run(jobs, w, Repeat(i, 1), faults), i, w.threads[i].k, faults)
  {
    RunRepeat(jobs, w, i, 1, faults);
    assert Repeat(i, 0) == [];
  }

  lemma ItemThenRest(job: Job, w: World, item: World, v: World, i: nat, faults: Faults)
    requires i < |w.threads| && w.threads[i].Running? && w.threads[i].k < |job.items| && Within(job.items, |w.leaves|)
    requires var o := RunItem(job.action, job.items[w.threads[i].k], w.leaves, w.st, faults);
      o.err.None? && item == World(w.threads[i := Running(w.threads[i].k + 1, Start)], o.leaves, o.st)
    requires JobDone(job, item, v, i, w.threads[i].k + 1, faults)
    ensures JobDone(job, w, v, i, w.threads[i].k, faults)
  {
  }

  /** A goroutine that runs alone from item k on does what the sequential code does. */
  lemma {:induction false} Alone(jobs: seq<Job>, w: World, i: nat, faults: Faults) returns (n: nat)
    requires |w.threads| == |jobs| && i < |jobs| && ValidJobs(jobs, |w.leaves|)
    requires w.threads[i].Running? && w.threads[i].pc == Start && w.threads[i].k <= |jobs[i].items|
    ensures JobDone(jobs[i], w, Run(jobs, w, Repeat(i, n), faults), i, w.threads[i].k, faults)
    decreases |jobs[i].items| - w.threads[i].k
  {
    if !Serving(jobs[i], w.threads[i], |w.leaves|) {
      EndsAlone(jobs, w, i, faults);
      n := 1;
    } else {
      n := OneItem(jobs, w, i, faults);
      var item := Run(jobs, w, Repeat(i, n), faults);
      if item.threads[i].Running? {
        var rest := Alone(jobs, item, i, faults);
        RunRepeats(jobs, w, i, n, rest, faults);
        n := n + rest;
        ItemThenRest(jobs[i], w, item, Run(jobs, item, Repeat(i, rest), faults), i, faults);
      }
    }
  }

  function JobsOf(steps: seq<Rollout.Step>, objects: map<string, Tree>): seq<Job> {
    seq(|steps|, i requires 0 <= i < |steps| => JobOf(steps[i], objects))
  }

  lemma JobsAreValid(steps: seq<Rollout.Step>, objects: map<string, Tree>, n: nat)
    requires ValidObjects(objects, n)
    ensures ValidJobs(JobsOf(steps, objects), n)
  {
  }

  /** From `w` to `w'` the steps from number `i` on have run in listed order. */
  ghost predicate ListedFrom(steps: seq<Rollout.Step>, objects: map<string, Tree>, w: World, w': World, i: nat,
      faults: Faults)
    requires |w.threads| == |w'.threads| == |steps| && i <= |steps| && ValidObjects(objects, |w.leaves|)
  {
    var a := RunAll(steps[i..], objects, w.leaves, w.st, faults);
    && w'.leaves == a.leaves && w'.st == a.st
    && w'.threads[..i] == w.threads[..i]
    && (forall j :: i <= j < |steps| ==> w'.threads[j] == Returned(a.results[j - i]))
  }

  lemma OneListed(steps: seq<Rollout.Step>, objects: map<string, Tree>, w: World, w': World, i: nat, faults: Faults)
    requires |w.threads| == |w'.threads| == |steps| && i < |steps| && ValidObjects(objects, |w.leaves|)
    requires var o := RunStep(steps[i], objects, w.leaves, w.st, faults);
      ListedFrom(steps, objects, World(w.threads[i := Returned(o.err)], o.leaves, o.st), w', i + 1, faults)
    ensures ListedFrom(steps, objects, w, w', i, faults)
  {
  }

  /** The schedule that lets the goroutines run one after another, from number `i` on. */
  lemma {:induction false} ListedOrder(steps: seq<Rollout.Step>, objects: map<string, Tree>, w: World, i: nat,
      faults: Faults)
    returns (schedule: seq<nat>)
    requires |w.threads| == |steps| && i <= |steps| && ValidObjects(objects, |w.leaves|)
    requires forall j :: i <= j < |steps| ==> w.threads[j] == Running(0, Start)
    ensures ListedFrom(steps, objects, w, Run(JobsOf(steps, objects), w, schedule, faults), i, faults)
    decreases |steps| - i
  {
    if i == |steps| {
      schedule := [];
    } else {
      var jobs := JobsOf(steps, objects);
      JobsAreValid(steps, objects, |w.leaves|);
      var n := Alone(jobs, w, i, faults);
      RestIsJob(jobs[i], 0, w.leaves, w.st, faults);
      assert jobs[i].items[0..] == jobs[i].items;
      var rest := ListedOrder(steps, objects, Run(jobs, w, Repeat(i, n), faults), i + 1, faults);
      schedule := Repeat(i, n) + rest;
      RunConcat(jobs, w, Repeat(i, n), rest, faults);
      OneListed(steps, objects, w, Run(jobs, w, schedule, faults), i, faults);
    }
  }

  /**
   Confluence: whatever the interleaving of the API calls of a parallel group, once every
   goroutine has returned, every step has the result, every rendered object the content
   and the cluster the objects that the listed order gives, up to resource versions.
   */
  lemma Confluence(steps: seq<Rollout.Step>, objects: map<string, Tree>, leaves: seq<Object>, st: Store,
      schedule: seq<nat>, faults: Faults)
    requires ValidStore(st) && LocalFaults(faults) && ValidObjects(objects, |leaves|)
    requires Disjoint(JobsOf(steps, objects), leaves)
    requires Complete(Run(JobsOf(steps, objects), Begin(JobsOf(steps, objects), leaves, st), schedule, faults))
    ensures var w := Run(JobsOf(steps, objects), Begin(JobsOf(steps, objects), leaves, st), schedule, faults);
      var a := RunAll(steps, objects, leaves, st, faults);
      && SameCluster(w.st, a.st)
      && (forall i :: 0 <= i < |steps| ==> w.threads[i] == Returned(a.results[i]))
      && (forall p :: 0 <= p < |leaves| ==> Blur(w.leaves[p]) == Blur(a.leaves[p]))
  {
    var jobs := JobsOf(steps, objects);
    var w0 := Begin(jobs, leaves, st);
    var listed := ListedOrder(steps, objects, w0, 0, faults);
    assert steps[0..] == steps;
    AnyTwoCompleteRuns(jobs, leaves, w0, schedule, listed, faults);
  }

  /** Some interleaving completes: the statement above is about runs that exist. */
  lemma SomeRunCompletes(steps: seq<Rollout.Step>, objects: map<string, Tree>, leaves: seq<Object>, st: Store,
      faults: Faults)
    returns (schedule: seq<nat>)
    requires ValidObjects(objects, |leaves|)
    ensures Complete(Run(JobsOf(steps, objects), Begin(JobsOf(steps, objects), leaves, st), schedule, faults))
  {
    schedule := ListedOrder(steps, objects, Begin(JobsOf(steps, objects), leaves, st), 0, faults);
    assert steps[0..] == steps;
  }
}
