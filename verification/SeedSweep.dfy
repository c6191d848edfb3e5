/** The parallel sweep over build seeds: at most `jobs` builds at a time, one result for each. */
module SeedSweep {

  datatype Result = Result(seed: int, ok: bool)

  /** A finished build: which submission it was, and whether it succeeded. */
  datatype Completion = Completion(id: nat, ok: bool)

  /** `pending` holds the submissions still running, by their place in the list of seeds. */
  datatype State = State(next: nat, pending: seq<nat>, results: seq<Result>, stopping: bool)

  // ---------------------------------------------------------------- the steps of the loop

  function SubmitNext(seeds: seq<int>, s: State): State {
    if s.next < |seeds| then s.(next := s.next + 1, pending := s.pending + [s.next]) else s
  }

  function Without(p: seq<nat>, id: nat): seq<nat> {
    if p == [] then [] else if p[0] == id then p[1..] else [p[0]] + Without(p[1..], id)
  }

  /** A result among those before it, which are in seed order; behind its equals, as a stable sort leaves it. */
  function Insert(rs: seq<Result>, r: Result): seq<Result> {
    if rs == [] || rs[|rs| - 1].seed <= r.seed then rs + [r] else Insert(rs[..|rs| - 1], r) + [rs[|rs| - 1]]
  }

  function Collect(seeds: seq<int>, stopOnFail: bool, s: State, c: Completion): State
    requires c.id < |seeds|
  {
    var t := State(s.next, Without(s.pending, c.id), Insert(s.results, Result(seeds[c.id], c.ok)),
                   s.stopping || (!c.ok && stopOnFail));
    if t.stopping then t else SubmitNext(seeds, t)
  }

  // ---------------------------------------------------------------- what the loop keeps

  /** The numbers below `n`, once each. */
  function UpTo(n: nat): multiset<nat> {
    if n == 0 then multiset{} else UpTo(n - 1) + multiset{n - 1}
  }

  function Ids(log: seq<Completion>): multiset<nat> {
    if log == [] then multiset{} else Ids(log[..|log| - 1]) + multiset{log[|log| - 1].id}
  }

  /** The results of the completions so far. */
  function Reported(seeds: seq<int>, log: seq<Completion>): multiset<Result>
    requires forall k | 0 <= k < |log| :: log[k].id < |seeds|
  {
    if log == [] then multiset{}
    else Reported(seeds, log[..|log| - 1]) + multiset{Result(seeds[log[|log| - 1].id], log[|log| - 1].ok)}
  }

  predicate Sorted(rs: seq<Result>) {
    forall i, j | 0 <= i <= j < |rs| :: rs[i].seed <= rs[j].seed
  }

  predicate KnownIds(seeds: seq<int>, log: seq<Completion>) {
    forall k | 0 <= k < |log| :: log[k].id < |seeds|
  }

  /** Every submission so far is either still running or has completed, once. */
  predicate Accounted(s: State, log: seq<Completion>) {
    Ids(log) + multiset(s.pending) == UpTo(s.next) && |log| + |s.pending| == s.next
  }

  /** The results are those of the completions, in seed order. */
  predicate Recorded(seeds: seq<int>, s: State, log: seq<Completion>) {
    KnownIds(seeds, log) && Sorted(s.results) && multiset(s.results) == Reported(seeds, log)
  }

  predicate Failed(log: seq<Completion>) {
    exists k | 0 <= k < |log| :: !log[k].ok
  }

  /** The place of the first failure among the completions; their number if there is none. */
  function FirstFailure(log: seq<Completion>): (f: nat)
    ensures f <= |log| && (f < |log| ==> !log[f].ok) && forall k | 0 <= k < f :: log[k].ok
  {
    if log == [] then 0
    else
      var f := FirstFailure(log[..|log| - 1]);
      if f < |log| - 1 || !log[|log| - 1].ok then f else |log|
  }

  /** How many seeds have been submitted: the first `jobs`, and one for each completion processed before the failure
      that stops the sweep. */
  function Submitted(seeds: seq<int>, jobs: nat, stopOnFail: bool, log: seq<Completion>): nat {
    var n := jobs + (if stopOnFail then FirstFailure(log) else |log|);
    if n < |seeds| then n else |seeds|
  }

  /** As many builds run as may, until the seeds run out or a failure stops the sweep. */
  predicate Busy(seeds: seq<int>, jobs: nat, s: State) {
    s.next <= |seeds| && |s.pending| <= jobs && (!s.stopping ==> |s.pending| == jobs || s.next == |seeds|)
  }

  /** `log` is the completions processed so far, in any order they came. */
  predicate Sweeping(seeds: seq<int>, jobs: nat, stopOnFail: bool, s: State, log: seq<Completion>) {
    && Accounted(s, log) && Recorded(seeds, s, log) && Busy(seeds, jobs, s)
    && (s.stopping <==> stopOnFail && Failed(log))
    && s.next == Submitted(seeds, jobs, stopOnFail, log)
  }

  lemma {:induction false} WithoutRemoves(p: seq<nat>, id: nat)
    requires id in p
    ensures multiset(Without(p, id)) == multiset(p) - multiset{id} && |Without(p, id)| == |p| - 1
  {
    assert p == [p[0]] + p[1..];
    if p[0] != id { WithoutRemoves(p[1..], id); }
  }

  predicate Below(rs: seq<Result>, seed: int) {
    forall k | 0 <= k < |rs| :: rs[k].seed <= seed
  }

  lemma SortedEnd(f: seq<Result>, l: Result)
    ensures Sorted(f + [l]) <==> Sorted(f) && Below(f, l.seed)
  {
    var rs := f + [l];
    if Sorted(rs) {
      assert forall k | 0 <= k < |f| :: f[k] == rs[k] && rs[k].seed <= rs[|f|].seed;
      assert forall i, j | 0 <= i <= j < |f| :: f[i] == rs[i] && f[j] == rs[j];
    }
  }

  lemma {:induction false} InsertSorts(rs: seq<Result>, r: Result, top: int)
    requires Sorted(rs)
    ensures Sorted(Insert(rs, r)) && multiset(Insert(rs, r)) == multiset(rs) + multiset{r}
    ensures Below(rs, top) && r.seed <= top ==> Below(Insert(rs, r), top)
  {
    if rs == [] || rs[|rs| - 1].seed <= r.seed {
      if rs != [] {
        assert rs == rs[..|rs| - 1] + [rs[|rs| - 1]];
        SortedEnd(rs[..|rs| - 1], rs[|rs| - 1]);
      }
      SortedEnd(rs, r);
    } else {
      var f, l := rs[..|rs| - 1], rs[|rs| - 1];
      assert rs == f + [l];
      SortedEnd(f, l);
      InsertSorts(f, r, l.seed);
      InsertSorts(f, r, top);
      hide Sorted;
      SortedEnd(Insert(f, r), l);
    }
  }

  lemma {:induction false} UpToHas(n: nat, id: nat)
    ensures id in UpTo(n) <==> id < n
  {
    if n > 0 { UpToHas(n - 1, id); }
  }

  // ---------------------------------------------------------------- one step

  lemma LogGrows(seeds: seq<int>, log: seq<Completion>, c: Completion)
    requires KnownIds(seeds, log) && c.id < |seeds|
    ensures KnownIds(seeds, log + [c])
    ensures Ids(log + [c]) == Ids(log) + multiset{c.id}
    ensures Reported(seeds, log + [c]) == Reported(seeds, log) + multiset{Result(seeds[c.id], c.ok)}
  {
    assert (log + [c])[..|log|] == log;
  }

  lemma FailsGrow(log: seq<Completion>, c: Completion)
    ensures Failed(log + [c]) <==> Failed(log) || !c.ok
  {
    var more := log + [c];
    if k: int :| 0 <= k < |log| && !log[k].ok { assert !more[k].ok; }
    if !c.ok { assert !more[|log|].ok; }
  }

  lemma FirstFailureGrows(log: seq<Completion>, c: Completion)
    ensures FirstFailure(log) < |log| <==> Failed(log)
    ensures FirstFailure(log + [c]) == if Failed(log) || !c.ok then FirstFailure(log) else |log| + 1
  {
    assert (log + [c])[..|log|] == log;
  }

  /** A completion starts one more build exactly when no failure stops the sweep. */
  lemma SubmittedGrows(seeds: seq<int>, jobs: nat, stopOnFail: bool, log: seq<Completion>, c: Completion)
    ensures var n := Submitted(seeds, jobs, stopOnFail, log);
            Submitted(seeds, jobs, stopOnFail, log + [c]) ==
              if (stopOnFail && (Failed(log) || !c.ok)) || n == |seeds| then n else n + 1
  {
    FirstFailureGrows(log, c);
    hide FirstFailure, Failed;
  }

  /** A build leaves those running and joins the completed. */
  lemma Finishes(s: State, t: State, log: seq<Completion>, c: Completion)
    requires Accounted(s, log) && c.id in s.pending && t.next == s.next && t.pending == Without(s.pending, c.id)
    ensures Accounted(t, log + [c]) && |t.pending| == |s.pending| - 1
  {
    WithoutRemoves(s.pending, c.id);
    assert (log + [c])[..|log|] == log;
    assert c.id in multiset(s.pending);
    hide Without, UpTo;
  }

  /** The next seed, if there is one, joins those running. */
  lemma Submits(seeds: seq<int>, s: State, log: seq<Completion>)
    requires Accounted(s, log)
    ensures Accounted(SubmitNext(seeds, s), log)
  {
    hide Ids;
  }

  lemma Records(seeds: seq<int>, s: State, t: State, log: seq<Completion>, c: Completion)
    requires Recorded(seeds, s, log) && c.id < |seeds| && t.results == Insert(s.results, Result(seeds[c.id], c.ok))
    ensures Recorded(seeds, t, log + [c])
  {
    InsertSorts(s.results, Result(seeds[c.id], c.ok), 0);
    LogGrows(seeds, log, c);
    hide Insert, Sorted, Reported, KnownIds;
  }

  lemma PendingKnown(seeds: seq<int>, s: State, log: seq<Completion>, id: nat)
    requires Accounted(s, log) && s.next <= |seeds| && id in s.pending
    ensures id < |seeds|
  {
    assert id in multiset(s.pending);
    UpToHas(s.next, id);
  }

  /** A completion of a pending build keeps everything: nothing is lost, repeated, reordered or started too early. */
  lemma CollectKeeps(seeds: seq<int>, jobs: nat, stopOnFail: bool, s: State, log: seq<Completion>, c: Completion)
    requires Sweeping(seeds, jobs, stopOnFail, s, log) && c.id in s.pending
    ensures c.id < |seeds|
    ensures Sweeping(seeds, jobs, stopOnFail, Collect(seeds, stopOnFail, s, c), log + [c])
  {
    PendingKnown(seeds, s, log, c.id);
    var t := State(s.next, Without(s.pending, c.id), Insert(s.results, Result(seeds[c.id], c.ok)),
                   s.stopping || (!c.ok && stopOnFail));
    Finishes(s, t, log, c);
    Submits(seeds, t, log + [c]);
    Records(seeds, s, t, log, c);
    Records(seeds, s, SubmitNext(seeds, t), log, c);
    FailsGrow(log, c);
    SubmittedGrows(seeds, jobs, stopOnFail, log, c);
    hide Insert, Without, Accounted, Recorded, Failed, Submitted;
  }

  // ---------------------------------------------------------------- whole sweeps

  /** The state once `n` builds have been submitted and none has completed. */
  function Filled(seeds: seq<int>, n: nat): State {
    if n == 0 then State(0, [], [], false) else SubmitNext(seeds, Filled(seeds, n - 1))
  }

  /** The state after the first `k` completions of `log`. */
  function After(seeds: seq<int>, stopOnFail: bool, s: State, log: seq<Completion>, k: nat): State
    requires KnownIds(seeds, log) && k <= |log|
  {
    if k == 0 then s else Collect(seeds, stopOnFail, After(seeds, stopOnFail, s, log, k - 1), log[k - 1])
  }

  lemma StopsSubmitting(seeds: seq<int>, s: State, stopOnFail: bool, c: Completion)
    requires c.id < |seeds|
    ensures var t := Collect(seeds, stopOnFail, s, c);
            (t.stopping <==> s.stopping || (!c.ok && stopOnFail)) && (t.stopping ==> t.next == s.next)
  {
    hide Insert, Without;
  }

  lemma AfterStep(seeds: seq<int>, stopOnFail: bool, s: State, log: seq<Completion>, k: nat)
    requires KnownIds(seeds, log) && 0 < k <= |log|
    ensures log[k - 1].id < |seeds|
    ensures After(seeds, stopOnFail, s, log, k) == Collect(seeds, stopOnFail, After(seeds, stopOnFail, s, log, k - 1), log[k - 1])
  {
    hide Collect;
  }

  lemma {:induction false} StaysStopped(seeds: seq<int>, stopOnFail: bool, s: State, log: seq<Completion>, f: nat, m: nat)
    requires KnownIds(seeds, log) && f < m <= |log| && stopOnFail && !log[f].ok
    ensures var t := After(seeds, stopOnFail, s, log, m);
            t.stopping && t.next == After(seeds, stopOnFail, s, log, f).next
    decreases m
  {
    hide *;
    AfterStep(seeds, stopOnFail, s, log, m);
    StopsSubmitting(seeds, After(seeds, stopOnFail, s, log, m - 1), stopOnFail, log[m - 1]);
    if f < m - 1 { StaysStopped(seeds, stopOnFail, s, log, f, m - 1); }
  }

  /** Once a failure has been processed under stop-on-fail, nothing is submitted for the rest of the sweep. */
  lemma NothingAfterFailure(seeds: seq<int>, stopOnFail: bool, s: State, log: seq<Completion>, k: nat, m: nat)
    requires KnownIds(seeds, log) && k <= m <= |log| && stopOnFail && FirstFailure(log) < k
    ensures After(seeds, stopOnFail, s, log, m).next == After(seeds, stopOnFail, s, log, k).next
            == After(seeds, stopOnFail, s, log, FirstFailure(log)).next
  {
    hide Collect, After, FirstFailure;
    StaysStopped(seeds, stopOnFail, s, log, FirstFailure(log), k);
    StaysStopped(seeds, stopOnFail, s, log, FirstFailure(log), m);
  }

  lemma {:induction false} SameAfter(seeds: seq<int>, stopOnFail: bool, s: State, log: seq<Completion>, more: seq<Completion>, k: nat)
    requires KnownIds(seeds, log + more) && KnownIds(seeds, log) && k <= |log|
    ensures After(seeds, stopOnFail, s, log + more, k) == After(seeds, stopOnFail, s, log, k)
  {
    hide Collect;
    if k > 0 { SameAfter(seeds, stopOnFail, s, log, more, k - 1); }
  }

  lemma AfterOne(seeds: seq<int>, stopOnFail: bool, s: State, log: seq<Completion>, c: Completion)
    requires KnownIds(seeds, log) && c.id < |seeds|
    ensures KnownIds(seeds, log + [c])
    ensures After(seeds, stopOnFail, s, log + [c], |log| + 1)
            == Collect(seeds, stopOnFail, After(seeds, stopOnFail, s, log, |log|), c)
  {
    SameAfter(seeds, stopOnFail, s, log, [c], |log|);
    hide Collect;
  }

  // ---------------------------------------------------------------- the loop

  /** What waiting may return: some of the pending builds, each once. */
  predicate Batch(s: State, done: seq<Completion>) {
    && done != []
    && (forall k | 0 <= k < |done| :: done[k].id in s.pending)
    && (forall j, k | 0 <= j < k < |done| :: done[j].id != done[k].id)
  }

  lemma {:induction false} WithoutOthers(p: seq<nat>, id: nat, other: nat)
    requires other in p && other != id
    ensures other in Without(p, id)
  {
    if p != [] && p[0] != id {
      if p[0] != other { WithoutOthers(p[1..], id, other); }
    } else if p != [] {
      assert p == [p[0]] + p[1..];
    }
  }

  lemma OthersStay(seeds: seq<int>, stopOnFail: bool, s: State, c: Completion, other: nat)
    requires c.id < |seeds| && other in s.pending && other != c.id
    ensures other in Collect(seeds, stopOnFail, s, c).pending
  {
    WithoutOthers(s.pending, c.id, other);
    hide Without, Insert;
  }

  /** The rest of a batch is still pending. */
  predicate StillWaiting(pending: seq<nat>, done: seq<Completion>, i: nat) {
    && (forall k | i <= k < |done| :: done[k].id in pending)
    && (forall j, k | 0 <= j < k < |done| :: done[j].id != done[k].id)
  }

  lemma RestStays(seeds: seq<int>, stopOnFail: bool, s: State, done: seq<Completion>, i: nat)
    requires i < |done| && StillWaiting(s.pending, done, i) && done[i].id < |seeds|
    ensures StillWaiting(Collect(seeds, stopOnFail, s, done[i]).pending, done, i + 1)
  {
    hide Collect;
    forall k | i < k < |done| ensures done[k].id in Collect(seeds, stopOnFail, s, done[i]).pending {
      OthersStay(seeds, stopOnFail, s, done[i], done[k].id);
    }
  }

  lemma FilledIsSweeping(seeds: seq<int>, jobs: nat, stopOnFail: bool, s: State)
    requires Accounted(s, []) && s.results == [] && !s.stopping && |s.pending| == s.next
    requires s.next == if jobs < |seeds| then jobs else |seeds|
    ensures Sweeping(seeds, jobs, stopOnFail, s, [])
  {
    hide Accounted, UpTo;
    assert FirstFailure([]) == 0;
  }

  lemma NothingYet(seeds: seq<int>)
    ensures Accounted(State(0, [], [], false), []) && Filled(seeds, 0) == State(0, [], [], false)
  {
  }

  lemma FilledNext(seeds: seq<int>, n: nat)
    ensures Filled(seeds, n + 1) == SubmitNext(seeds, Filled(seeds, n))
  {
  }

  class Sweeper {
    const seeds: seq<int>
    const jobs: nat
    const stopOnFail: bool
    var next: nat
    var pending: seq<nat>
    var results: seq<Result>
    var stopping: bool

    function Value(): State
      reads this
    {
      State(next, pending, results, stopping)
    }

    constructor (seeds: seq<int>, jobs: nat, stopOnFail: bool)
      ensures this.seeds == seeds && this.jobs == jobs && this.stopOnFail == stopOnFail
      ensures Value() == State(0, [], [], false)
    {
      this.seeds, this.jobs, this.stopOnFail := seeds, jobs, stopOnFail;
      next, pending, results, stopping := 0, [], [], false;
    }

    method Submit()
      modifies this
      ensures Value() == SubmitNext(seeds, old(Value()))
    {
      if next < |seeds| {
        pending := pending + [next];
        next := next + 1;
      }
    }

    method Take(c: Completion)
      requires c.id < |seeds|
      modifies this
      ensures Value() == Collect(seeds, stopOnFail, old(Value()), c)
    {
      pending := Without(pending, c.id);
      results := Insert(results, Result(seeds[c.id], c.ok));
      if !c.ok && stopOnFail { stopping := true; }
      if !stopping { Submit(); }
    }

    /** The first submissions, before anything has completed. */
    method Fill()
      requires Value() == State(0, [], [], false)
      modifies this
      ensures Sweeping(seeds, jobs, stopOnFail, Value(), [])
      ensures Value() == Filled(seeds, if jobs < |seeds| then jobs else |seeds|)
    {
      NothingYet(seeds);
      hide Accounted, Filled, Submitted;
      while next < jobs && next < |seeds|
        invariant results == [] && !stopping && |pending| == next <= jobs && next <= |seeds|
        invariant Accounted(Value(), []) && Value() == Filled(seeds, next)
      {
        Submits(seeds, Value(), []);
        FilledNext(seeds, next);
        Submit();
      }
      FilledIsSweeping(seeds, jobs, stopOnFail, Value());
      hide *;
    }

    /** The state is the one the completions in `log` lead to from `start`. */
    ghost predicate Follows(start: State, log: seq<Completion>)
      reads this
    {
      KnownIds(seeds, log) && Value() == After(seeds, stopOnFail, start, log, |log|)
    }

    lemma FollowsOn(start: State, s: State, log: seq<Completion>, c: Completion)
      requires KnownIds(seeds, log) && s == After(seeds, stopOnFail, start, log, |log|)
      requires c.id < |seeds| && Value() == Collect(seeds, stopOnFail, s, c)
      ensures Follows(start, log + [c])
    {
      AfterOne(seeds, stopOnFail, start, log, c);
      hide Collect, KnownIds;
    }

    /** One batch of completions, in the order they are looked at. */
    method TakeAll(done: seq<Completion>, ghost log: seq<Completion>, ghost start: State)
      requires Sweeping(seeds, jobs, stopOnFail, Value(), log) && Batch(Value(), done)
      requires Follows(start, log)
      modifies this
      ensures Sweeping(seeds, jobs, stopOnFail, Value(), log + done) && Follows(start, log + done)
    {
      ghost var sofar := log;
      hide Sweeping, Collect;
      for i := 0 to |done|
        invariant Sweeping(seeds, jobs, stopOnFail, Value(), sofar) && Follows(start, sofar)
        invariant sofar == log + done[..i]
        invariant StillWaiting(pending, done, i)
      {
        CollectKeeps(seeds, jobs, stopOnFail, Value(), sofar, done[i]);
        RestStays(seeds, stopOnFail, Value(), done, i);
        ghost var s := Value();
        Take(done[i]);
        FollowsOn(start, s, sofar, done[i]);
        sofar := sofar + [done[i]];
      }
      assert done[..|done|] == done;
    }

    /** The sweep, for every order and grouping of completions that waiting can produce: it ends with nothing running,
        one result for each seed submitted, and unless a failure stopped it a result for every seed; what is submitted
        is the first `jobs` seeds and one for each completion processed before the failure that stops it. */
    method Run(wait: State -> seq<Completion>) returns (ghost log: seq<Completion>)
      requires jobs >= 1 && Value() == State(0, [], [], false)
      requires forall s: State :: s.pending != [] ==> Batch(s, wait(s))
      modifies this
      ensures Sweeping(seeds, jobs, stopOnFail, Value(), log) && pending == []
      ensures Ids(log) == UpTo(next) && |results| == next
      ensures !stopping ==> next == |seeds|
      ensures stopping <==> stopOnFail && Failed(log)
      ensures next == Submitted(seeds, jobs, stopOnFail, log)
      ensures Follows(Filled(seeds, if jobs < |seeds| then jobs else |seeds|), log)
    {
      Fill();
      log := [];
      ghost var start := Value();
      while pending != []
        invariant Sweeping(seeds, jobs, stopOnFail, Value(), log) && Follows(start, log)
        decreases |seeds| - |log|
      {
        var done := wait(Value());
        TakeAll(done, log, start);
        log := log + done;
        LogFits(seeds, jobs, stopOnFail, Value(), log);
      }
      ReportedSize(seeds, log);
      assert multiset(pending) == multiset{};
      assert |multiset(results)| == |log|;
    }
  }

  lemma LogFits(seeds: seq<int>, jobs: nat, stopOnFail: bool, s: State, log: seq<Completion>)
    requires Sweeping(seeds, jobs, stopOnFail, s, log)
    ensures |log| <= |seeds|
  {
  }

  lemma {:induction false} ReportedSize(seeds: seq<int>, log: seq<Completion>)
    requires KnownIds(seeds, log)
    ensures |Reported(seeds, log)| == |log|
  {
    if log != [] { ReportedSize(seeds, log[..|log| - 1]); }
  }
}
