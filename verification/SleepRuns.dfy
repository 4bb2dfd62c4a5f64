/** Runs of the sleep list: every timer fires on exactly its tick, timers of the same tick in the order in
    which they were set. */
module SleepRuns {
  import opened SleepTimers

  datatype Firing = Firing(deadline: Deadline, tick: nat)

  /** armed holds every deadline ever set, in order, so that a stamp is an index into it; fired what was
      woken so far and when, removed the timers that were taken back. */
  datatype State = State(timers: seq<Timer>, now: nat, armed: seq<Deadline>, fired: seq<Firing>, removed: set<nat>)

  datatype Op = OpInsert(task: nat, time: nat) | OpRemove(task: nat) | OpTick

  /** The place of a task's timer. */
  function Place(s: seq<Timer>, task: nat): (i: nat)
    ensures i <= |s| && (i < |s| ==> s[i].task == task) && forall j :: 0 <= j < i ==> s[j].task != task
  {
    if s == [] || s[0].task == task then 0 else 1 + Place(s[1..], task)
  }

  /** Tasks sleep for at least one tick, and for one timer at a time. */
  predicate Legal(s: State, op: Op) {
    match op
    case OpInsert(task, time) => 0 < time < WORD && Place(s.timers, task) == |s.timers|
    case OpRemove(task) => true
    case OpTick => true
  }

  /** What SleepUpdate wakes: the first n timers. */
  function Firings(u: seq<Timer>, n: nat, armed: seq<Deadline>, tick: nat): (f: seq<Firing>)
    requires n <= |u| && forall i :: 0 <= i < n ==> u[i].stamp < |armed|
    ensures |f| == n && forall i :: 0 <= i < n ==> f[i] == Firing(armed[u[i].stamp], tick)
  {
    seq(n, i requires 0 <= i < n => Firing(armed[u[i].stamp], tick))
  }

  function Step(s: State, op: Op): State
    requires forall i :: 0 <= i < |s.timers| ==> s.timers[i].stamp < |s.armed|
  {
    match op
    case OpInsert(task, time) =>
      s.(timers := InsertTimer(s.timers, Timer(task, time, |s.armed|)),
         armed := s.armed + [Deadline(task, s.now + time, |s.armed|)])
    case OpRemove(task) =>
      var i := Place(s.timers, task);
      if i < |s.timers| then s.(timers := RemoveTimer(s.timers, i), removed := s.removed + {s.timers[i].stamp}) else s
    case OpTick =>
      var u := Ticked(s.timers);
      var n := Expired(u);
      assert forall i :: 0 <= i < |u| ==> u[i].stamp == s.timers[i].stamp;
      s.(timers := u[n..], now := s.now + 1, fired := s.fired + Firings(u, n, s.armed, s.now + 1))
  }

  // ----- The invariant -----

  predicate Before(a: Deadline, b: Deadline) {
    a.time < b.time || (a.time == b.time && a.stamp < b.stamp)
  }

  /** The pending deadlines: those that were set, in order of time and age, one for a task. */
  ghost predicate Pending(d: seq<Deadline>, now: nat, armed: seq<Deadline>) {
    && (forall i :: 0 <= i < |d| ==> d[i].stamp < |armed| && armed[d[i].stamp] == d[i] && now < d[i].time < now + WORD)
    && (forall i, j :: 0 <= i < j < |d| ==> Before(d[i], d[j]) && d[i].task != d[j].task)
  }

  /** What fired did so on its tick, in order of time and age. */
  ghost predicate Punctual(fired: seq<Firing>, now: nat, armed: seq<Deadline>) {
    && (forall i :: 0 <= i < |fired| ==>
          var d := fired[i].deadline;
          d.stamp < |armed| && armed[d.stamp] == d && d.time == fired[i].tick <= now)
    && forall i, j :: 0 <= i < j < |fired| ==> Before(fired[i].deadline, fired[j].deadline)
  }

  ghost predicate IsPending(d: seq<Deadline>, k: nat) {
    exists i :: 0 <= i < |d| && d[i].stamp == k
  }

  ghost predicate HasFired(fired: seq<Firing>, k: nat) {
    exists i :: 0 <= i < |fired| && fired[i].deadline.stamp == k
  }

  /** Every timer ever set is pending, or has fired, or was removed, and only one of these. */
  ghost predicate Accounted(s: State, d: seq<Deadline>) {
    forall k: nat ::
      && (k < |s.armed| <==> IsPending(d, k) || HasFired(s.fired, k) || k in s.removed)
      && !(IsPending(d, k) && HasFired(s.fired, k)) && !(IsPending(d, k) && k in s.removed)
      && !(HasFired(s.fired, k) && k in s.removed)
  }

  ghost predicate Inv(s: State) {
    var d := Deadlines(s.timers, s.now);
    Pending(d, s.now, s.armed) && Punctual(s.fired, s.now, s.armed) && Accounted(s, d)
  }

  lemma {:induction false} SameTimer(s: seq<Timer>, i: nat, now: nat)
    requires i < |s|
    ensures Deadlines(s, now)[i].task == s[i].task && Deadlines(s, now)[i].stamp == s[i].stamp
  {
    if i > 0 { SameTimer(s[1..], i - 1, now + s[0].pendTime); }
  }

  lemma Known(s: State)
    requires Inv(s)
    ensures forall i :: 0 <= i < |s.timers| ==> s.timers[i].stamp < |s.armed|
    ensures s.timers != [] ==> 0 < s.timers[0].pendTime < WORD
  {
    forall i | 0 <= i < |s.timers|
      ensures s.timers[i].stamp < |s.armed|
    {
      SameTimer(s.timers, i, s.now);
    }
    assert s.timers != [] ==> Deadlines(s.timers, s.now)[0].time == s.now + s.timers[0].pendTime;
  }

  // ----- Steps -----

  /** Where a deadline is inserted: behind all that are not later. */
  lemma {:induction false} InsertedAt(d: seq<Deadline>, x: Deadline) returns (i: nat)
    ensures i <= |d| && InsertDeadline(d, x) == d[..i] + [x] + d[i..]
    ensures forall j :: 0 <= j < i ==> d[j].time <= x.time
    ensures i < |d| ==> x.time < d[i].time
  {
    if d == [] || x.time < d[0].time {
      i := 0;
    } else {
      var j := InsertedAt(d[1..], x);
      i := j + 1;
      assert [d[0]] + (d[1..][..j] + [x] + d[1..][j..]) == d[..i] + [x] + d[i..];
    }
  }

  lemma InsertPending(d: seq<Deadline>, x: Deadline, i: nat, now: nat, armed: seq<Deadline>)
    requires Pending(d, now, armed) && i <= |d| && x.stamp == |armed| && now < x.time < now + WORD
    requires forall j :: 0 <= j < |d| ==> d[j].task != x.task
    requires (forall j :: 0 <= j < i ==> d[j].time <= x.time) && (i < |d| ==> x.time < d[i].time)
    ensures Pending(d[..i] + [x] + d[i..], now, armed + [x])
  {
    var r, a := d[..i] + [x] + d[i..], armed + [x];
    forall j | 0 <= j < |r|
      ensures r[j].stamp < |a| && a[r[j].stamp] == r[j] && now < r[j].time < now + WORD
    {
      if j != i { assert r[j] == d[if j < i then j else j - 1]; }
    }
    forall j, k | 0 <= j < k < |r|
      ensures Before(r[j], r[k]) && r[j].task != r[k].task
    {
      assert j != i ==> r[j] == d[if j < i then j else j - 1];
      assert k != i ==> r[k] == d[if k < i then k else k - 1];
      assert j == i && k > i + 1 ==> Before(d[i], d[k - 1]);
    }
  }

  lemma InsertStamps(d: seq<Deadline>, x: Deadline, i: nat, k: nat)
    requires i <= |d|
    ensures IsPending(d[..i] + [x] + d[i..], k) <==> IsPending(d, k) || k == x.stamp
  {
    var r := d[..i] + [x] + d[i..];
    if IsPending(d, k) {
      var j :| 0 <= j < |d| && d[j].stamp == k;
      assert r[if j < i then j else j + 1].stamp == k;
    }
    if IsPending(r, k) {
      var j :| 0 <= j < |r| && r[j].stamp == k;
      assert j != i ==> r[j] == d[if j < i then j else j - 1];
    }
    assert r[i] == x;
  }

  lemma InsertKeeps(s: State, task: nat, time: nat)
    requires Inv(s) && Legal(s, OpInsert(task, time))
    ensures (forall i :: 0 <= i < |s.timers| ==> s.timers[i].stamp < |s.armed|) && Inv(Step(s, OpInsert(task, time)))
  {
    hide InsertTimer, Deadlines, InsertDeadline;
    Known(s);
    var d, x := Deadlines(s.timers, s.now), Deadline(task, s.now + time, |s.armed|);
    InsertRefines(s.timers, Timer(task, time, |s.armed|), s.now);
    var i := InsertedAt(d, x);
    forall j | 0 <= j < |d|
      ensures d[j].task != task
    {
      SameTimer(s.timers, j, s.now);
    }
    InsertPending(d, x, i, s.now, s.armed);
    forall k: nat
      ensures IsPending(d[..i] + [x] + d[i..], k) <==> IsPending(d, k) || k == |s.armed|
    {
      InsertStamps(d, x, i, k);
    }
  }

  lemma RemoveStamps(d: seq<Deadline>, i: nat, now: nat, armed: seq<Deadline>, k: nat)
    requires Pending(d, now, armed) && i < |d|
    ensures IsPending(d[..i] + d[i + 1..], k) <==> IsPending(d, k) && k != d[i].stamp
  {
    var r := d[..i] + d[i + 1..];
    if IsPending(d, k) && k != d[i].stamp {
      var j :| 0 <= j < |d| && d[j].stamp == k;
      assert r[if j < i then j else j - 1].stamp == k;
    }
    if IsPending(r, k) {
      var j :| 0 <= j < |r| && r[j].stamp == k;
      var m := if j < i then j else j + 1;
      assert r[j] == d[m] && armed[d[m].stamp] == d[m] && armed[d[i].stamp] == d[i];
      assert m < i ==> d[m].task != d[i].task;
      assert i < m ==> d[i].task != d[m].task;
    }
  }

  lemma RemovePending(d: seq<Deadline>, i: nat, now: nat, armed: seq<Deadline>)
    requires Pending(d, now, armed) && i < |d|
    ensures Pending(d[..i] + d[i + 1..], now, armed)
  {
    var r := d[..i] + d[i + 1..];
    assert forall j :: 0 <= j < |r| ==> r[j] == d[if j < i then j else j + 1];
  }

  lemma RemoveKeeps(s: State, task: nat)
    requires Inv(s)
    ensures (forall i :: 0 <= i < |s.timers| ==> s.timers[i].stamp < |s.armed|) && Inv(Step(s, OpRemove(task)))
  {
    hide RemoveTimer, Deadlines;
    Known(s);
    var i := Place(s.timers, task);
    if i < |s.timers| {
      var d := Deadlines(s.timers, s.now);
      DeadlinesSize(s.timers, s.now);
      RemoveRefines(s.timers, i, s.now);
      RemovePending(d, i, s.now, s.armed);
      SameTimer(s.timers, i, s.now);
      forall k: nat
        ensures IsPending(d[..i] + d[i + 1..], k) <==> IsPending(d, k) && k != s.timers[i].stamp
      {
        RemoveStamps(d, i, s.now, s.armed, k);
      }
      assert IsPending(d, d[i].stamp);
    }
  }

  lemma DeadlinesSize(s: seq<Timer>, now: nat)
    ensures |Deadlines(s, now)| == |s|
  {
  }

  /** The first n deadlines are those of this tick; the others come later. */
  lemma DuePending(d: seq<Deadline>, n: nat, now: nat, armed: seq<Deadline>)
    requires Pending(d, now, armed) && n <= |d| && forall i :: 0 <= i < |d| ==> (i < n <==> d[i].time == now + 1)
    ensures Pending(d[n..], now + 1, armed)
  {
  }

  lemma DuePunctual(d: seq<Deadline>, n: nat, now: nat, armed: seq<Deadline>, fired: seq<Firing>, f: seq<Firing>)
    requires Pending(d, now, armed) && Punctual(fired, now, armed)
    requires n <= |d| && forall i :: 0 <= i < |d| ==> (i < n <==> d[i].time == now + 1)
    requires |f| == n && forall i :: 0 <= i < n ==> f[i] == Firing(d[i], now + 1)
    ensures Punctual(fired + f, now + 1, armed)
  {
    var g := fired + f;
    forall i, j | 0 <= i < j < |g|
      ensures Before(g[i].deadline, g[j].deadline)
    {
      if j < |fired| {
        assert g[i] == fired[i] && g[j] == fired[j];
      } else if i < |fired| {
        assert g[i] == fired[i] && g[j] == f[j - |fired|];
      } else {
        assert g[i] == f[i - |fired|] && g[j] == f[j - |fired|];
      }
    }
  }

  lemma DueStamps(d: seq<Deadline>, n: nat, now: nat, armed: seq<Deadline>, fired: seq<Firing>, f: seq<Firing>, k: nat)
    requires Pending(d, now, armed) && n <= |d| && |f| == n && forall i :: 0 <= i < n ==> f[i] == Firing(d[i], now + 1)
    ensures IsPending(d[n..], k) ==> IsPending(d, k) && !IsPending(d[..n], k)
    ensures IsPending(d, k) ==> IsPending(d[n..], k) || IsPending(d[..n], k)
    ensures IsPending(d[..n], k) ==> IsPending(d, k)
    ensures HasFired(fired + f, k) <==> HasFired(fired, k) || IsPending(d[..n], k)
  {
    var g := fired + f;
    if IsPending(d[n..], k) {
      var i :| 0 <= i < |d| - n && d[n..][i].stamp == k;
      assert d[n + i].stamp == k;
      forall j | 0 <= j < n
        ensures d[..n][j].stamp != k
      {
        assert Before(d[j], d[n + i]) && armed[d[j].stamp] == d[j];
      }
    }
    if IsPending(d, k) {
      var i :| 0 <= i < |d| && d[i].stamp == k;
      if i < n { assert d[..n][i].stamp == k; } else { assert d[n..][i - n].stamp == k; }
    }
    if IsPending(d[..n], k) {
      var i :| 0 <= i < n && d[..n][i].stamp == k;
      assert d[i].stamp == k && g[|fired| + i].deadline.stamp == k;
    }
    if HasFired(fired, k) {
      var i :| 0 <= i < |fired| && fired[i].deadline.stamp == k;
      assert g[i].deadline.stamp == k;
    }
    if HasFired(g, k) {
      var i :| 0 <= i < |g| && g[i].deadline.stamp == k;
      if i < |fired| { assert fired[i].deadline.stamp == k; } else { assert d[..n][i - |fired|].stamp == k; }
    }
  }

  lemma TickKeeps(s: State)
    requires Inv(s)
    ensures (forall i :: 0 <= i < |s.timers| ==> s.timers[i].stamp < |s.armed|) && Inv(Step(s, OpTick))
  {
    hide Deadlines, Expired, Pending, Punctual, Accounted;
    Known(s);
    TickRefines(s.timers, s.now);
    DeadlinesSize(s.timers, s.now);
    var u, d := Ticked(s.timers), Deadlines(s.timers, s.now);
    var n := Expired(u);
    ExpiredSize(u);
    var f := Firings(u, n, s.armed, s.now + 1);
    forall i | 0 <= i < n
      ensures f[i] == Firing(d[i], s.now + 1)
    {
      SameTimer(s.timers, i, s.now);
      PendingArmed(d, i, s.now, s.armed);
      assert u[i].stamp == s.timers[i].stamp;
    }
    DuePending(d, n, s.now, s.armed);
    DuePunctual(d, n, s.now, s.armed, s.fired, f);
    DueAccounted(s, Step(s, OpTick), d, n, f);
  }

  lemma DueAccounted(s: State, s': State, d: seq<Deadline>, n: nat, f: seq<Firing>)
    requires Pending(d, s.now, s.armed) && n <= |d| && |f| == n
    requires forall i :: 0 <= i < n ==> f[i] == Firing(d[i], s.now + 1)
    requires Accounted(s, d) && s'.fired == s.fired + f && s'.armed == s.armed && s'.removed == s.removed
    ensures Accounted(s', d[n..])
  {
    hide IsPending, HasFired, Pending;
    forall k: nat
      ensures IsPending(d[n..], k) ==> IsPending(d, k) && !IsPending(d[..n], k)
      ensures IsPending(d, k) ==> IsPending(d[n..], k) || IsPending(d[..n], k)
      ensures IsPending(d[..n], k) ==> IsPending(d, k)
      ensures HasFired(s.fired + f, k) <==> HasFired(s.fired, k) || IsPending(d[..n], k)
    {
      DueStamps(d, n, s.now, s.armed, s.fired, f, k);
    }
  }

  lemma ExpiredSize(u: seq<Timer>)
    ensures Expired(u) <= |u|
  {
  }

  lemma PendingArmed(d: seq<Deadline>, i: nat, now: nat, armed: seq<Deadline>)
    requires Pending(d, now, armed) && i < |d|
    ensures d[i].stamp < |armed| && armed[d[i].stamp] == d[i]
  {
  }

  // ----- Runs -----

  lemma InitialInv()
    ensures Inv(State([], 0, [], [], {}))
  {
  }

  lemma StepKeeps(s: State, op: Op)
    requires Inv(s) && Legal(s, op)
    ensures (forall i :: 0 <= i < |s.timers| ==> s.timers[i].stamp < |s.armed|) && Inv(Step(s, op))
  {
    match op
    case OpInsert(task, time) => InsertKeeps(s, task, time);
    case OpRemove(task) => RemoveKeeps(s, task);
    case OpTick => TickKeeps(s);
  }

  ghost predicate LegalRun(s: State, ops: seq<Op>)
    requires Inv(s)
    decreases |ops|
  {
    ops == [] || (Legal(s, ops[0]) && (StepKeeps(s, ops[0]); LegalRun(Step(s, ops[0]), ops[1..])))
  }

  ghost function Run(s: State, ops: seq<Op>): State
    requires Inv(s) && LegalRun(s, ops)
    decreases |ops|
  {
    if ops == [] then s else StepKeeps(s, ops[0]); Run(Step(s, ops[0]), ops[1..])
  }

  lemma {:induction false} RunKeeps(s: State, ops: seq<Op>)
    requires Inv(s) && LegalRun(s, ops)
    ensures Inv(Run(s, ops))
    decreases |ops|
  {
    if ops != [] {
      StepKeeps(s, ops[0]);
      RunKeeps(Step(s, ops[0]), ops[1..]);
    }
  }

  /** SleepRemove takes out the pending timer of the task, if it has one, and no other. */
  lemma RemoveEffect(s: State, task: nat)
    requires Inv(s)
    ensures forall i :: 0 <= i < |s.timers| ==> s.timers[i].stamp < |s.armed|
    ensures var s' := Step(s, OpRemove(task)); var d, d' := Deadlines(s.timers, s.now), Deadlines(s'.timers, s.now);
            && s'.now == s.now && s'.armed == s.armed && s'.fired == s.fired
            && forall k: nat :: k < |s.armed| ==>
                 && (IsPending(d', k) <==> IsPending(d, k) && s.armed[k].task != task)
                 && (k in s'.removed <==> k in s.removed || (IsPending(d, k) && s.armed[k].task == task))
  {
    hide RemoveTimer, Deadlines;
    Known(s);
    StepKeeps(s, OpRemove(task));
    var d, i := Deadlines(s.timers, s.now), Place(s.timers, task);
    if i < |s.timers| { RemoveRefines(s.timers, i, s.now); }
    forall k: nat | k < |s.armed|
      ensures IsPending(d, k) && s.armed[k].task == task <==> i < |s.timers| && k == s.timers[i].stamp
    {
      TaskPending(s, task, k);
    }
    forall k: nat | i < |s.timers|
      ensures IsPending(d[..i] + d[i + 1..], k) <==> IsPending(d, k) && k != s.timers[i].stamp
    {
      SameTimer(s.timers, i, s.now);
      RemoveStamps(d, i, s.now, s.armed, k);
    }
  }

  /** The pending timer of a task is the one that is found. */
  lemma TaskPending(s: State, task: nat, k: nat)
    requires Inv(s) && k < |s.armed|
    ensures var d, i := Deadlines(s.timers, s.now), Place(s.timers, task);
            IsPending(d, k) && s.armed[k].task == task <==> i < |s.timers| && k == s.timers[i].stamp
  {
    hide Deadlines;
    var d, i := Deadlines(s.timers, s.now), Place(s.timers, task);
    if i < |s.timers| { SameTimer(s.timers, i, s.now); }
    if IsPending(d, k) {
      var j :| 0 <= j < |d| && d[j].stamp == k;
      SameTimer(s.timers, j, s.now);
    }
  }

  /** A timer that was removed never fires. */
  lemma {:induction false} RunRemoved(s: State, ops: seq<Op>, k: nat)
    requires Inv(s) && LegalRun(s, ops) && k in s.removed
    ensures k in Run(s, ops).removed && !HasFired(Run(s, ops).fired, k)
    decreases |ops|
  {
    hide Deadlines, RemoveTimer, InsertTimer, Ticked;
    if ops != [] {
      StepKeeps(s, ops[0]);
      RunRemoved(Step(s, ops[0]), ops[1..], k);
    }
  }

  /** After any run, a timer that was not removed has fired exactly if its deadline has come, and then it
      did so on the tick of its deadline, once. */
  lemma FiresOnItsTick(s: State, ops: seq<Op>, k: nat)
    requires Inv(s) && LegalRun(s, ops) && k < |Run(s, ops).armed| && k !in Run(s, ops).removed
    ensures var r := Run(s, ops);
            && (HasFired(r.fired, k) <==> r.armed[k].time <= r.now)
            && (forall i :: 0 <= i < |r.fired| && r.fired[i].deadline.stamp == k ==>
                r.fired[i] == Firing(r.armed[k], r.armed[k].time))
            && forall i, j :: 0 <= i < j < |r.fired| ==>
                 !(r.fired[i].deadline.stamp == k && r.fired[j].deadline.stamp == k)
  {
    hide Deadlines;
    RunKeeps(s, ops);
    var r := Run(s, ops);
    var d := Deadlines(r.timers, r.now);
    assert IsPending(d, k) || HasFired(r.fired, k);
    forall i, j | 0 <= i < j < |r.fired|
      ensures !(r.fired[i].deadline.stamp == k && r.fired[j].deadline.stamp == k)
    {
      assert Before(r.fired[i].deadline, r.fired[j].deadline);
    }
  }

  /** Timers of the same tick fire in the order in which they were set. */
  lemma FiresInOrder(s: State, ops: seq<Op>, i: nat, j: nat)
    requires Inv(s) && LegalRun(s, ops) && i < |Run(s, ops).fired| && j < |Run(s, ops).fired|
    requires Run(s, ops).fired[i].tick == Run(s, ops).fired[j].tick
    ensures var f := Run(s, ops).fired; i < j <==> f[i].deadline.stamp < f[j].deadline.stamp
  {
    RunKeeps(s, ops);
    var f := Run(s, ops).fired;
    assert i < j ==> Before(f[i].deadline, f[j].deadline);
    assert j < i ==> Before(f[j].deadline, f[i].deadline);
  }
}
