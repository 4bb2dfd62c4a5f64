/** The recursive lock of kernel/klock.c under every interleaving of the cpus' atomic accesses to its two
    words: reading the owner, compare-and-set of the owner, loading and storing the count. */
module Klock {
  import opened Utils

  /** Where a cpu is: outside, or before the next access of Klock, Kunlock or KlockEnsure. A loaded count
      is kept until it is stored. */
  datatype Pc =
    | Outside
    | LockRead | LockSet
    | EnsureRead | EnsureSet
    | IncLoad | IncStore(loaded: nat)
    | UnlockRead | DecLoad | DecStore(loaded: nat) | Release

  datatype Call = CallKlock | CallKunlock | CallKlockEnsure

  /** The lock, None for KLOCK_FREE, and the cpus. held counts the calls of Klock by a cpu that returned,
      and of KlockEnsure that took the lock, less its calls of Kunlock that returned as the owner. */
  datatype State = State(owner: Option<nat>, count: nat, pcs: seq<Pc>, held: seq<nat>)

  predicate WellFormed(s: State) {
    |s.pcs| == |s.held|
  }

  // ----- Steps -----

  /** A cpu that is outside makes a call. */
  function Enter(s: State, c: nat, call: Call): State
    requires c < |s.pcs|
  {
    s.(pcs := s.pcs[c := match call
                         case CallKlock => LockRead
                         case CallKunlock => UnlockRead
                         case CallKlockEnsure => EnsureRead])
  }

  function Goto(s: State, c: nat, pc: Pc): State
    requires c < |s.pcs|
  {
    s.(pcs := s.pcs[c := pc])
  }

  /** atomic_cmp_set of a free lock: the cpu goes on if it succeeds and tries again otherwise. */
  function TrySet(s: State, c: nat): State
    requires c < |s.pcs|
  {
    if s.owner == None then Goto(s, c, IncLoad).(owner := Some(c)) else s
  }

  /** The next access of a cpu that is inside a call. */
  function Advance(s: State, c: nat): State
    requires WellFormed(s) && c < |s.pcs|
  {
    match s.pcs[c]
    case Outside => s
    case LockRead => Goto(s, c, if s.owner != Some(c) then LockSet else IncLoad)
    case LockSet => TrySet(s, c)
    case EnsureRead => Goto(s, c, if s.owner == Some(c) then Outside else EnsureSet)
    case EnsureSet => TrySet(s, c)
    case IncLoad => Goto(s, c, IncStore(s.count))
    case IncStore(loaded) => Goto(s, c, Outside).(count := loaded + 1, held := s.held[c := s.held[c] + 1])
    case UnlockRead => Goto(s, c, if s.owner != Some(c) then Outside else DecLoad)
    case DecLoad => Goto(s, c, DecStore(s.count))
    case DecStore(loaded) =>
      if loaded == 0 then s
      else if loaded == 1 then Goto(s, c, Release).(count := 0)
      else Goto(s, c, Outside).(count := loaded - 1, held := Less(s.held, c))
    case Release =>
      if s.owner == Some(c) then Goto(s, c, Outside).(owner := None, held := Less(s.held, c)) else s
  }

  function Less(held: seq<nat>, c: nat): (r: seq<nat>)
    requires c < |held|
    ensures |r| == |held|
  {
    if held[c] > 0 then held[c := held[c] - 1] else held
  }

  datatype Event = Enters(cpu: nat, call: Call) | Advances(cpu: nat)

  predicate Legal(s: State, e: Event) {
    e.cpu < |s.pcs| && (e.Enters? <==> s.pcs[e.cpu] == Outside)
  }

  function Step(s: State, e: Event): State
    requires WellFormed(s) && Legal(s, e)
  {
    match e
    case Enters(c, call) => Enter(s, c, call)
    case Advances(c) => Advance(s, c)
  }

  // ----- The invariant -----

  /** The cpu is between taking the lock and giving it back. */
  predicate Inside(pc: Pc) {
    pc.IncLoad? || pc.IncStore? || pc.DecLoad? || pc.DecStore? || pc.Release?
  }

  predicate Holds(s: State, c: nat) {
    c < |s.pcs| == |s.held| && (s.held[c] > 0 || Inside(s.pcs[c]))
  }

  /** What is known of cpu c: it holds the lock exactly if it is the owner, it has the current count in
      hand, and the count is the number of acquisitions it has not given back. */
  predicate CpuOk(s: State, c: nat)
    requires c < |s.pcs| == |s.held|
  {
    var pc := s.pcs[c];
    && (s.owner == Some(c) <==> s.held[c] > 0 || Inside(pc))
    && (pc.LockSet? || pc.EnsureSet? ==> s.owner != Some(c))
    && (pc.IncStore? || pc.DecStore? ==> pc.loaded == s.count)
    && (pc.DecLoad? || pc.DecStore? ==> s.held[c] > 0)
    && (s.owner == Some(c) ==> s.held[c] == s.count + if pc.Release? then 1 else 0)
    && (pc.Release? ==> s.count == 0)
  }

  ghost predicate Inv(s: State) {
    && WellFormed(s) && (s.owner == None ==> s.count == 0) && (s.owner != None ==> s.owner.value < |s.pcs|)
    && forall c :: 0 <= c < |s.pcs| ==> CpuOk(s, c)
  }

  lemma InitialInv(cpus: nat)
    ensures Inv(NewLock(cpus))
  {
  }

  lemma StepKeeps(s: State, e: Event)
    requires Inv(s) && Legal(s, e)
    ensures Inv(Step(s, e))
  {
    var s' := Step(s, e);
    assert CpuOk(s, e.cpu);
    forall d | 0 <= d < |s'.pcs|
      ensures CpuOk(s', d)
    {
      assert CpuOk(s, d);
    }
  }

  // ----- Every interleaving -----

  ghost predicate LegalRun(s: State, events: seq<Event>)
    requires Inv(s)
    decreases |events|
  {
    events == [] || (Legal(s, events[0]) && (StepKeeps(s, events[0]); LegalRun(Step(s, events[0]), events[1..])))
  }

  ghost function Run(s: State, events: seq<Event>): State
    requires Inv(s) && LegalRun(s, events)
    decreases |events|
  {
    if events == [] then s else StepKeeps(s, events[0]); Run(Step(s, events[0]), events[1..])
  }

  lemma {:induction false} RunKeeps(s: State, events: seq<Event>)
    requires Inv(s) && LegalRun(s, events)
    ensures Inv(Run(s, events))
    decreases |events|
  {
    if events != [] {
      StepKeeps(s, events[0]);
      RunKeeps(Step(s, events[0]), events[1..]);
    }
  }

  /** At most one cpu holds the lock, and while its holder is outside the count is the number of its
      acquisitions that it has not given back. */
  lemma MutualExclusion(s: State, events: seq<Event>, c: nat, d: nat)
    requires Inv(s) && LegalRun(s, events) && Holds(Run(s, events), c)
    ensures var r := Run(s, events);
            && (Holds(r, d) ==> c == d) && r.owner == Some(c)
            && (r.pcs[c] == Outside ==> r.count == r.held[c] > 0)
  {
    RunKeeps(s, events);
    var r := Run(s, events);
    assert CpuOk(r, c);
    if d < |r.pcs| { assert CpuOk(r, d); }
  }

  /** Only the holder changes the count. */
  lemma OnlyHolderCounts(s: State, e: Event)
    requires Inv(s) && Legal(s, e) && Step(s, e).count != s.count
    ensures s.owner == Some(e.cpu) && Step(s, e).owner == Some(e.cpu)
  {
    assert CpuOk(s, e.cpu);
  }

  /** The lock becomes free exactly when its owner's last acquisition is given back. */
  lemma FreeAtOutermost(s: State, e: Event)
    requires Inv(s) && Legal(s, e) && s.owner != None
    ensures Step(s, e).owner == None <==> e.cpu == s.owner.value && s.held[e.cpu] == 1 && Step(s, e).held[e.cpu] == 0
    ensures Step(s, e).owner != None ==> Step(s, e).owner == s.owner
  {
    assert CpuOk(s, e.cpu) && CpuOk(s, s.owner.value);
  }

  /** Nobody loses the lock, and nobody's acquisitions change, by what another cpu does. */
  lemma OthersUntouched(s: State, e: Event, d: nat)
    requires Inv(s) && Legal(s, e) && d < |s.pcs| && d != e.cpu
    ensures Step(s, e).pcs[d] == s.pcs[d] && Step(s, e).held[d] == s.held[d]
    ensures s.owner == Some(d) ==> Step(s, e).owner == Some(d) && Step(s, e).count == s.count
  {
    assert CpuOk(s, e.cpu) && CpuOk(s, d);
  }

  // ----- Calls and their returns -----

  /** The call that a cpu is in, and whether it owned the lock when it entered. */
  datatype Entry = Entry(call: Call, owned: bool)

  /** Acquisitions that a cpu gains when the call returns. */
  function Gain(entry: Option<Entry>): int {
    match entry
    case None => 0
    case Some(Entry(CallKlock, _)) => 1
    case Some(Entry(CallKlockEnsure, owned)) => if owned then 0 else 1
    case Some(Entry(CallKunlock, owned)) => if owned then -1 else 0
  }

  /** A cpu comes out of its call. */
  predicate Returns(s: State, e: Event)
    requires WellFormed(s) && Legal(s, e)
  {
    e.Advances? && Step(s, e).pcs[e.cpu] == Outside
  }

  /** The call of cpu c after an event. */
  function EntryNext(s: State, e: Event, c: nat, entry: Option<Entry>): Option<Entry>
    requires WellFormed(s) && Legal(s, e)
  {
    if e.cpu != c then entry
    else if e.Enters? then Some(Entry(e.call, s.owner == Some(c)))
    else if Returns(s, e) then None
    else entry
  }

  ghost function EntryAfter(s: State, events: seq<Event>, c: nat, entry: Option<Entry>): Option<Entry>
    requires Inv(s) && LegalRun(s, events)
    decreases |events|
  {
    if events == [] then entry
    else
      StepKeeps(s, events[0]);
      EntryAfter(Step(s, events[0]), events[1..], c, EntryNext(s, events[0], c, entry))
  }

  /** What cpu c gained by the calls that it returned from. */
  ghost function Acquired(s: State, events: seq<Event>, c: nat, entry: Option<Entry>): int
    requires Inv(s) && LegalRun(s, events)
    decreases |events|
  {
    if events == [] then 0
    else
      var e := events[0];
      StepKeeps(s, e);
      (if e.cpu == c && Returns(s, e) then Gain(entry) else 0)
      + Acquired(Step(s, e), events[1..], c, EntryNext(s, e, c, entry))
  }

  /** The place of cpu c is one of its call. */
  predicate InCall(s: State, c: nat, entry: Option<Entry>)
    requires c < |s.pcs|
  {
    var pc := s.pcs[c];
    match entry
    case None => pc == Outside
    case Some(Entry(CallKlock, _)) => pc.LockRead? || pc.LockSet? || pc.IncLoad? || pc.IncStore?
    case Some(Entry(CallKlockEnsure, owned)) =>
      if owned then pc.EnsureRead? && s.owner == Some(c)
      else (pc.EnsureRead? && s.owner != Some(c)) || pc.EnsureSet? || pc.IncLoad? || pc.IncStore?
    case Some(Entry(CallKunlock, owned)) =>
      if owned then (pc.UnlockRead? && s.owner == Some(c)) || pc.DecLoad? || pc.DecStore? || pc.Release?
      else pc.UnlockRead? && s.owner != Some(c)
  }

  /** What one event does to the call of cpu c and to its acquisitions. */
  lemma EntryStep(s: State, e: Event, c: nat, entry: Option<Entry>)
    requires Inv(s) && Legal(s, e) && c < |s.pcs| && InCall(s, c, entry)
    ensures InCall(Step(s, e), c, EntryNext(s, e, c, entry))
    ensures Step(s, e).held[c] == s.held[c] + if e.cpu == c && Returns(s, e) then Gain(entry) else 0
  {
    assert CpuOk(s, e.cpu) && CpuOk(s, c);
  }

  /** A cpu that returns from Klock or KlockEnsure is the owner. */
  lemma ReturnsAsOwner(s: State, e: Event, entry: Option<Entry>)
    requires Inv(s) && Legal(s, e) && Returns(s, e) && InCall(s, e.cpu, entry)
    requires entry.Some? && entry.value.call != CallKunlock
    ensures Step(s, e).owner == Some(e.cpu) && Step(s, e).count == Step(s, e).held[e.cpu] > 0
  {
    StepKeeps(s, e);
    assert CpuOk(s, e.cpu) && CpuOk(Step(s, e), e.cpu);
  }

  /** A cpu at its compare-and-set stays there while the lock has an owner. */
  lemma SpinsWhileOwned(s: State, c: nat)
    requires Inv(s) && c < |s.pcs| && (s.pcs[c].LockSet? || s.pcs[c].EnsureSet?) && s.owner != None
    ensures Advance(s, c) == s && s.owner != Some(c)
  {
    assert CpuOk(s, c);
  }

  /** In every interleaving held is what a cpu's calls gained. */
  lemma {:induction false} HeldIsAcquired(s: State, events: seq<Event>, c: nat, entry: Option<Entry>)
    requires Inv(s) && LegalRun(s, events) && c < |s.pcs| && InCall(s, c, entry)
    ensures |Run(s, events).pcs| == |s.pcs| == |Run(s, events).held|
    ensures Run(s, events).held[c] == s.held[c] + Acquired(s, events, c, entry)
    ensures InCall(Run(s, events), c, EntryAfter(s, events, c, entry))
    decreases |events|
  {
    if events != [] {
      var e := events[0];
      StepKeeps(s, e);
      EntryStep(s, e, c, entry);
      HeldIsAcquired(Step(s, e), events[1..], c, EntryNext(s, e, c, entry));
    }
  }

  /** KlockInit. */
  function NewLock(cpus: nat): State {
    State(None, 0, seq(cpus, _ => Outside), seq(cpus, _ => 0))
  }

  /** In every interleaving, a cpu whose calls of Klock and KlockEnsure returned more often than it gave the lock
      back owns it, and no other cpu's did; nor does another cpu return from one of them next. */
  lemma LockExcludes(cpus: nat, events: seq<Event>, c: nat, d: nat, e: Event)
    requires Inv(NewLock(cpus)) && LegalRun(NewLock(cpus), events) && c < cpus && d < cpus && c != d
    requires Acquired(NewLock(cpus), events, c, None) > 0
    ensures var r := Run(NewLock(cpus), events);
            && |r.pcs| == cpus && r.owner == Some(c) && Acquired(NewLock(cpus), events, d, None) == 0
            && (r.pcs[c] == Outside ==> r.count == Acquired(NewLock(cpus), events, c, None))
    ensures var r, entry := Run(NewLock(cpus), events), EntryAfter(NewLock(cpus), events, d, None);
            WellFormed(r) && Legal(r, e) && e.cpu == d && Returns(r, e) ==>
              entry.Some? && entry.value.call == CallKunlock
  {
    var s := NewLock(cpus);
    var r, entry := Run(s, events), EntryAfter(s, events, d, None);
    HeldIsAcquired(s, events, c, None);
    HeldIsAcquired(s, events, d, None);
    MutualExclusion(s, events, c, d);
    RunKeeps(s, events);
    if Legal(r, e) && e.cpu == d && Returns(r, e) {
      if entry.Some? && entry.value.call != CallKunlock {
        ReturnsAsOwner(r, e, entry);
        OthersUntouched(r, e, c);
      }
    }
  }

  /** A whole call by a cpu, with no other cpu in between. */
  function Alone(s: State, c: nat, n: nat): (r: State)
    requires WellFormed(s) && c < |s.pcs|
    ensures WellFormed(r) && |r.pcs| == |s.pcs|
  {
    if n == 0 then s else Advance(Alone(s, c, n - 1), c)
  }

  /** Kunlock of a cpu that does not own the lock, and KlockEnsure of one that does, change nothing. */
  lemma NoEffect(s: State, c: nat, call: Call)
    requires Inv(s) && c < |s.pcs| && s.pcs[c] == Outside
    requires (call == CallKunlock && s.owner != Some(c)) || (call == CallKlockEnsure && s.owner == Some(c))
    ensures Advance(Enter(s, c, call), c) == s
  {
    assert Advance(Enter(s, c, call), c).pcs == s.pcs;
  }

  /** Kunlock undoes Klock. */
  lemma UnlockUndoesLock(s: State, c: nat)
    requires Inv(s) && c < |s.pcs| && s.pcs[c] == Outside && (s.owner == None || s.owner == Some(c))
    ensures var n := if s.owner == None then 4 else 3; var locked := Alone(Enter(s, c, CallKlock), c, n);
            && locked.owner == Some(c) && locked.count == s.count + 1 && locked.pcs == s.pcs
            && Alone(Enter(locked, c, CallKunlock), c, if s.owner == None then 4 else 3) == s
  {
    assert CpuOk(s, c);
    var e := Enter(s, c, CallKlock);
    var n := if s.owner == None then 4 else 3;
    Unfold(e, c);
    var locked := Alone(e, c, n);
    assert locked.pcs == s.pcs;
    var u := Enter(locked, c, CallKunlock);
    Unfold(u, c);
    var r := Alone(u, c, n);
    assert r.pcs == s.pcs && r.held == s.held;
  }

  /** KlockEnsure of a free lock takes it as Klock does. */
  lemma EnsureTakesLock(s: State, c: nat)
    requires Inv(s) && c < |s.pcs| && s.pcs[c] == Outside && s.owner == None
    ensures Alone(Enter(s, c, CallKlockEnsure), c, 4) == Alone(Enter(s, c, CallKlock), c, 4)
  {
    assert CpuOk(s, c);
    var e, k := Enter(s, c, CallKlockEnsure), Enter(s, c, CallKlock);
    Unfold(e, c);
    Unfold(k, c);
    assert Alone(e, c, 4).pcs == Alone(k, c, 4).pcs;
  }

  lemma Unfold(s: State, c: nat)
    requires WellFormed(s) && c < |s.pcs|
    ensures Alone(s, c, 3) == Advance(Advance(Advance(s, c), c), c)
    ensures Alone(s, c, 4) == Advance(Alone(s, c, 3), c)
  {
    assert Alone(s, c, 0) == s;
    assert Alone(s, c, 1) == Advance(s, c);
    assert Alone(s, c, 2) == Advance(Advance(s, c), c);
  }
}
