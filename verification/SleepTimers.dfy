/** The list of sleeping tasks (kernel/sleep.c): each task waits for what its predecessor leaves. The list
    refines a plain list of deadlines. */
module SleepTimers {

  const WORD: nat := 0x1_0000_0000

  /** stamp counts the insertions. */
  datatype Timer = Timer(task: nat, pendTime: nat, stamp: nat)

  datatype Deadline = Deadline(task: nat, time: nat, stamp: nat)

  // ----- The list of differences -----

  /** GlistInsert with the comparison function SleepStort, which uses up the new timer's time on the way
      and takes the rest from the timer it stops at. */
  function InsertTimer(s: seq<Timer>, t: Timer): (r: seq<Timer>)
    ensures |r| == |s| + 1
  {
    if s == [] then [t]
    else if t.pendTime >= s[0].pendTime then
      [s[0]] + InsertTimer(s[1..], t.(pendTime := t.pendTime - s[0].pendTime))
    else [t, s[0].(pendTime := s[0].pendTime - t.pendTime)] + s[1..]
  }

  /** SleepRemove: the next timer waits for what the removed one would have. */
  function RemoveTimer(s: seq<Timer>, i: nat): (r: seq<Timer>)
    requires i < |s|
    ensures |r| == |s| - 1
  {
    if i > 0 then [s[0]] + RemoveTimer(s[1..], i - 1)
    else if |s| == 1 then []
    else [s[1].(pendTime := s[1].pendTime + s[0].pendTime)] + s[2..]
  }

  /** The number of timers at the front that have no time left. */
  function Expired(s: seq<Timer>): (n: nat)
    ensures n <= |s| && (forall i :: 0 <= i < n ==> s[i].pendTime == 0) && (n < |s| ==> s[n].pendTime > 0)
  {
    if s != [] && s[0].pendTime == 0 then 1 + Expired(s[1..]) else 0
  }

  /** The decrement of SleepUpdate, in 32 bits. */
  function Ticked(s: seq<Timer>): (r: seq<Timer>)
    ensures |r| == |s|
  {
    if s == [] then [] else s[0 := s[0].(pendTime := (s[0].pendTime + WORD - 1) % WORD)]
  }

  // ----- The plain list -----

  /** The deadlines of a list, at time now. */
  function Deadlines(s: seq<Timer>, now: nat): (d: seq<Deadline>)
    ensures |d| == |s|
  {
    if s == [] then []
    else [Deadline(s[0].task, now + s[0].pendTime, s[0].stamp)] + Deadlines(s[1..], now + s[0].pendTime)
  }

  /** Insertion into a list of deadlines, behind those that are not later. */
  function InsertDeadline(d: seq<Deadline>, x: Deadline): seq<Deadline> {
    if d == [] || x.time < d[0].time then [x] + d else [d[0]] + InsertDeadline(d[1..], x)
  }

  // ----- Refinement -----

  lemma DeadlinesCons(t: Timer, s: seq<Timer>, now: nat)
    ensures Deadlines([t] + s, now) == [Deadline(t.task, now + t.pendTime, t.stamp)] + Deadlines(s, now + t.pendTime)
  {
    assert ([t] + s)[1..] == s;
  }

  lemma InsertCons(d: Deadline, rest: seq<Deadline>, x: Deadline)
    ensures InsertDeadline([d] + rest, x) == if x.time < d.time then [x] + ([d] + rest)
              else [d] + InsertDeadline(rest, x)
  {
    assert ([d] + rest)[1..] == rest;
  }

  /** Inserting a timer changes no other deadline, and the new one is its own time from now. */
  lemma {:induction false} InsertRefines(s: seq<Timer>, t: Timer, now: nat)
    ensures Deadlines(InsertTimer(s, t), now)
         == InsertDeadline(Deadlines(s, now), Deadline(t.task, now + t.pendTime, t.stamp))
  {
    var x := Deadline(t.task, now + t.pendTime, t.stamp);
    if s == [] {
      DeadlinesCons(t, [], now);
    } else {
      var h, rest := s[0], s[1..];
      assert s == [h] + rest;
      DeadlinesCons(h, rest, now);
      InsertCons(Deadline(h.task, now + h.pendTime, h.stamp), Deadlines(rest, now + h.pendTime), x);
      if t.pendTime >= h.pendTime {
        var t' := t.(pendTime := t.pendTime - h.pendTime);
        InsertRefines(rest, t', now + h.pendTime);
        assert InsertTimer(s, t) == [h] + InsertTimer(rest, t');
        hide Deadlines, InsertTimer, InsertDeadline;
        DeadlinesCons(h, InsertTimer(rest, t'), now);
      } else {
        var h' := h.(pendTime := h.pendTime - t.pendTime);
        assert InsertTimer(s, t) == [t] + ([h'] + rest);
        hide Deadlines, InsertTimer, InsertDeadline;
        DeadlinesCons(t, [h'] + rest, now);
        DeadlinesCons(h', rest, now + t.pendTime);
      }
    }
  }

  /** Removing a timer changes no other deadline. */
  lemma {:induction false} RemoveRefines(s: seq<Timer>, i: nat, now: nat)
    requires i < |s|
    ensures Deadlines(RemoveTimer(s, i), now) == Deadlines(s, now)[..i] + Deadlines(s, now)[i + 1..]
  {
    var h, rest, d := s[0], s[1..], Deadlines(s, now);
    var e := Deadlines(rest, now + h.pendTime);
    assert s == [h] + rest;
    DeadlinesCons(h, rest, now);
    if i > 0 {
      RemoveRefines(rest, i - 1, now + h.pendTime);
      assert RemoveTimer(s, i) == [h] + RemoveTimer(rest, i - 1);
      DeadlinesCons(h, RemoveTimer(rest, i - 1), now);
      assert d[..i] + d[i + 1..] == [d[0]] + (e[..i - 1] + e[i..]);
    } else {
      assert d[..0] + d[1..] == e;
      if rest != [] {
        var g := rest[0];
        var g' := g.(pendTime := g.pendTime + h.pendTime);
        assert rest == [g] + rest[1..] && RemoveTimer(s, 0) == [g'] + rest[1..];
        DeadlinesCons(g, rest[1..], now + h.pendTime);
        DeadlinesCons(g', rest[1..], now);
      }
    }
  }

  /** Timers without time left, at the front, are due now. */
  lemma {:induction false} DeadlinesSplit(s: seq<Timer>, n: nat, now: nat)
    requires n <= |s| && forall i :: 0 <= i < n ==> s[i].pendTime == 0
    ensures Deadlines(s, now)[n..] == Deadlines(s[n..], now)
    ensures forall i :: 0 <= i < n ==> Deadlines(s, now)[i].time == now
  {
    if n > 0 {
      var d := Deadlines(s, now);
      DeadlinesSplit(s[1..], n - 1, now);
      assert d[1..] == Deadlines(s[1..], now);
      assert s[1..][n - 1..] == s[n..] && d[n..] == d[1..][n - 1..];
      assert forall i :: 0 < i < n ==> d[i] == d[1..][i - 1];
    } else {
      assert s[0..] == s;
    }
  }

  lemma {:induction false} DeadlineAtLeast(s: seq<Timer>, n: nat, i: nat, now: nat)
    requires n <= i < |s|
    ensures Deadlines(s, now)[i].time >= now + s[n].pendTime
    decreases i
  {
    if i > 0 {
      DeadlineAtLeast(s[1..], if n == 0 then 0 else n - 1, i - 1, now + s[0].pendTime);
    }
  }

  /** A tick changes no deadline; what it removes are exactly the timers whose deadline it is. */
  lemma TickRefines(s: seq<Timer>, now: nat)
    requires s != [] ==> 0 < s[0].pendTime < WORD
    ensures var u := Ticked(s); var n, d := Expired(u), Deadlines(s, now);
            && d[n..] == Deadlines(u[n..], now + 1)
            && forall i :: 0 <= i < |d| ==> (i < n <==> d[i].time == now + 1)
  {
    if s != [] {
      var h, u := s[0], Ticked(s);
      Decremented(h.pendTime);
      var h' := h.(pendTime := h.pendTime - 1);
      assert s == [h] + s[1..] && u == [h'] + s[1..];
      DeadlinesCons(h, s[1..], now);
      DeadlinesCons(h', s[1..], now + 1);
      var n, d := Expired(u), Deadlines(s, now);
      hide Deadlines, Expired;
      DeadlinesSplit(u, n, now + 1);
      forall i | n <= i < |d|
        ensures d[i].time > now + 1
      {
        DeadlineAtLeast(u, n, i, now + 1);
      }
    }
  }

  lemma Decremented(x: nat)
    requires 0 < x < WORD
    ensures (x + WORD - 1) % WORD == x - 1
  {
  }

  // ----- A time of zero -----

  /** The list is ready for a tick, with time left at the front, exactly if the new timer has some. */
  lemma InsertFront(s: seq<Timer>, t: Timer)
    requires s != [] ==> s[0].pendTime > 0
    ensures InsertTimer(s, t)[0].pendTime > 0 <==> t.pendTime > 0
  {
  }

  function Shifted(d: seq<Deadline>, k: nat): seq<Deadline> {
    if d == [] then [] else [d[0].(time := d[0].time + k)] + Shifted(d[1..], k)
  }

  lemma {:induction false} DeadlinesShift(s: seq<Timer>, now: nat, k: nat)
    ensures Deadlines(s, now + k) == Shifted(Deadlines(s, now), k)
  {
    if s != [] {
      var h, rest := s[0], s[1..];
      DeadlinesShift(rest, now + h.pendTime, k);
      assert now + k + h.pendTime == now + h.pendTime + k;
      assert Deadlines(s, now)[1..] == Deadlines(rest, now + h.pendTime);
    }
  }

  /** A timer of zero does not fire on the next tick: the decrement wraps, and every deadline moves by 2^32. */
  lemma ZeroWraps(s: seq<Timer>, t: Timer, now: nat)
    requires (s != [] ==> s[0].pendTime > 0) && t.pendTime == 0
    ensures var r := InsertTimer(s, t); var u := Ticked(r);
            Expired(u) == 0 && Deadlines(u, now + 1) == Shifted(Deadlines(r, now), WORD)
  {
    var r := InsertTimer(s, t);
    var t', rest := t.(pendTime := WORD - 1), r[1..];
    assert r == [t] + rest && Ticked(r) == [t'] + rest;
    DeadlinesCons(t, rest, now);
    DeadlinesCons(t', rest, now + 1);
    DeadlinesShift(rest, now, WORD);
    assert Deadlines(r, now)[1..] == Deadlines(rest, now);
  }
}
