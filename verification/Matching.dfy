/** Blocked segments are matched pairs of a blocking switch-out and the next wakeup. */
module Matching {
  import opened Events
  import opened Tables
  import opened SoftIndexes
  import opened Breaking
  import opened Tiling
  import opened Partition

  /** Events that concern the thread's waiting at all. */
  ghost predicate Touches(pid: int, sw: Switch) {
    Out(pid, sw) || In(pid, sw) || Wakes(pid, sw)
  }

  /** At i the thread is switched out to block; j is the next event that touches it, and a wakeup. */
  ghost predicate WaitPair(pid: int, swl: seq<Switch>, i: int, j: int) {
    && 0 <= i < j < |swl|
    && Out(pid, swl[i]) && swl[i].prevState != 0
    && Wakes(pid, swl[j])
    && forall n :: i < n < j ==> !Touches(pid, swl[n])
  }

  ghost function WaitSeg(pid: int, swl: seq<Switch>, i: int, j: int): Seg
    requires WaitPair(pid, swl, i, j)
  {
    Seg(pid, BLOCKED, swl[i].time, swl[j].time, if swl[j].ctx == PROCESS then swl[j].prevPid else -swl[j].ctx)
  }

  /** Nothing happens to a thread that no event touches. */
  lemma {:induction false} Quiet(pid: int, ps0: PrevState, swl: seq<Switch>, a: nat, b: nat)
    requires a <= b <= |swl| && forall n :: a <= n < b ==> !Touches(pid, swl[n])
    ensures Ps(pid, ps0, swl, b) == Ps(pid, ps0, swl, a)
    decreases b
  {
    if a < b { Quiet(pid, ps0, swl, a, b - 1); }
  }

  /** A blocked thread was switched out to block, and nothing touched it since. */
  lemma {:induction false} WhyBlocked(pid: int, ps0: PrevState, swl: seq<Switch>, n: nat) returns (i: nat)
    requires n <= |swl| && ps0.state == UNSEEN && Ps(pid, ps0, swl, n).state == BLOCKED
    ensures i < n && Out(pid, swl[i]) && swl[i].prevState != 0 && Ps(pid, ps0, swl, n).time == swl[i].time
    ensures forall m :: i < m < n ==> !Touches(pid, swl[m])
    ensures forall m :: i < m <= n ==> Ps(pid, ps0, swl, m) == Ps(pid, ps0, swl, n)
  {
    i := LastEvent(pid, ps0, swl, n);
  }

  /** A pair whose segment no later event replaces: one with time between its events, or the last thing that happens to the
      thread. */
  ghost predicate KeptPair(pid: int, swl: seq<Switch>, i: int, j: int, n: int) {
    && WaitPair(pid, swl, i, j) && j < n <= |swl|
    && (swl[i].time < swl[j].time || forall m :: j < m < n ==> !Out(pid, swl[m]) && !In(pid, swl[m]))
  }

  /** The state before, at and after the wakeup of a pair. */
  lemma PairStates(pid: int, ps0: PrevState, swl: seq<Switch>, i: nat, j: nat, n: nat)
    requires WaitPair(pid, swl, i, j)
    ensures i < n <= j ==> Ps(pid, ps0, swl, n) == PrevState(swl[i].time, BLOCKED)
    ensures Ps(pid, ps0, swl, j + 1) == PrevState(swl[j].time, RUNNABLE)
  {
    if i < n <= j { Quiet(pid, ps0, swl, i + 1, n); }
    Quiet(pid, ps0, swl, i + 1, j);
  }

  /** After a wakeup only being switched in or out changes what is known. */
  lemma {:induction false} StillRunnable(pid: int, ps0: PrevState, swl: seq<Switch>, j: nat, n: nat)
    requires j < n <= |swl| && Ps(pid, ps0, swl, j + 1).state == RUNNABLE
    requires forall m :: j < m < n ==> !Out(pid, swl[m]) && !In(pid, swl[m])
    ensures Ps(pid, ps0, swl, n) == Ps(pid, ps0, swl, j + 1)
  {
    if j + 1 < n { StillRunnable(pid, ps0, swl, j, n - 1); }
  }

  /** A pair stays kept over one more event that does not store under its start. */
  lemma KeepsPair(pid: int, ps0: PrevState, swl: seq<Switch>, i: nat, j: nat, n: nat)
    requires Sorted(swl) && n < |swl| && KeptPair(pid, swl, i, j, n)
    requires Out(pid, swl[n]) || In(pid, swl[n]) ==> swl[i].time != Ps(pid, ps0, swl, n).time
    ensures KeptPair(pid, swl, i, j, n + 1)
  {
    if swl[i].time == swl[j].time {
      PairStates(pid, ps0, swl, i, j, 0);
      StillRunnable(pid, ps0, swl, j, n);
    }
  }

  /** What event n stores leaves every blocked segment but its own, if it stores one, as it was. */
  lemma BlockedBefore(pid: int, ix: SoftIndex, ps: PrevState, sw: Switch, m: Table, k: u64)
    requires Out(pid, sw) ==> !Straddles(ix, ps.time, sw)
    requires var r := PutAll(m, Puts(pid, ix, ps, sw)); k in r && r[k].state == BLOCKED
    ensures (Wakes(pid, sw) && ps.state == BLOCKED && k == ps.time
             && PutAll(m, Puts(pid, ix, ps, sw))[k] == Seg(pid, BLOCKED, k, sw.time, Waker(sw)))
      || (k in m && m[k] == PutAll(m, Puts(pid, ix, ps, sw))[k] && (Out(pid, sw) || In(pid, sw) ==> k != ps.time))
  {
    if Out(pid, sw) || In(pid, sw) {
      PutsStart(pid, ix, ps, sw);
      PutAllFrom(m, Puts(pid, ix, ps, sw), ps.time);
      NotReplaced(pid, ix, ps, sw, m, k);
    } else if Effective(pid, ps.state, sw) {
      PutOne(m, Puts(pid, ix, ps, sw)[0]);
    }
  }

  /** A wakeup of a blocked thread ends a pair. */
  lemma NewPair(pid: int, ps0: PrevState, swl: seq<Switch>, j: nat) returns (i: nat)
    requires j < |swl| && ps0.state == UNSEEN && Wakes(pid, swl[j]) && Ps(pid, ps0, swl, j).state == BLOCKED
    ensures KeptPair(pid, swl, i, j, j + 1) && Ps(pid, ps0, swl, j).time == swl[i].time
    ensures WaitSeg(pid, swl, i, j) == Seg(pid, BLOCKED, Ps(pid, ps0, swl, j).time, swl[j].time, Waker(swl[j]))
  {
    i := WhyBlocked(pid, ps0, swl, j);
  }

  /** Every blocked segment comes from a pair that is kept. */
  lemma {:induction false} BlockedIsPair(pid: int, ix: SoftIndex, ps0: PrevState, swl: seq<Switch>, n: nat, k: u64)
    returns (i: nat, j: nat)
    requires n <= |swl| && ps0.state == UNSEEN && NoStraddle(pid, ix, ps0, swl) && Sorted(swl)
    requires k in Real(pid, ix, ps0, swl, n) && Real(pid, ix, ps0, swl, n)[k].state == BLOCKED
    ensures KeptPair(pid, swl, i, j, n) && Real(pid, ix, ps0, swl, n)[k] == WaitSeg(pid, swl, i, j) && k == swl[i].time
  {
    var ps, sw := Ps(pid, ps0, swl, n - 1), swl[n - 1];
    SeenOrNot(pid, ix, ps0, swl, n - 1);
    assert CleanAt(pid, ix, ps0, swl, n - 1);
    BlockedBefore(pid, ix, ps, sw, Real(pid, ix, ps0, swl, n - 1), k);
    if Wakes(pid, sw) && ps.state == BLOCKED && k == ps.time {
      i := NewPair(pid, ps0, swl, n - 1);
      j := n - 1;
    } else {
      i, j := BlockedIsPair(pid, ix, ps0, swl, n - 1, k);
      KeepsPair(pid, ps0, swl, i, j, n - 1);
    }
  }

  /** Being switched in or out replaces what is stored under the time last known. */
  lemma NotReplaced(pid: int, ix: SoftIndex, ps: PrevState, sw: Switch, m: Table, k: u64)
    requires (Out(pid, sw) || In(pid, sw)) && (Out(pid, sw) ==> !Straddles(ix, ps.time, sw))
    requires k in PutAll(m, Puts(pid, ix, ps, sw)) && PutAll(m, Puts(pid, ix, ps, sw))[k].state == BLOCKED
    ensures k != ps.time
  {
    if Out(pid, sw) { PutRunPieces(m, pid, ix, ps.time, sw); } else { PutOne(m, Puts(pid, ix, ps, sw)[0]); }
  }

  /** What happens after a kept pair is stored later. */
  lemma StoredLater(pid: int, ps0: PrevState, swl: seq<Switch>, i: nat, j: nat, n: nat)
    requires Sorted(swl) && n < |swl| && KeptPair(pid, swl, i, j, n + 1) && j < n
    ensures Effective(pid, Ps(pid, ps0, swl, n).state, swl[n]) ==> swl[i].time < Ps(pid, ps0, swl, n).time
  {
    if swl[i].time == swl[j].time {
      PairStates(pid, ps0, swl, i, j, 0);
      StillRunnable(pid, ps0, swl, j, n);
    } else {
      Monotone(pid, ps0, swl, i, j, n);
    }
  }

  /** The wakeup of a pair stores its segment. */
  lemma PairPut(pid: int, ix: SoftIndex, ps0: PrevState, swl: seq<Switch>, i: nat, j: nat)
    requires WaitPair(pid, swl, i, j) && ps0.state == UNSEEN
    ensures swl[i].time in Real(pid, ix, ps0, swl, j + 1)
    ensures Real(pid, ix, ps0, swl, j + 1)[swl[i].time] == WaitSeg(pid, swl, i, j)
  {
    PairStates(pid, ps0, swl, i, j, j);
    PutOne(Real(pid, ix, ps0, swl, j), Puts(pid, ix, Ps(pid, ps0, swl, j), swl[j])[0]);
  }

  lemma SegmentStays(pid: int, ix: SoftIndex, ps0: PrevState, swl: seq<Switch>, n: nat, k: u64)
    requires 0 < n <= |swl| && NoStraddle(pid, ix, ps0, swl) && k in Real(pid, ix, ps0, swl, n - 1)
    requires Effective(pid, Ps(pid, ps0, swl, n - 1).state, swl[n - 1]) ==> k < Ps(pid, ps0, swl, n - 1).time
    ensures k in Real(pid, ix, ps0, swl, n) && Real(pid, ix, ps0, swl, n)[k] == Real(pid, ix, ps0, swl, n - 1)[k]
  {
    assert CleanAt(pid, ix, ps0, swl, n - 1);
    EarlierStays(pid, ix, Ps(pid, ps0, swl, n - 1), swl[n - 1], Real(pid, ix, ps0, swl, n - 1), k);
  }

  lemma PairStays(pid: int, ix: SoftIndex, ps0: PrevState, swl: seq<Switch>, n: nat, i: nat, j: nat)
    requires n <= |swl| && Sorted(swl) && NoStraddle(pid, ix, ps0, swl) && KeptPair(pid, swl, i, j, n) && j < n - 1
    requires swl[i].time in Real(pid, ix, ps0, swl, n - 1)
    ensures swl[i].time in Real(pid, ix, ps0, swl, n)
    ensures Real(pid, ix, ps0, swl, n)[swl[i].time] == Real(pid, ix, ps0, swl, n - 1)[swl[i].time]
  {
    StoredLater(pid, ps0, swl, i, j, n - 1);
    SegmentStays(pid, ix, ps0, swl, n, swl[i].time);
  }

  /** Every pair that is kept leaves its segment. */
  lemma {:induction false} PairIsBlocked(pid: int, ix: SoftIndex, ps0: PrevState, swl: seq<Switch>, n: nat, i: nat, j: nat)
    requires n <= |swl| && ps0.state == UNSEEN && Sorted(swl) && NoStraddle(pid, ix, ps0, swl)
    requires KeptPair(pid, swl, i, j, n)
    ensures swl[i].time in Real(pid, ix, ps0, swl, n)
    ensures Real(pid, ix, ps0, swl, n)[swl[i].time] == WaitSeg(pid, swl, i, j)
    decreases n
  {
    if j == n - 1 {
      PairPut(pid, ix, ps0, swl, i, j);
    } else {
      assert KeptPair(pid, swl, i, j, n - 1);
      PairIsBlocked(pid, ix, ps0, swl, n - 1, i, j);
      PairStays(pid, ix, ps0, swl, n, i, j);
    }
  }

  /** After the wakeup of a pair the last known event is that wakeup or a later one. */
  lemma {:induction false} Monotone(pid: int, ps0: PrevState, swl: seq<Switch>, i: nat, j: nat, n: nat)
    requires Sorted(swl) && WaitPair(pid, swl, i, j) && j < n <= |swl|
    ensures swl[j].time <= Ps(pid, ps0, swl, n).time
  {
    if j == n - 1 {
      Quiet(pid, ps0, swl, i + 1, j);
    } else {
      Monotone(pid, ps0, swl, i, j, n - 1);
    }
  }

  /** What a stored wait tells of the events it came from, and of the thread's state before a given event. */
  lemma WaitStored(pid: int, ix: SoftIndex, swl: seq<Switch>, k: u64, n: nat) returns (i: nat, j: nat)
    requires swl != [] && Sorted(swl) && Clean(pid, ix, swl)
    requires k in RealTable(pid, ix, swl) && RealTable(pid, ix, swl)[k].state == BLOCKED
    ensures i < j < |swl| && swl[i].kind == WAIT && swl[i].time == k && swl[j].kind == WAKEUP
    ensures RealTable(pid, ix, swl)[k].waitFor == Waker(swl[j]) && RealTable(pid, ix, swl)[k].etime == swl[j].time
    ensures Ps(pid, InitialState(pid, swl), swl, j + 1) == PrevState(swl[j].time, RUNNABLE)
    ensures i < n <= j ==> Ps(pid, InitialState(pid, swl), swl, n).state == BLOCKED
  {
    i, j := BlockedIsPair(pid, ix, InitialState(pid, swl), swl, |swl|, k);
    PairStates(pid, InitialState(pid, swl), swl, i, j, n);
  }

  /** Wait and wakeup matching: a thread's map holds a blocked segment of positive length exactly for each blocking
      switch-out whose next touching event is a later wakeup. */
  lemma MatchingIff(pid: int, ix: SoftIndex, swl: seq<Switch>, v: Seg)
    requires swl != [] && Sorted(swl) && Clean(pid, ix, swl) && v.state == BLOCKED && v.stime < v.etime
    ensures v.stime in RealTable(pid, ix, swl) && RealTable(pid, ix, swl)[v.stime] == v
      <==> exists i, j :: WaitPair(pid, swl, i, j) && v == WaitSeg(pid, swl, i, j)
  {
    var ps0 := InitialState(pid, swl);
    if v.stime in RealTable(pid, ix, swl) && RealTable(pid, ix, swl)[v.stime] == v {
      var i, j := BlockedIsPair(pid, ix, ps0, swl, |swl|, v.stime);
    }
    if i, j :| WaitPair(pid, swl, i, j) && v == WaitSeg(pid, swl, i, j) {
      assert KeptPair(pid, swl, i, j, |swl|);
      PairIsBlocked(pid, ix, ps0, swl, |swl|, i, j);
    }
  }

  /** The waits of the finished map, read off the trace: from s to e for q. A wait that starts at the thread's exit is cut
      to nothing, and a thread that does not exit ends in a wait of length zero for the unknown. */
  ghost predicate StoredWait(pid: int, swl: seq<Switch>, s: int, e: int, q: int)
    requires swl != []
  {
    if ExitTime(pid, swl).None? && s == TraceEnd(swl) then e == s && q == -UNKNOWN
    else exists i, j :: KeptPair(pid, swl, i, j, |swl|) && s == swl[i].time && q == WaitSeg(pid, swl, i, j).waitFor
           && e == if ExitTime(pid, swl) == Some(swl[i].time) then s else swl[j].time
  }

  /** The kept pairs are exactly the waits of the map. */
  lemma PairsStored(pid: int, ix: SoftIndex, swl: seq<Switch>, s: u64, v: Seg)
    requires swl != [] && Sorted(swl) && Clean(pid, ix, swl)
    ensures s in RealTable(pid, ix, swl) && RealTable(pid, ix, swl)[s] == v && v.state == BLOCKED
      <==> exists i, j :: KeptPair(pid, swl, i, j, |swl|) && s == swl[i].time && v == WaitSeg(pid, swl, i, j)
  {
    var ps0 := InitialState(pid, swl);
    if s in RealTable(pid, ix, swl) && RealTable(pid, ix, swl)[s] == v && v.state == BLOCKED {
      var i, j := BlockedIsPair(pid, ix, ps0, swl, |swl|, s);
    }
    if i, j :| KeptPair(pid, swl, i, j, |swl|) && s == swl[i].time && v == WaitSeg(pid, swl, i, j) {
      PairIsBlocked(pid, ix, ps0, swl, |swl|, i, j);
    }
  }

  /** The finished map of any thread holds exactly the waits the trace tells of, those of length zero included. */
  lemma MatchingFinished(pid: int, ix: SoftIndex, swl: seq<Switch>, s: u64, e: u64, q: int)
    requires swl != [] && Sorted(swl) && Clean(pid, ix, swl) && (ExitTime(pid, swl).Some? ==> Seen(pid, swl))
    ensures var m := Broken(pid, ix, InitialState(pid, swl), swl, map[]);
      m.Some? && (s in m.value && m.value[s] == Seg(pid, BLOCKED, s, e, q) <==> StoredWait(pid, swl, s, e, q))
  {
    if ExitTime(pid, swl).None? {
      NoExitTable(pid, ix, swl);
      PairsStored(pid, ix, swl, s, Seg(pid, BLOCKED, s, e, q));
    } else {
      EarlyIs(pid, ix, swl);
      var z := ExitTable(pid, ix, swl);
      RealTiles(pid, ix, InitialState(pid, swl), swl, |swl|);
      if s == z.stime {
        if s in RealTable(pid, ix, swl) { PairsStored(pid, ix, swl, s, RealTable(pid, ix, swl)[s]); }
        forall i, j | KeptPair(pid, swl, i, j, |swl|) && s == swl[i].time
          ensures s in RealTable(pid, ix, swl) && RealTable(pid, ix, swl)[s] == WaitSeg(pid, swl, i, j)
        {
          PairsStored(pid, ix, swl, s, WaitSeg(pid, swl, i, j));
        }
      } else {
        PairsStored(pid, ix, swl, s, Seg(pid, BLOCKED, s, e, q));
      }
    }
  }

  /** Two wakeups sent by the same thread, or from the same context. */
  predicate SameSender(a: Switch, b: Switch) {
    if a.ctx == PROCESS then b.ctx == PROCESS && a.prevPid == b.prevPid else a.ctx == b.ctx
  }

  predicate FromThreadZero(sw: Switch) { sw.ctx == PROCESS && sw.prevPid == 0 }

  /** What is recorded as waited for tells the senders apart, except for the idle thread and HI_SOFTIRQ. */
  lemma WakerTellsSender(a: Switch, b: Switch)
    requires 0 <= a.prevPid && 0 <= a.ctx && 0 <= b.prevPid && 0 <= b.ctx
    ensures Waker(a) == Waker(b)
      <==> SameSender(a, b) || (FromThreadZero(a) && b.ctx == HI_SOFTIRQ) || (a.ctx == HI_SOFTIRQ && FromThreadZero(b))
  {
  }

  /** Different pairs with time between their events start at different times, so the matching is one to one. */
  lemma PairsDiffer(pid: int, swl: seq<Switch>, i: int, j: int, i': int, j': int)
    requires Sorted(swl) && WaitPair(pid, swl, i, j) && WaitPair(pid, swl, i', j')
    requires swl[i].time < swl[j].time && swl[i'].time < swl[j'].time && swl[i].time == swl[i'].time
    ensures i == i' && j == j'
  {
    if i < i' {
      if i' < j { assert Touches(pid, swl[i']); }
    } else if i' < i {
      if i < j' { assert Touches(pid, swl[i]); }
    } else if j < j' {
      assert Touches(pid, swl[j]);
    } else if j' < j {
      assert Touches(pid, swl[j']);
    }
  }
}
