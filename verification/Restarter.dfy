/** The limit on how often a supervised process is started (manager/process.go). */
module Restarters {
  import opened Wrappers

  function Min(a: int, b: int): int {
    if a < b then a else b
  }

  /** Start times never go back. */
  predicate InOrder(starts: seq<int>) {
    forall i, j :: 0 <= i <= j < |starts| ==> starts[i] <= starts[j]
  }

  /** Any m + 1 starts in a row take at least gap. */
  predicate Spaced(starts: seq<int>, m: nat, gap: int) {
    forall i :: 0 <= i < |starts| - m ==> starts[i + m] >= starts[i] + gap
  }

  lemma {:induction false} KRounds(starts: seq<int>, m: nat, gap: int, i: nat, k: nat)
    requires Spaced(starts, m, gap) && i + k * m < |starts|
    ensures starts[i + k * m] >= starts[i] + k * gap
    decreases k
  {
    if k > 0 {
      assert k * m == (k - 1) * m + m && k * gap == (k - 1) * gap + gap;
      KRounds(starts, m, gap, i, k - 1);
    }
  }

  /** An interval shorter than k gaps holds at most k * m starts. */
  lemma StartsInInterval(starts: seq<int>, m: nat, gap: int, i: nat, j: nat, k: nat)
    requires InOrder(starts) && Spaced(starts, m, gap) && i <= j < |starts|
    requires starts[j] - starts[i] < k * gap
    ensures j - i + 1 <= k * m
  {
    if j - i >= k * m {
      KRounds(starts, m, gap, i, k);
    }
  }

  class Restarter {
    const maxRestarts: nat
    const restartPeriod: int
    const cooldownPeriod: int
    const rs: array<Option<int>>
    /** The last time read from the clock, which never goes back. */
    var clock: int
    /** Every start so far, oldest first. */
    ghost var starts: seq<int>

    ghost predicate Valid()
      reads this, rs
    {
      && rs.Length == maxRestarts >= 1
      && (forall i :: 0 <= i < rs.Length ==>
            rs[i] == if i < |starts| then Some(starts[|starts| - 1 - i]) else None)
      && InOrder(starts) && (starts != [] ==> starts[|starts| - 1] <= clock)
      && Spaced(starts, maxRestarts, Min(restartPeriod, cooldownPeriod))
    }

    constructor (maxRestarts: nat, restartPeriod: int, cooldownPeriod: int, clock: int)
      requires maxRestarts >= 1
      ensures Valid() && fresh(rs) && starts == []
    {
      this.maxRestarts, this.restartPeriod, this.cooldownPeriod := maxRestarts, restartPeriod, cooldownPeriod;
      this.clock, this.starts := clock, [];
      rs := new Option<int>[maxRestarts](_ => None);
    }

    method Now() returns (t: int)
      modifies this`clock
      ensures t == clock >= old(clock)
    {
      var passed :| passed >= 0;
      clock := clock + passed;
      t := clock;
    }

    /** Sleeps for d unless told to die. */
    method Sleep(d: int) returns (died: bool)
      modifies this`clock
      ensures clock >= old(clock) && (died <==> clock < old(clock) + d)
    {
      if d <= 0 {
        return false;
      }
      var passed :| passed >= 0;
      clock := clock + passed;
      died := passed < d;
    }

    /** There are maxRestarts starts on record and the oldest is recent at time t. */
    ghost predicate Crowded(t: int)
      reads this
      requires maxRestarts >= 1
    {
      |starts| >= maxRestarts && t - starts[|starts| - maxRestarts] < restartPeriod
    }

    /** How long to sleep: the cooldown exactly if the oldest start on record is recent. */
    method ShouldSleep() returns (d: int)
      requires Valid()
      modifies this`clock
      ensures Valid() && clock >= old(clock)
      ensures d == if Crowded(clock) then cooldownPeriod else 0
    {
      if rs[0].None? {
        return 0;
      }
      var oldest := rs[rs.Length - 1];
      if oldest.None? {
        return 0;
      }
      var now := Now();
      return if now - oldest.value < restartPeriod then cooldownPeriod else 0;
    }

    /** The loop of shift: every record moves up by one and the oldest is forgotten. */
    method MoveUp()
      requires rs.Length >= 1
      modifies rs
      ensures forall j :: 0 < j < rs.Length ==> rs[j] == old(rs[j - 1])
    {
      var i := rs.Length - 1;
      while i > 0
        invariant 0 <= i < rs.Length
        invariant forall j :: 0 <= j <= i ==> rs[j] == old(rs[j])
        invariant forall j :: i < j < rs.Length ==> rs[j] == old(rs[j - 1])
      {
        rs[i] := rs[i - 1];
        i := i - 1;
      }
    }

    /** Notes the current time as the newest start. */
    method Shift()
      requires Valid()
      requires |starts| >= maxRestarts ==>
                 clock >= starts[|starts| - maxRestarts] + Min(restartPeriod, cooldownPeriod)
      modifies this, rs
      ensures Valid() && starts == old(starts) + [clock] && clock >= old(clock)
    {
      MoveUp();
      var now := Now();
      rs[0] := Some(now);
      starts := starts + [now];
    }

    /** Lets the process start once the limit allows it: whatever the clock and the
        processes do, start i + maxRestarts comes at least
        Min(restartPeriod, cooldownPeriod) after start i. */
    method RequestStart() returns (shouldExit: bool)
      requires Valid()
      modifies this, rs
      ensures Valid()
      ensures shouldExit ==> starts == old(starts) && old(Crowded(clock)) && cooldownPeriod > 0
      ensures !shouldExit ==> starts == old(starts) + [clock]
    {
      shouldExit := false;
      var d := ShouldSleep();
      if d > 0 {
        shouldExit := Sleep(d);
        if shouldExit {
          return;
        }
      }
      Shift();
    }
  }
}
