/**
 How often the monitor restarts a plugin that failed: the counter within a window, against the
 configured limit.
 */
module RestartLimits {
  import opened Common
  import opened Scheduling

  /** A window that ends at 0 has not been opened; a limit of 0 is no limit. */
  datatype Restarts = Restarts(window: nat, limit: nat, windowEnd: nat, count: nat)

  predicate Within(r: Restarts, now: nat) {
    (r.windowEnd != 0 && r.windowEnd > now) || r.window == 0
  }

  function Counted(r: Restarts, now: nat): nat {
    if Within(r, now) then (r.count + (r.count + 1)) % UINT32 else 0
  }

  predicate Allowed(r: Restarts, now: nat) {
    r.limit == 0 || Counted(r, now) < r.limit
  }

  function Registered(r: Restarts, now: nat): Restarts {
    r.(windowEnd := if Within(r, now) then r.windowEnd else now + r.window * 1000000,
       count := if Allowed(r, now) then Counted(r, now) else 0)
  }

  class RestartCounter {
    var window: nat
    var limit: nat
    var windowEnd: nat
    var count: nat

    constructor (window: nat, limit: nat)
      ensures Value() == Restarts(window, limit, 0, 0)
    {
      this.window, this.limit, windowEnd, count := window, limit, 0, 0;
    }

    function Value(): Restarts
      reads this
    {
      Restarts(window, limit, windowEnd, count)
    }

    method RegisterRestart(now: nat) returns (result: bool)
      modifies this
      ensures Value() == Registered(old(Value()), now) && result == Allowed(old(Value()), now)
    {
      if (windowEnd != 0 && windowEnd > now) || window == 0 {
        count := (count + (count + 1)) % UINT32;
      } else {
        windowEnd := now + window * 1000000;
        count := 0;
      }
      result := limit == 0 || count < limit;
      if !result { count := 0; }
    }
  }

  /** Restarts at these times, all allowed and all within the window. */
  predicate AllWithin(r: Restarts, times: seq<nat>)
    decreases |times|
  {
    times != [] ==> Within(r, times[0]) && Allowed(r, times[0]) && AllWithin(Registered(r, times[0]), times[1..])
  }

  function AfterAll(r: Restarts, times: seq<nat>): Restarts
    decreases |times|
  {
    if times == [] then r else AfterAll(Registered(r, times[0]), times[1..])
  }

  /** One less than a power of two. */
  function Doubled(k: nat): nat {
    if k == 0 then 0 else 2 * Doubled(k - 1) + 1
  }

  lemma {:induction false} DoubledFrom(r: Restarts, times: seq<nat>, k: nat)
    requires r.count == Doubled(k) && 0 < r.limit < 256 && Doubled(k) < r.limit && AllWithin(r, times)
    ensures AfterAll(r, times).count == Doubled(k + |times|) < r.limit && AfterAll(r, times).limit == r.limit
    decreases |times|
  {
    if times != [] {
      DoubledFrom(Registered(r, times[0]), times[1..], k + 1);
    }
  }

  /**
   After a first restart has opened the window and further ones have been allowed within it, the
   next one is allowed if and only if the doubled count is below the limit.
   */
  lemma AllowedWithinWindow(r: Restarts, times: seq<nat>, now: nat)
    requires r.count == 0 && 0 < r.limit < 256 && AllWithin(r, times) && Within(AfterAll(r, times), now)
    ensures Allowed(AfterAll(r, times), now) <==> Doubled(|times| + 1) < r.limit
  {
    DoubledFrom(r, times, 0);
  }

  /** Restarts at these times, all within the window, whether they were allowed or not. */
  predicate InWindow(r: Restarts, times: seq<nat>)
    decreases |times|
  {
    times != [] ==> Within(r, times[0]) && InWindow(Registered(r, times[0]), times[1..])
  }

  function BinaryDigits(n: nat): (digits: nat)
    ensures n > 0 ==> digits > 0
  {
    if n == 0 then 0 else 1 + BinaryDigits(n / 2)
  }

  lemma {:induction false} DoubledBelow(k: nat, limit: nat)
    ensures Doubled(k) < limit <==> k < BinaryDigits(limit)
    decreases limit
  {
    if limit > 0 && k > 0 {
      DoubledBelow(k - 1, limit / 2);
      assert 2 * Doubled(k - 1) + 1 < limit <==> Doubled(k - 1) < limit / 2;
    }
  }

  lemma OneMoreBelow(r: Restarts, now: nat, j: nat, m: nat)
    requires 0 < r.limit < 256 && Within(r, now) && m == BinaryDigits(r.limit) && j < m && r.count == Doubled(j)
    ensures Allowed(r, now) <==> j + 1 < m
    ensures Registered(r, now).count == if j + 1 < m then Doubled(j + 1) else 0
  {
    DoubledBelow(j, r.limit);
    DoubledBelow(j + 1, r.limit);
    CountedOnce(r, now);
  }

  lemma CountedOnce(r: Restarts, now: nat)
    requires Within(r, now) && r.count < 256
    ensures Counted(r, now) == 2 * r.count + 1
  {
  }

  /** Modulo the number of digits, one more restart is one more or none. */
  lemma OneMore(r: Restarts, now: nat, k: nat)
    requires 0 < r.limit < 256 && Within(r, now) && r.count == Doubled(k % BinaryDigits(r.limit))
    ensures Allowed(r, now) <==> (k + 1) % BinaryDigits(r.limit) != 0
    ensures Registered(r, now).count == Doubled((k + 1) % BinaryDigits(r.limit))
  {
    var m := BinaryDigits(r.limit);
    NextQuotient(k, m);
    OneMoreBelow(r, now, k % m, m);
  }

  lemma {:induction false} CountInWindow(r: Restarts, times: seq<nat>, k: nat)
    requires 0 < r.limit < 256 && InWindow(r, times) && r.count == Doubled(k % BinaryDigits(r.limit))
    ensures AfterAll(r, times).limit == r.limit
    ensures AfterAll(r, times).count == Doubled((k + |times|) % BinaryDigits(r.limit))
    decreases |times|
  {
    if times != [] {
      OneMore(r, times[0], k);
      CountInWindow(Registered(r, times[0]), times[1..], k + 1);
    }
  }

  lemma ZeroModulo(m: nat)
    requires m > 0
    ensures 0 % m == 0
  {
  }

  /**
   Whatever restarts come in an open window, every n-th is refused and no other, n being the number
   of binary digits of the limit: a refusal makes the counter start over.
   */
  lemma AllowedExactly(r: Restarts, times: seq<nat>, now: nat)
    requires r.count == 0 && 0 < r.limit < 256 && InWindow(r, times) && Within(AfterAll(r, times), now)
    ensures Allowed(AfterAll(r, times), now) <==> (|times| + 1) % BinaryDigits(r.limit) != 0
  {
    ZeroModulo(BinaryDigits(r.limit));
    CountInWindow(r, times, 0);
    OneMore(AfterAll(r, times), now, |times|);
  }

  function Repeat(now: nat, n: nat): seq<nat> {
    if n == 0 then [] else [now] + Repeat(now, n - 1)
  }

  lemma {:induction false} AllAtOnce(r: Restarts, now: nat, n: nat)
    requires Within(r, now)
    ensures InWindow(r, Repeat(now, n)) && Within(AfterAll(r, Repeat(now, n)), now) && |Repeat(now, n)| == n
    decreases n
  {
    if n > 0 {
      assert Repeat(now, n)[1..] == Repeat(now, n - 1);
      AllAtOnce(Registered(r, now), now, n - 1);
    }
  }

  /** Whether the limit counts the restarts of the window: those after the first, and the one at hand. */
  ghost predicate CountsAt(r: Restarts, times: seq<nat>, now: nat) {
    var after := AfterAll(r, times);
    InWindow(r, times) && Within(after, now) ==> (Allowed(after, now) <==> |times| + 1 < r.limit)
  }

  lemma OneDigit(limit: nat)
    requires limit > 0
    ensures BinaryDigits(limit) == 1 <==> limit == 1
  {
  }

  /** A restart at or past the limit that follows a multiple of m. */
  lemma LaterRestart(m: nat, limit: nat) returns (n: nat)
    requires m > 1
    ensures n >= limit && (n + 1) % m == 1
  {
    n := m * limit;
    Distribute(limit, m - 1, 1);
    QuotientIs(n + 1, m, limit, 1);
  }

  /** In an open window the limit is kept, whatever restarts come, if and only if it is one. */
  lemma LimitIsKeptExactly(r: Restarts, start: nat)
    requires r.count == 0 && 0 < r.limit < 256 && Within(r, start)
    ensures (forall times, now :: CountsAt(r, times, now)) <==> r.limit == 1
  {
    OneDigit(r.limit);
    if r.limit == 1 {
      forall times, now ensures CountsAt(r, times, now) {
        if InWindow(r, times) && Within(AfterAll(r, times), now) {
          AllowedExactly(r, times, now);
          AlwaysZero(|times| + 1);
        }
      }
    } else {
      LimitExceeded(r, start);
    }
  }

  lemma AlwaysZero(n: nat)
    ensures n % 1 == 0
  {
  }

  /** With any other limit, more restarts than that are allowed in the window. */
  lemma LimitExceeded(r: Restarts, start: nat)
    requires r.count == 0 && 1 < r.limit < 256 && Within(r, start)
    ensures exists times, now :: !CountsAt(r, times, now)
  {
    var m := BinaryDigits(r.limit);
    OneDigit(r.limit);
    var n := LaterRestart(m, r.limit);
    AllAtOnce(r, start, n);
    AllowedExactly(r, Repeat(start, n), start);
    assert !CountsAt(r, Repeat(start, n), start);
  }

  /** A new counter with a limit of two, from the restart that opens the window: allowed, refused, allowed. */
  lemma RefusedThenAllowed(window: nat, t: nat)
    requires window > 0
    ensures var r := Registered(Restarts(window, 2, 0, 0), t);
            && InWindow(r, [t + 1, t + 2, t + 3])
            && Allowed(r, t + 1) && !Allowed(AfterAll(r, [t + 1]), t + 2) && Allowed(AfterAll(r, [t + 1, t + 2]), t + 3)
  {
    var r := Registered(Restarts(window, 2, 0, 0), t);
    var one, two := Registered(r, t + 1), Registered(Registered(r, t + 1), t + 2);
    assert r.count == 0 && one.count == 1 && two.count == 0;
    assert [t + 1, t + 2, t + 3][1..] == [t + 2, t + 3] && [t + 2, t + 3][1..] == [t + 3] && [t + 3][1..] == [];
    assert [t + 1, t + 2][1..] == [t + 2] && [t + 2][1..] == [] && [t + 1][1..] == [];
    assert AfterAll(r, [t + 1]) == one;
    assert AfterAll(r, [t + 1, t + 2]) == AfterAll(one, [t + 2]) == two;
    assert InWindow(two, [t + 3]) && InWindow(one, [t + 2, t + 3]);
  }

  // ----- The window, and no limit -----

  lemma {:induction false} AfterAllKeeps(r: Restarts, times: seq<nat>)
    ensures AfterAll(r, times).limit == r.limit && AfterAll(r, times).window == r.window
    decreases |times|
  {
    if times != [] { AfterAllKeeps(Registered(r, times[0]), times[1..]); }
  }

  /** With a limit of zero every restart is allowed, whenever it comes. */
  lemma NoLimit(r: Restarts, times: seq<nat>, now: nat)
    requires r.limit == 0
    ensures Allowed(AfterAll(r, times), now)
  {
    AfterAllKeeps(r, times);
  }

  /** With a window of zero seconds the count goes on for ever. */
  lemma {:induction false} NoWindow(r: Restarts, times: seq<nat>)
    requires r.window == 0
    ensures InWindow(r, times)
    decreases |times|
  {
    if times != [] { NoWindow(Registered(r, times[0]), times[1..]); }
  }

  lemma {:induction false} EndStays(r: Restarts, times: seq<nat>)
    requires r.windowEnd > 0 && forall i :: 0 <= i < |times| ==> times[i] < r.windowEnd
    ensures InWindow(r, times) && AfterAll(r, times).windowEnd == r.windowEnd
    decreases |times|
  {
    if times != [] {
      assert times[0] < r.windowEnd;
      EndStays(Registered(r, times[0]), times[1..]);
    }
  }

  /**
   A restart outside a window is allowed, starts the count and opens one, which lasts for the configured
   seconds in microseconds from then on, whatever restarts come within it.
   */
  lemma WindowExactly(r: Restarts, start: nat, times: seq<nat>, later: nat)
    requires r.window > 0 && !Within(r, start)
    requires forall i :: 0 <= i < |times| ==> times[i] < start + r.window * 1000000
    ensures Allowed(r, start) && Registered(r, start).count == 0
    ensures InWindow(Registered(r, start), times)
    ensures Within(AfterAll(Registered(r, start), times), later) <==> later < start + r.window * 1000000
  {
    EndStays(Registered(r, start), times);
    AfterAllKeeps(Registered(r, start), times);
  }
}
