/**
 The arithmetic of the monitor: the common interval of two checks, the counters that are run down
 by it, the time slots that keep their phase, and the restart counter.
 */
module Scheduling {

  // ----- The common interval -----

  function Gcd(a: nat, b: nat): nat
    decreases b
  {
    if b == 0 then a else Gcd(b, a % b)
  }

  ghost predicate Divides(d: nat, n: nat) {
    exists q: nat :: n == d * q
  }

  lemma Distribute(d: nat, x: int, y: int)
    ensures d * (x + y) == d * x + d * y
  {
  }

  lemma Associate(d: nat, x: nat, y: nat)
    ensures d * (x * y) == (d * x) * y
  {
  }

  lemma Negative(d: nat, z: int)
    requires d > 0 && z < 0
    ensures d * z + d <= 0
  {
  }

  lemma Positive(d: nat, z: int)
    requires z > 0
    ensures d * z >= d
  {
  }

  lemma DividesSum(d: nat, a: nat, b: nat, q: nat)
    requires Divides(d, a) && Divides(d, b)
    ensures Divides(d, b * q + a)
  {
    var x: nat :| a == d * x;
    var y: nat :| b == d * y;
    Associate(d, y, q);
    Distribute(d, y * q, x);
    assert b * q + a == d * (y * q + x);
  }

  lemma DividesDifference(d: nat, a: nat, b: nat, q: nat, r: nat)
    requires d > 0 && Divides(d, a) && Divides(d, b) && a == b * q + r
    ensures Divides(d, r)
  {
    var x: nat :| a == d * x;
    var y: nat :| b == d * y;
    Associate(d, y, q);
    Distribute(d, x, -(y * q));
    Distribute(d, y * q, -(y * q));
    if x < y * q { Negative(d, x - y * q); }
    assert r == d * (x - y * q);
  }

  lemma {:induction false} GcdDivides(a: nat, b: nat)
    ensures Divides(Gcd(a, b), a) && Divides(Gcd(a, b), b)
    decreases b
  {
    if b == 0 {
      assert a == a * 1 && 0 == a * 0;
    } else {
      GcdDivides(b, a % b);
      DividesSum(Gcd(a, b), a % b, b, a / b);
    }
  }

  lemma {:induction false} GcdPositive(a: nat, b: nat)
    ensures a > 0 || b > 0 ==> Gcd(a, b) > 0
    decreases b
  {
    if b > 0 { GcdPositive(b, a % b); }
  }

  /** The result divides both numbers, and whatever divides both divides it. */
  lemma {:induction false} GcdIsGreatest(a: nat, b: nat, d: nat)
    requires d > 0 && Divides(d, a) && Divides(d, b)
    ensures Divides(d, Gcd(a, b)) && Divides(Gcd(a, b), a) && Divides(Gcd(a, b), b)
    decreases b
  {
    GcdDivides(a, b);
    if b > 0 {
      DividesDifference(d, a, b, a / b, a % b);
      GcdIsGreatest(b, a % b, d);
    }
  }

  // ----- Counters -----

  lemma Subtract(d: nat, x: int, y: int)
    ensures d * (x - y) == d * x - d * y
  {
  }

  lemma OneQuotient(q: nat, m: int, s: nat, k: int, r: nat)
    requires q * m + s == q * k + r && s < q && r < q
    ensures m == k && s == r
  {
    Subtract(q, m, k);
    if m > k { Positive(q, m - k); }
    if m < k { Negative(q, m - k); }
  }

  lemma QuotientIs(n: nat, q: nat, k: nat, r: nat)
    requires q > 0 && n == q * k + r && r < q
    ensures n / q == k && n % q == r
  {
    OneQuotient(q, n / q, n % q, k, r);
  }

  /** One more division step. */
  lemma NextQuotient(n: nat, q: nat)
    requires q > 0
    ensures n % q == q - 1 ==> (n + 1) % q == 0 && (n + 1) / q == n / q + 1
    ensures n % q != q - 1 ==> (n + 1) % q == n % q + 1 && (n + 1) / q == n / q
  {
    if n % q == q - 1 {
      Distribute(q, n / q, 1);
      QuotientIs(n + 1, q, n / q + 1, 0);
    } else {
      QuotientIs(n + 1, q, n / q, n % q + 1);
    }
  }

  /** A multiple of the common interval, measured in intervals. */
  lemma QuotientOfMultiples(n: nat, g: nat, q: nat)
    requires g > 0 && q > 0 && g * q > 0
    ensures (n * g) / (g * q) == n / q
  {
    var k, r := n / q, n % q;
    Associate(g, q, k);
    Distribute(g, q * k, r);
    Distribute(g, q, -r);
    Positive(g, q - r);
    assert g * n == (g * q) * k + g * r;
    QuotientIs(n * g, g * q, k, g * r);
  }

  // ----- Slots -----

  /** Retrigger: the slot is moved on by whole intervals until it is not before the time. */
  function Moved(slot: nat, interval: nat, time: nat): (next: nat)
    requires interval > 0
    ensures next >= slot && (next >= time || next == slot)
    decreases if slot < time then time - slot else 0
  {
    if slot < time then Moved(slot + interval, interval, time) else slot
  }

  function SlotAt(slot: nat, k: nat, interval: nat): nat {
    slot + interval * k
  }

  /** It keeps its phase and is the least such slot that is not before the time. */
  lemma {:induction false} MovedIsLeast(slot: nat, interval: nat, time: nat) returns (k: nat)
    requires interval > 0
    ensures Moved(slot, interval, time) == SlotAt(slot, k, interval) >= time
    ensures forall j: nat :: j < k ==> SlotAt(slot, j, interval) < time
    decreases if slot < time then time - slot else 0
  {
    k := 0;
    if slot < time {
      var more := MovedIsLeast(slot + interval, interval, time);
      k := more + 1;
      OneLater(slot, more, interval);
      forall j: nat | j < k ensures SlotAt(slot, j, interval) < time {
        if j > 0 { OneLater(slot, j - 1, interval); }
      }
    }
  }

  lemma OneLater(slot: nat, k: nat, interval: nat)
    ensures SlotAt(slot + interval, k, interval) == SlotAt(slot, k + 1, interval)
  {
    Distribute(interval, k, 1);
  }

  lemma LaterIsMore(slot: nat, j: nat, k: nat, interval: nat)
    requires j > k && interval > 0
    ensures SlotAt(slot, j, interval) > SlotAt(slot, k, interval)
  {
    Subtract(interval, j, k);
    Positive(interval, j - k);
  }

  function Max(a: nat, b: nat): nat {
    if a < b then b else a
  }

  /** Moving twice is moving for the later time. */
  lemma {:induction false} MovedTwice(slot: nat, interval: nat, time: nat, again: nat)
    requires interval > 0
    ensures Moved(Moved(slot, interval, time), interval, again) == Moved(slot, interval, Max(time, again))
    decreases if slot < time then time - slot else 0
  {
    if slot < time { MovedTwice(slot + interval, interval, time, again); }
  }

  /** The moved slot falls on the time itself exactly when the time is a whole number of intervals on. */
  lemma MovedOntoTime(slot: nat, interval: nat, time: nat)
    requires interval > 0 && slot <= time
    ensures Moved(slot, interval, time) <= time <==> (time - slot) % interval == 0
  {
    var k := MovedIsLeast(slot, interval, time);
    var d := time - slot;
    var j := d / interval;
    assert d == interval * j + d % interval;
    if SlotAt(slot, k, interval) == time {
      OneQuotient(interval, j, d % interval, k, 0);
    } else {
      LeastSlotMissed(slot, interval, time, k, j);
    }
  }

  lemma LeastSlotMissed(slot: nat, interval: nat, time: nat, k: nat, j: nat)
    requires interval > 0 && SlotAt(slot, k, interval) > time
    requires forall i: nat :: i < k ==> SlotAt(slot, i, interval) < time
    ensures SlotAt(slot, j, interval) != time
  {
    if j > k { LaterIsMore(slot, j, k, interval); }
  }
}
