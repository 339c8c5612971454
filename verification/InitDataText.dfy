/**
 The text helpers of CommonEncryptionData: the substring search over UTF-16 text (every second
 byte is a character) and the base64 reader over the same text.
 */
module InitDataText {
  import opened Common

  // ----- FindInXML -----

  /** The key's characters stand at every second byte from `offset`, the last at or before `length`. */
  ghost predicate OccursAt(data: seq<byte>, length: nat, key: seq<byte>, offset: nat) {
    && offset % 2 == 0
    && offset + 2 * |key| <= length + 2
    && forall j :: 0 <= j < |key| ==> offset + 2 * j < |data| && data[offset + 2 * j] == key[j]
  }

  /**
   FindInXML: the least offset at which the key occurs, or a value past `length` when there is
   none.  The 16-bit cursor does not wrap below 65534; SearchEndsIffCyclic is about the two
   lengths left out.  The byte at `length` itself is read.
   */
  method FindInXML(data: seq<byte>, length: nat, key: seq<byte>) returns (r: nat)
    requires length < |data| && length < 65534 && |key| < 0x100
    ensures r <= length + 2
    ensures r <= length ==> OccursAt(data, length, key, r) && forall o: nat :: o < r ==> !OccursAt(data, length, key, o)
    ensures length < r ==> forall o: nat :: !OccursAt(data, length, key, o)
  {
    var index := 0;
    var result := 0;
    while result <= length && index < |key|
      invariant 0 <= index <= |key| && 2 * index <= result <= length + 2 && result % 2 == 0
      invariant key == [] ==> result == 0
      invariant forall j :: 0 <= j < index ==> data[result - 2 * index + 2 * j] == key[j]
      invariant forall o: nat :: o < result - 2 * index ==> !OccursAt(data, length, key, o)
      decreases length + 2 - (result - 2 * index), |key| - index
    {
      if key[index] == data[result] {
        index := index + 1;
        result := result + 2;
      } else {
        NotAt(data, length, key, result - 2 * index, index);
        if index > 0 {
          result := result - (index - 1) * 2;
          index := 0;
        } else {
          result := result + 2;
        }
      }
    }
    if index < |key| { NothingBeyond(data, length, key, result - 2 * index); }
    r := if index == |key| then result - |key| * 2 else result;
  }

  lemma NotAt(data: seq<byte>, length: nat, key: seq<byte>, start: nat, index: nat)
    requires start % 2 == 0 && index < |key| && start + 2 * index < |data|
    requires data[start + 2 * index] != key[index]
    ensures !OccursAt(data, length, key, start) && !OccursAt(data, length, key, start + 1)
  {
  }

  lemma NothingBeyond(data: seq<byte>, length: nat, key: seq<byte>, start: nat)
    requires start + 2 * |key| > length + 2
    ensures forall o: nat :: start <= o ==> !OccursAt(data, length, key, o)
  {
  }

  // ----- FindInXML when the cursor wraps: lengths 65534 and 65535 -----

  const CURSOR: int := 0x1_0000

  datatype Cursor = Cursor(index: nat, result: nat)

  function Hit(c: Cursor): Cursor {
    Cursor(c.index + 1, (c.result + 2) % CURSOR)
  }

  function Missed(c: Cursor): Cursor {
    if c.index > 0 then Cursor(0, (c.result - (c.index - 1) * 2) % CURSOR)
    else Cursor(0, (c.result + 2) % CURSOR)
  }

  /** One turn of the search loop with 16-bit arithmetic; every even cursor is within the length. */
  function Turn(data: seq<byte>, key: seq<byte>, c: Cursor): Cursor
    requires |data| >= CURSOR && c.result < CURSOR
  {
    if c.index >= |key| then c
    else if key[c.index] == data[c.result] then Hit(c)
    else Missed(c)
  }

  function Turns(data: seq<byte>, key: seq<byte>, c: Cursor, n: nat): Cursor
    requires |data| >= CURSOR && c.result < CURSOR
    decreases n
  {
    if n == 0 then c else Turns(data, key, Turn(data, key, c), n - 1)
  }

  /** The key occurs when the text is read round and round. */
  ghost predicate CyclicAt(data: seq<byte>, key: seq<byte>, start: nat)
    requires |data| >= CURSOR
  {
    start < CURSOR && start % 2 == 0 && MatchesAt(data, key, start, |key|)
  }

  ghost predicate MatchesAt(data: seq<byte>, key: seq<byte>, start: nat, upTo: nat)
    requires |data| >= CURSOR && upTo <= |key|
  {
    forall j :: 0 <= j < upTo ==> data[(start + 2 * j) % CURSOR] == key[j]
  }

  /** The start of the partial match a cursor stands for. */
  function StartOf(c: Cursor): nat {
    (c.result - 2 * c.index) % CURSOR
  }

  ghost predicate Sound(data: seq<byte>, key: seq<byte>, c: Cursor)
    requires |data| >= CURSOR
  {
    && c.index <= |key|
    && c.result < CURSOR
    && c.result % 2 == 0
    && MatchesAt(data, key, StartOf(c), c.index)
  }

  lemma CursorPosition(c: Cursor)
    requires c.result < CURSOR
    ensures (StartOf(c) + 2 * c.index) % CURSOR == c.result
  {
  }

  lemma AfterHit(c: Cursor)
    requires c.result < CURSOR && c.result % 2 == 0
    ensures StartOf(Hit(c)) == StartOf(c) && Hit(c).result % 2 == 0
  {
  }

  lemma TwoMore(x: int)
    ensures (x + 2) % CURSOR == (x % CURSOR + 2) % CURSOR
  {
  }

  lemma StaysEven(x: int)
    requires x % 2 == 0
    ensures x % CURSOR % 2 == 0
  {
  }

  lemma AfterMiss(c: Cursor)
    requires c.result < CURSOR && c.result % 2 == 0
    ensures StartOf(Missed(c)) == (StartOf(c) + 2) % CURSOR && Missed(c).result % 2 == 0 && Missed(c).index == 0
  {
    var start := c.result - 2 * c.index;
    MissedAt(c, start);
    EvenLess(c.result, c.index);
    NextStart(start, start % CURSOR, (start + 2) % CURSOR);
  }

  lemma EvenLess(result: nat, index: nat)
    requires result % 2 == 0
    ensures (result - 2 * index) % 2 == 0
  {
  }

  lemma NextStart(x: int, s: int, t: int)
    requires x % 2 == 0 && s == x % CURSOR && t == (x + 2) % CURSOR
    ensures t == (s + 2) % CURSOR && t % 2 == 0
  {
    TwoMore(x);
    StaysEven(x + 2);
  }

  lemma MissedAt(c: Cursor, start: int)
    requires start == c.result - 2 * c.index
    ensures Missed(c) == Cursor(0, (start + 2) % CURSOR)
    ensures StartOf(Missed(c)) == (start + 2) % CURSOR && StartOf(c) == start % CURSOR
  {
    Once(start + 2);
  }

  lemma Once(x: int)
    ensures x % CURSOR % CURSOR == x % CURSOR
  {
  }

  lemma MatchGrows(data: seq<byte>, key: seq<byte>, start: nat, index: nat, at: nat)
    requires |data| >= CURSOR && index < |key| && MatchesAt(data, key, start, index)
    requires at == (start + 2 * index) % CURSOR
    ensures MatchesAt(data, key, start, index + 1) <==> data[at] == key[index]
  {
  }

  lemma TurnHit(data: seq<byte>, key: seq<byte>, c: Cursor)
    requires |data| >= CURSOR && Sound(data, key, c) && c.index < |key| && key[c.index] == data[c.result]
    ensures Sound(data, key, Hit(c)) && StartOf(Hit(c)) == StartOf(c)
  {
    CursorPosition(c);
    AfterHit(c);
    MatchGrows(data, key, StartOf(c), c.index, c.result);
  }

  lemma TurnMiss(data: seq<byte>, key: seq<byte>, c: Cursor)
    requires |data| >= CURSOR && Sound(data, key, c) && c.index < |key| && key[c.index] != data[c.result]
    ensures Sound(data, key, Missed(c)) && StartOf(Missed(c)) == (StartOf(c) + 2) % CURSOR
    ensures !MatchesAt(data, key, StartOf(c), |key|)
  {
    CursorPosition(c);
    AfterMiss(c);
    MatchGrows(data, key, StartOf(c), c.index, c.result);
  }

  lemma {:induction false} EndsOnlyIfCyclic(data: seq<byte>, key: seq<byte>, c: Cursor, n: nat)
    requires |data| >= CURSOR && Sound(data, key, c) && Turns(data, key, c, n).index == |key|
    ensures exists start: nat :: CyclicAt(data, key, start)
    decreases n
  {
    if c.index == |key| {
      StartIsEven(c);
      assert CyclicAt(data, key, StartOf(c));
    } else {
      if key[c.index] == data[c.result] { TurnHit(data, key, c); } else { TurnMiss(data, key, c); }
      EndsOnlyIfCyclic(data, key, Turn(data, key, c), n - 1);
    }
  }

  lemma StartIsEven(c: Cursor)
    requires c.result % 2 == 0
    ensures StartOf(c) % 2 == 0
  {
  }

  lemma StartMovesUp(s: nat, o: nat)
    requires s < o < CURSOR && s % 2 == 0 && o % 2 == 0
    ensures (s + 2) % CURSOR == s + 2 <= o
  {
  }

  lemma {:induction false} ReachesOccurrence(data: seq<byte>, key: seq<byte>, c: Cursor, o: nat) returns (n: nat)
    requires |data| >= CURSOR && Sound(data, key, c) && CyclicAt(data, key, o) && StartOf(c) <= o
    ensures Turns(data, key, c, n).index == |key|
    decreases o - StartOf(c), |key| - c.index
  {
    if c.index == |key| {
      n := 0;
    } else {
      var d := if key[c.index] == data[c.result] then Hit(c) else Missed(c);
      if key[c.index] == data[c.result] {
        TurnHit(data, key, c);
      } else {
        TurnMiss(data, key, c);
        StartIsEven(c);
        StartMovesUp(StartOf(c), o);
      }
      var m := ReachesOccurrence(data, key, d, o);
      n := m + 1;
    }
  }

  /** The search does not pass an occurrence. */
  lemma {:induction false} StaysBelow(data: seq<byte>, key: seq<byte>, c: Cursor, o: nat, n: nat)
    requires |data| >= CURSOR && Sound(data, key, c) && CyclicAt(data, key, o) && StartOf(c) <= o
    ensures Sound(data, key, Turns(data, key, c, n)) && StartOf(Turns(data, key, c, n)) <= o
    decreases n
  {
    if n > 0 {
      if c.index < |key| {
        if key[c.index] == data[c.result] {
          TurnHit(data, key, c);
        } else {
          TurnMiss(data, key, c);
          StartIsEven(c);
          StartMovesUp(StartOf(c), o);
        }
      }
      StaysBelow(data, key, Turn(data, key, c), o, n - 1);
    }
  }

  lemma SoundAtStart(data: seq<byte>, key: seq<byte>)
    requires |data| >= CURSOR
    ensures Sound(data, key, Cursor(0, 0)) && StartOf(Cursor(0, 0)) == 0
  {
  }

  /** When it ends, the offset that it answers is the least at which the key occurs cyclically. */
  lemma SearchFindsLeast(data: seq<byte>, key: seq<byte>, n: nat)
    requires |data| >= CURSOR && Turns(data, key, Cursor(0, 0), n).index == |key|
    ensures var found := StartOf(Turns(data, key, Cursor(0, 0), n));
            CyclicAt(data, key, found) && forall o: nat :: CyclicAt(data, key, o) ==> found <= o
  {
    var c := Cursor(0, 0);
    SoundAtStart(data, key);
    EndsOnlyIfCyclic(data, key, c, n);
    forall o: nat | CyclicAt(data, key, o)
      ensures Sound(data, key, Turns(data, key, c, n)) && StartOf(Turns(data, key, c, n)) <= o
    {
      StaysBelow(data, key, c, o, n);
    }
    var start: nat :| CyclicAt(data, key, start);
    assert Sound(data, key, Turns(data, key, c, n));
    StartIsEven(Turns(data, key, c, n));
  }

  /** At lengths 65534 and 65535 the search ends if and only if the key occurs cyclically. */
  lemma SearchEndsIffCyclic(data: seq<byte>, key: seq<byte>)
    requires |data| >= CURSOR
    ensures (exists n: nat :: Turns(data, key, Cursor(0, 0), n).index == |key|)
        <==> (exists start: nat :: CyclicAt(data, key, start))
  {
    var c := Cursor(0, 0);
    SoundAtStart(data, key);
    if n: nat :| Turns(data, key, c, n).index == |key| {
      EndsOnlyIfCyclic(data, key, c, n);
    }
    if start: nat :| CyclicAt(data, key, start) {
      var n := ReachesOccurrence(data, key, c, start);
    }
  }

  // ----- Base64 -----

  type sextet = x: int | 0 <= x < 64

  /** The alphabet of RFC 4648, section 4. */
  function Letter(x: sextet): byte {
    if x < 26 then 'A' as int + x
    else if x < 52 then 'a' as int + (x - 26)
    else if x < 62 then '0' as int + (x - 52)
    else if x == 62 then '+' as int
    else '/' as int
  }

  const PAD: byte := '=' as int

  /** The sextet a character stands for; 64 when it is outside the alphabet. */
  function Converted(current: byte): (x: nat)
    ensures x <= 64
  {
    if 'A' as int <= current <= 'Z' as int then current - 'A' as int
    else if 'a' as int <= current <= 'z' as int then current - 'a' as int + 26
    else if '0' as int <= current <= '9' as int then current - '0' as int + 52
    else if current == '+' as int then 62
    else if current == '/' as int then 63
    else 64
  }

  /** The characters stand for their places in the alphabet of section 4 of RFC 4648, and no others for any. */
  lemma AlphabetExactly(x: nat, current: byte)
    ensures x < 26 ==> (Converted(current) == x <==> "ABCDEFGHIJKLMNOPQRSTUVWXYZ"[x] as int == current)
    ensures 26 <= x < 52 ==> (Converted(current) == x <==> "abcdefghijklmnopqrstuvwxyz"[x - 26] as int == current)
    ensures 52 <= x < 64 ==> (Converted(current) == x <==> "0123456789+/"[x - 52] as int == current)
  {
    if x < 26 {
      UpperAt(x);
    } else if x < 52 {
      LowerAt(x - 26);
    }
  }

  lemma UpperAt(i: nat)
    requires i < 26
    ensures "ABCDEFGHIJKLMNOPQRSTUVWXYZ"[i] as int == 'A' as int + i
  {
  }

  lemma LowerAt(i: nat)
    requires i < 26
    ensures "abcdefghijklmnopqrstuvwxyz"[i] as int == 'a' as int + i
  {
  }

  lemma LetterConverted(x: sextet)
    ensures Converted(Letter(x)) == x
  {
  }

  /** The sextets before the first character outside the alphabet, one character every two bytes. */
  function Sextets(value: seq<byte>): (s: seq<sextet>)
    ensures 2 * |s| <= |value| + 1
    decreases |value|
  {
    if value == [] || Converted(value[0]) == 64 then []
    else [Converted(value[0])] + (if |value| == 1 then [] else Sextets(value[2..]))
  }

  /** Whole bytes held by n sextets. */
  function Whole(n: nat): nat {
    n * 3 / 4
  }

  function Join6(a: nat, b: nat): nat { a * 4 + b / 16 }
  function Join4(b: nat, c: nat): nat { b % 16 * 16 + c / 4 }
  function Join2(c: nat, d: nat): nat { c % 4 * 64 + d }

  /** Byte k of the regrouped sextets: three bytes out of every four. */
  function ByteAt(s: seq<sextet>, k: nat): byte
    requires k < Whole(|s|)
  {
    var q := k / 3 * 4;
    match k % 3
    case 0 => Join6(s[q], s[q + 1])
    case 1 => Join4(s[q + 1], s[q + 2])
    case _ => Join2(s[q + 2], s[q + 3])
  }

  function Decoded(s: seq<sextet>): (b: seq<byte>)
    ensures |b| == Whole(|s|)
  {
    seq(Whole(|s|), k requires 0 <= k < Whole(|s|) => ByteAt(s, k))
  }

  function Min(a: nat, b: nat): nat {
    if a < b then a else b
  }

  lemma SextetsFrom(value: seq<byte>)
    requires |value| > 1 && Sextets(value) != []
    ensures Sextets(value) == [Converted(value[0])] + Sextets(value[2..])
  {
  }

  lemma {:induction false} SextetAt(value: seq<byte>, n: nat)
    requires n <= |Sextets(value)|
    ensures n < |Sextets(value)| ==> 2 * n < |value| && Converted(value[2 * n]) == Sextets(value)[n]
    ensures n == |Sextets(value)| && 2 * n < |value| ==> Converted(value[2 * n]) == 64
    decreases n
  {
    if n > 0 && |value| > 1 {
      var rest := value[2..];
      SextetsFrom(value);
      SextetAt(rest, n - 1);
      assert 2 * n < |value| ==> value[2 * n] == rest[2 * (n - 1)];
    }
  }

  /** The bits of a sextet that wait for the next one, moved to the top of a byte. */
  function Waiting(x: nat, state: nat): nat {
    match state
    case 1 => x * 4
    case 2 => x % 16 * 16
    case _ => x % 4 * 64
  }

  /** What a sextet completes, given the bits that waited for it. */
  function Completed(lastStuff: nat, x: nat, state: nat): nat {
    match state
    case 1 => x / 16 + lastStuff
    case 2 => x / 4 + lastStuff
    case _ => x + lastStuff
  }

  lemma NextByte(s: seq<sextet>, n: nat)
    requires n < |s| && n % 4 != 0
    ensures Whole(n) < Whole(|s|)
    ensures ByteAt(s, Whole(n)) == Completed(Waiting(s[n - 1], n % 4), s[n], n % 4)
  {
    WholeOf(n / 4, n % 4);
    WholeMonotone(n + 1, |s|);
  }

  lemma WholeOf(q: nat, r: nat)
    requires r < 4
    ensures Whole(4 * q + r) == 3 * q + (if r == 0 then 0 else r - 1)
    ensures Whole(4 * q + r + 1) == 3 * q + r
  {
  }

  lemma WholeMonotone(m: nat, n: nat)
    requires m <= n
    ensures Whole(m) <= Whole(n)
  {
  }

  /**
   The sextets in the order in which the loop comes to them.  Its index has eight bits, so when all
   the 128 characters of 255 bytes are letters it starts over: three times is more than any target holds.
   */
  function Stream(value: seq<byte>): seq<sextet> {
    var s := Sextets(value);
    if |s| == 128 then s + s + s else s
  }

  /** The index before the n-th character. */
  predicate IndexFor(n: nat, index: nat) {
    index == if n < 128 then 2 * n else if n < 256 then 2 * n - 0x100 else 2 * n - 0x200
  }

  lemma ThreeTimes(s: seq<sextet>, n: nat, index: nat)
    requires |s| == 128 && n < 384 && IndexFor(n, index)
    ensures index / 2 < 128 && index / 2 * 2 == index && (s + s + s)[n] == s[index / 2]
  {
  }

  lemma StreamAt(value: seq<byte>, n: nat, index: nat)
    requires |value| < 0x100 && n < |Stream(value)| && IndexFor(n, index)
    ensures index < |value| && Converted(value[index]) == Stream(value)[n]
  {
    if |Sextets(value)| == 128 {
      ThreeTimes(Sextets(value), n, index);
      SextetAt(value, index / 2);
    } else {
      SextetAt(value, n);
    }
  }

  lemma StreamEnds(value: seq<byte>, n: nat)
    requires |value| < 0x100 && n == |Stream(value)| < 384
    ensures n < 128 && (2 * n < |value| ==> Converted(value[2 * n]) == 64)
  {
    SextetAt(value, n);
  }

  /** The 8-bit index after one more character. */
  lemma NextIndex(n: nat, index: nat)
    requires n < 383 && IndexFor(n, index)
    ensures IndexFor(n + 1, (index + 2) % 0x100)
  {
  }

  lemma TargetFull(n: nat, length: nat)
    requires Whole(n) < length < 0x100
    ensures n < 383
  {
  }

  ghost predicate Filled(t: seq<byte>, s: seq<sextet>, filler: nat) {
    filler <= |t| && filler <= Whole(|s|) && forall k :: 0 <= k < filler ==> t[k] == ByteAt(s, k)
  }

  lemma FilledMore(t: seq<byte>, s: seq<sextet>, filler: nat, x: byte)
    requires Filled(t, s, filler) && filler < |t| && filler < Whole(|s|) && x == ByteAt(s, filler)
    ensures Filled(t[filler := x], s, filler + 1)
  {
  }

  /** A byte is completed and written. */
  method Put(x: byte, target: array<byte>, filler: nat, ghost s: seq<sextet>)
    requires filler < target.Length && filler < Whole(|s|) && x == ByteAt(s, filler) && Filled(target[..], s, filler)
    modifies target
    ensures Filled(target[..], s, filler + 1)
    ensures target[filler + 1..] == old(target[filler + 1..])
  {
    ghost var before := target[..];
    FilledMore(before, s, filler, x);
    target[filler] := x;
    assert target[..] == before[filler := x];
  }

  lemma AfterSextet(n: nat)
    ensures (n + 1) % 4 == (n % 4 + 1) % 4 && Whole(n + 1) == Whole(n) + (if n % 4 == 0 then 0 else 1)
  {
    WholeOf(n / 4, n % 4);
  }

  /** One accepted character: the n-th sextet moves the state on, and completes a byte unless the state was 0. */
  method Accept(converted: sextet, state: nat, lastStuff: nat, target: array<byte>, filler: nat,
                ghost s: seq<sextet>, ghost n: nat) returns (state': nat, lastStuff': nat, filler': nat)
    requires n < |s| && converted == s[n] && state == n % 4 && filler == Whole(n) < target.Length
    requires state != 0 ==> lastStuff == Waiting(s[n - 1], state)
    requires Filled(target[..], s, filler)
    modifies target
    ensures state' == (n + 1) % 4 && filler' == Whole(n + 1) <= filler + 1
    ensures state' != 0 ==> lastStuff' == Waiting(s[n], state')
    ensures Filled(target[..], s, filler')
    ensures target[filler'..] == old(target[filler'..])
  {
    state', lastStuff', filler' := (state + 1) % 4, lastStuff, filler;
    AfterSextet(n);
    if state == 0 {
      lastStuff' := converted * 4;
    } else {
      NextByte(s, n);
      if state == 1 {
        Put(converted / 16 + lastStuff, target, filler, s);
        lastStuff' := converted % 16 * 16;
      } else if state == 2 {
        Put(converted / 4 + lastStuff, target, filler, s);
        lastStuff' := converted % 4 * 64;
      } else {
        Put(converted + lastStuff, target, filler, s);
      }
      filler' := filler + 1;
    }
  }

  /** Base64: the target receives the bytes of the sextets that are taken, as many as fit. */
  method Base64(value: seq<byte>, target: array<byte>, length: nat) returns (filler: nat)
    requires |value| < 0x100 && length < 0x100 && length <= target.Length
    modifies target
    ensures filler == Min(length, Whole(|Stream(value)|)) && target[..filler] == Written(Stream(value), length)
    ensures target[filler..] == old(target[filler..])
  {
    ghost var s := Stream(value);
    ghost var n := 0;
    var state := 0;
    var index: nat := 0;
    var lastStuff := 0;
    filler := 0;
    var more := true;
    while more && index < |value| && filler < length
      invariant n <= |s| && IndexFor(n, index) && state == n % 4 && filler == Whole(n) <= length
      invariant state != 0 ==> lastStuff == Waiting(s[n - 1], state)
      invariant !more ==> n == |s| < 384
      invariant Filled(target[..], s, filler)
      invariant target[filler..] == old(target[filler..])
      decreases |s| - n, more
    {
      TargetFull(n, length);
      if n < |s| { StreamAt(value, n, index); } else { StreamEnds(value, n); }
      var converted := Converted(value[index]);
      if converted == 64 {
        more := false;
      } else {
        NextIndex(n, index);
        state, lastStuff, filler := Accept(converted, state, lastStuff, target, filler, s, n);
        index := (index + 2) % 0x100;
        n := n + 1;
      }
    }
    if n < |s| { StreamAt(value, n, index); }
    WholeMonotone(n, |s|);
  }

  /** What is written for the sextets that are taken. */
  function Written(s: seq<sextet>, length: nat): seq<byte> {
    Decoded(s)[..Min(length, Whole(|s|))]
  }

  lemma ThreeTimesByte(s: seq<sextet>, k: nat)
    requires |s| == 128 && k < 96
    ensures ByteAt(s + s + s, k) == ByteAt(s, k)
  {
    assert forall j :: 0 <= j < 128 ==> (s + s + s)[j] == s[j];
  }

  /**
   The index starts over unnoticed: what is written is what the letters stand for, taken once, if
   and only if there are fewer than 128 of them or the target has no more than 96 bytes.
   */
  lemma WrittenOnceExactly(value: seq<byte>, length: nat)
    requires |value| < 0x100 && length < 0x100
    ensures Written(Stream(value), length) == Written(Sextets(value), length)
       <==> |Sextets(value)| < 128 || length <= 96
  {
    var s := Sextets(value);
    if |s| == 128 {
      if length <= 96 {
        forall k | 0 <= k < length ensures Written(Stream(value), length)[k] == Written(s, length)[k] {
          ThreeTimesByte(s, k);
        }
      } else {
        assert |Written(Stream(value), length)| == length && |Written(s, length)| == 96;
      }
    }
  }

  // ----- The encoder, and back -----

  /** Sextet j of a byte string, zero bits past its end. */
  function SextetOf(b: seq<byte>, j: nat): sextet
    requires j < (4 * |b| + 2) / 3
  {
    var q := j / 4 * 3;
    match j % 4
    case 0 => b[q] / 4
    case 1 => b[q] % 4 * 16 + (if q + 1 < |b| then b[q + 1] / 16 else 0)
    case 2 => b[q + 1] % 16 * 4 + (if q + 2 < |b| then b[q + 2] / 64 else 0)
    case 3 => b[q + 2] % 64
  }

  function EncodedSextets(b: seq<byte>): (s: seq<sextet>)
    ensures |s| == (4 * |b| + 2) / 3
  {
    seq((4 * |b| + 2) / 3, j requires 0 <= j < (4 * |b| + 2) / 3 => SextetOf(b, j))
  }

  function Padding(b: seq<byte>): seq<byte> {
    match |b| % 3
    case 0 => []
    case 1 => [PAD, PAD]
    case _ => [PAD]
  }

  function Letters(s: seq<sextet>): (t: seq<byte>)
    ensures |t| == |s|
  {
    if s == [] then [] else [Letter(s[0])] + Letters(s[1..])
  }

  /** The standard base64 text of a byte string. */
  function Encoded(b: seq<byte>): seq<byte> {
    Letters(EncodedSextets(b)) + Padding(b)
  }

  /** Two bytes a character, the second one zero. */
  function Widened(t: seq<byte>): (w: seq<byte>)
    ensures |w| == 2 * |t|
  {
    if t == [] then [] else [t[0], 0] + Widened(t[1..])
  }

  lemma {:induction false} SextetsOfLetters(s: seq<sextet>, rest: seq<byte>)
    requires rest == [] || Converted(rest[0]) == 64
    ensures Sextets(Widened(Letters(s)) + rest) == s
    decreases |s|
  {
    if s != [] {
      var text := Widened(Letters(s)) + rest;
      assert Letters(s)[1..] == Letters(s[1..]);
      LetterConverted(s[0]);
      assert text[2..] == Widened(Letters(s[1..])) + rest;
      SextetsOfLetters(s[1..], rest);
    }
  }

  lemma {:induction false} WidenedConcat(a: seq<byte>, b: seq<byte>)
    ensures Widened(a + b) == Widened(a) + Widened(b)
    decreases |a|
  {
    if a == [] {
      assert a + b == b;
    } else {
      assert (a + b)[1..] == a[1..] + b;
      WidenedConcat(a[1..], b);
    }
  }

  lemma Regroup6(b: byte, y: nat)
    requires y < 16
    ensures Join6(b / 4, b % 4 * 16 + y) == b
  {
  }

  lemma Regroup4(h: nat, b: byte, y: nat)
    requires h < 4 && y < 4
    ensures Join4(h * 16 + b / 16, b % 16 * 4 + y) == b
  {
  }

  lemma Regroup2(h: nat, b: byte)
    requires h < 16
    ensures Join2(h * 4 + b / 64, b % 64) == b
  {
  }

  lemma FirstBack(b: seq<byte>, q: nat)
    requires 3 * q < |b|
    ensures Join6(SextetOf(b, 4 * q), SextetOf(b, 4 * q + 1)) == b[3 * q]
  {
    Quarters(q, 0);
    Quarters(q, 1);
    Regroup6(b[3 * q], if 3 * q + 1 < |b| then b[3 * q + 1] / 16 else 0);
  }

  lemma SecondBack(b: seq<byte>, q: nat)
    requires 3 * q + 1 < |b|
    ensures Join4(SextetOf(b, 4 * q + 1), SextetOf(b, 4 * q + 2)) == b[3 * q + 1]
  {
    Quarters(q, 1);
    Quarters(q, 2);
    Regroup4(b[3 * q] % 4, b[3 * q + 1], if 3 * q + 2 < |b| then b[3 * q + 2] / 64 else 0);
  }

  lemma ThirdBack(b: seq<byte>, q: nat)
    requires 3 * q + 2 < |b|
    ensures Join2(SextetOf(b, 4 * q + 2), SextetOf(b, 4 * q + 3)) == b[3 * q + 2]
  {
    Quarters(q, 2);
    Quarters(q, 3);
    Regroup2(b[3 * q + 1] % 16, b[3 * q + 2]);
  }

  /** A byte of the regrouped sextets, by its place among three. */
  lemma Regrouped(s: seq<sextet>, q: nat, r: nat)
    requires r < 3 && 3 * q + r < Whole(|s|)
    ensures 4 * q + r + 1 < |s|
    ensures ByteAt(s, 3 * q + r) == match r
                                    case 0 => Join6(s[4 * q], s[4 * q + 1])
                                    case 1 => Join4(s[4 * q + 1], s[4 * q + 2])
                                    case _ => Join2(s[4 * q + 2], s[4 * q + 3])
  {
    Thirds(q, r);
  }

  lemma AtSextet(b: seq<byte>, j: nat)
    requires j < (4 * |b| + 2) / 3
    ensures EncodedSextets(b)[j] == SextetOf(b, j)
  {
  }

  lemma FirstByteBack(b: seq<byte>, s: seq<sextet>, q: nat)
    requires 3 * q < |b| && s == EncodedSextets(b) && 3 * q < Whole(|s|)
    ensures ByteAt(s, 3 * q) == b[3 * q]
  {
    Regrouped(s, q, 0);
    AtSextet(b, 4 * q);
    AtSextet(b, 4 * q + 1);
    FirstBack(b, q);
  }

  lemma SecondByteBack(b: seq<byte>, s: seq<sextet>, q: nat)
    requires 3 * q + 1 < |b| && s == EncodedSextets(b) && 3 * q + 1 < Whole(|s|)
    ensures ByteAt(s, 3 * q + 1) == b[3 * q + 1]
  {
    Regrouped(s, q, 1);
    AtSextet(b, 4 * q + 1);
    AtSextet(b, 4 * q + 2);
    SecondBack(b, q);
  }

  lemma ThirdByteBack(b: seq<byte>, s: seq<sextet>, q: nat)
    requires 3 * q + 2 < |b| && s == EncodedSextets(b) && 3 * q + 2 < Whole(|s|)
    ensures ByteAt(s, 3 * q + 2) == b[3 * q + 2]
  {
    Regrouped(s, q, 2);
    AtSextet(b, 4 * q + 2);
    AtSextet(b, 4 * q + 3);
    ThirdBack(b, q);
  }

  lemma Thirds(q: nat, r: nat)
    requires r < 3
    ensures (3 * q + r) / 3 == q && (3 * q + r) % 3 == r
  {
  }

  lemma Quarters(q: nat, r: nat)
    requires r < 4
    ensures (4 * q + r) / 4 == q && (4 * q + r) % 4 == r
  {
  }

  lemma WholeOfEncoded(n: nat)
    ensures Whole((4 * n + 2) / 3) == n
  {
  }

  lemma SextetsOfText(b: seq<byte>)
    ensures Sextets(Widened(Encoded(b))) == EncodedSextets(b)
  {
    WidenedConcat(Letters(EncodedSextets(b)), Padding(b));
    SextetsOfLetters(EncodedSextets(b), Widened(Padding(b)));
  }

  lemma EncodedWhole(b: seq<byte>)
    ensures Whole(|EncodedSextets(b)|) == |b|
  {
    WholeOfEncoded(|b|);
  }

  lemma BytesBack(b: seq<byte>, s: seq<sextet>, k: nat)
    requires k < |b| && s == EncodedSextets(b) && Whole(|s|) == |b|
    ensures ByteAt(s, k) == b[k]
  {
    var q := k / 3;
    if k == 3 * q {
      FirstByteBack(b, s, q);
    } else if k == 3 * q + 1 {
      SecondByteBack(b, s, q);
    } else {
      assert k == 3 * q + 2;
      ThirdByteBack(b, s, q);
    }
  }

  lemma DecodedAt(b: seq<byte>, k: nat)
    requires k < |b|
    ensures k < Whole(|EncodedSextets(b)|) && ByteAt(EncodedSextets(b), k) == b[k]
  {
    EncodedWhole(b);
    BytesBack(b, EncodedSextets(b), k);
  }

  lemma DecodedBack(b: seq<byte>)
    ensures Decoded(EncodedSextets(b)) == b
  {
    WholeOfEncoded(|b|);
    var d := Decoded(EncodedSextets(b));
    forall k | 0 <= k < |b| ensures d[k] == b[k] {
      DecodedAt(b, k);
    }
  }

  /** Reading the widened base64 text of any byte string gives the bytes back, padding or not. */
  lemma Base64RoundTrip(b: seq<byte>)
    ensures Decoded(Sextets(Widened(Encoded(b)))) == b
    ensures |Widened(Encoded(b))| < 0x100 ==> Written(Stream(Widened(Encoded(b))), 96) == b[..Min(96, |b|)]
  {
    SextetsOfText(b);
    DecodedBack(b);
    if |Widened(Encoded(b))| < 0x100 { WrittenOnceExactly(Widened(Encoded(b)), 96); }
  }
}
