/**
 The walk of Parse over initialisation data, with its 16-bit offset and the 16-bit length that it
 gives for each box: when it ends, and when it stays inside the data.
 */
module BoxWalk {
  import opened BodyBounds
  import opened Common
  import opened CommonEncryption

  datatype Cursor = Cursor(offset: nat, running: bool)

  /** The bytes after the data, as far as the size and the tag of a last box are looked at. */
  predicate Readable(memory: seq<byte>, length: nat) {
    length < UINT16 && |memory| >= length + 8
  }

  function SizeAt(memory: seq<byte>, offset: nat): nat
    requires offset + 8 <= |memory|
  {
    Read32BE(memory[offset..])
  }

  predicate BoxAt(memory: seq<byte>, length: nat, offset: nat)
    requires Readable(memory, length)
  {
    offset <= length && SizeAt(memory, offset) <= length - offset && length - offset >= 4
    && memory[offset + 4..offset + 8] == PSSH_HEADER
  }

  /** One turn of the loop: a box moves the offset by its size, anything else ends the walk. */
  function Turned(memory: seq<byte>, length: nat, c: Cursor): Cursor
    requires Readable(memory, length)
  {
    if !c.running then c
    else if BoxAt(memory, length, c.offset) then
      var next := (c.offset + SizeAt(memory, c.offset)) % UINT16;
      Cursor(next, next < length)
    else Cursor(c.offset, false)
  }

  function Turns(memory: seq<byte>, length: nat, c: Cursor, n: nat): Cursor
    requires Readable(memory, length)
    decreases n
  {
    if n == 0 then c else Turns(memory, length, Turned(memory, length, c), n - 1)
  }

  const START := Cursor(0, true)

  ghost predicate Ends(memory: seq<byte>, length: nat)
    requires Readable(memory, length)
  {
    exists n: nat :: !Turns(memory, length, START, n).running
  }

  ghost predicate Visits(memory: seq<byte>, length: nat, offset: nat)
    requires Readable(memory, length)
  {
    exists n: nat :: Turns(memory, length, START, n) == Cursor(offset, true)
  }

  lemma {:induction false} TurnsSplit(memory: seq<byte>, length: nat, c: Cursor, m: nat, n: nat)
    requires Readable(memory, length)
    ensures Turns(memory, length, c, m + n) == Turns(memory, length, Turns(memory, length, c, m), n)
    decreases m
  {
    if m > 0 { TurnsSplit(memory, length, Turned(memory, length, c), m - 1, n); }
  }

  lemma {:induction false} StandsStill(memory: seq<byte>, length: nat, c: Cursor, n: nat)
    requires Readable(memory, length) && Turned(memory, length, c) == c
    ensures Turns(memory, length, c, n) == c
    decreases n
  {
    if n > 0 { StandsStill(memory, length, c, n - 1); }
  }

  /** A box keeps the offset within the data, so that it does not wrap, and moves it by its size. */
  lemma BoxMoves(memory: seq<byte>, length: nat, offset: nat)
    requires Readable(memory, length) && BoxAt(memory, length, offset)
    ensures var n := Turned(memory, length, Cursor(offset, true));
            n.offset == offset + SizeAt(memory, offset) <= length && n.running == (n.offset < length)
  {
  }

  /** On a box of size zero the walk stands still, and no number of turns ends it. */
  lemma EmptyBoxHolds(memory: seq<byte>, length: nat, offset: nat, m: nat, n: nat)
    requires Readable(memory, length) && BoxAt(memory, length, offset) && SizeAt(memory, offset) == 0
    requires Turns(memory, length, START, m) == Cursor(offset, true)
    ensures Turns(memory, length, START, n).running
  {
    BoxMoves(memory, length, offset);
    if n >= m {
      TurnsSplit(memory, length, START, m, n - m);
      StandsStill(memory, length, Cursor(offset, true), n - m);
    } else {
      var c := Turns(memory, length, START, n);
      TurnsSplit(memory, length, START, n, m - n);
      if !c.running { StandsStill(memory, length, c, m - n); }
    }
  }

  /** Eight bytes on which the walk never ends: an empty size and the tag. */
  lemma EmptyBoxNeverEnds(memory: seq<byte>)
    requires memory == [0, 0, 0, 0] + PSSH_HEADER + [0, 0, 0, 0, 0, 0, 0, 0]
    ensures !Ends(memory, 8)
  {
    assert memory[4..8] == PSSH_HEADER && memory[0..] == memory;
    assert Turns(memory, 8, START, 0) == START;
    forall n: nat ensures Turns(memory, 8, START, n).running {
      EmptyBoxHolds(memory, 8, 0, 0, n);
    }
  }

  lemma {:induction false} EndsFrom(memory: seq<byte>, length: nat, offset: nat, m: nat)
    requires Readable(memory, length) && offset <= length
    requires Turns(memory, length, START, m) == Cursor(offset, true)
    requires forall o: nat :: Visits(memory, length, o) && BoxAt(memory, length, o) ==> SizeAt(memory, o) > 0
    ensures Ends(memory, length)
    decreases length - offset
  {
    assert Visits(memory, length, offset);
    var c := Turned(memory, length, Cursor(offset, true));
    TurnsSplit(memory, length, START, m, 1);
    assert Turns(memory, length, Cursor(offset, true), 1) == c;
    assert Turns(memory, length, START, m + 1) == c;
    if c.running {
      BoxMoves(memory, length, offset);
      EndsFrom(memory, length, c.offset, m + 1);
    }
  }

  /** For all data, the walk ends if and only if no box that it comes to claims size zero. */
  lemma EndsExactly(memory: seq<byte>, length: nat)
    requires Readable(memory, length)
    ensures Ends(memory, length)
       <==> forall o: nat :: Visits(memory, length, o) && BoxAt(memory, length, o) ==> SizeAt(memory, o) > 0
  {
    assert Turns(memory, length, START, 0) == START;
    if Ends(memory, length) {
      var n: nat :| !Turns(memory, length, START, n).running;
      forall o: nat | Visits(memory, length, o) && BoxAt(memory, length, o) ensures SizeAt(memory, o) > 0 {
        var m: nat :| Turns(memory, length, START, m) == Cursor(o, true);
        if SizeAt(memory, o) == 0 { EmptyBoxHolds(memory, length, o, m, n); }
      }
    }
    if forall o: nat :: Visits(memory, length, o) && BoxAt(memory, length, o) ==> SizeAt(memory, o) > 0 {
      EndsFrom(memory, length, 0, 0);
    }
  }

  // ----- The bodies -----

  /** The length that ParsePSSHBox is given: the size less its header, as 32 and then as 16 bits. */
  function BodyLength(size: nat): nat {
    (size + UINT32 - 8) % UINT32 % UINT16
  }

  predicate BodyInside(memory: seq<byte>, length: nat, offset: nat)
    requires Readable(memory, length) && offset <= length
  {
    offset + 8 + BodyLength(SizeAt(memory, offset)) <= length
  }

  lemma SmallBoxWraps(size: nat)
    requires size < UINT16
    ensures BodyLength(size) == if size >= 8 then size - 8 else UINT16 + size - 8
  {
  }

  lemma BodyInsideExactly(memory: seq<byte>, length: nat, offset: nat)
    requires Readable(memory, length) && BoxAt(memory, length, offset)
    ensures BodyInside(memory, length, offset) <==> SizeAt(memory, offset) >= 8
  {
    SmallBoxWraps(SizeAt(memory, offset));
  }

  /** Every body lies inside the data if and only if no box that the walk comes to is below its header. */
  lemma BodiesInsideExactly(memory: seq<byte>, length: nat)
    requires Readable(memory, length)
    ensures (forall o: nat :: Visits(memory, length, o) && BoxAt(memory, length, o) ==> BodyInside(memory, length, o))
       <==> (forall o: nat :: Visits(memory, length, o) && BoxAt(memory, length, o) ==> SizeAt(memory, o) >= 8)
    ensures (forall o: nat :: Visits(memory, length, o) && BoxAt(memory, length, o) ==> BodyInside(memory, length, o))
        ==> Ends(memory, length)
  {
    EndsExactly(memory, length);
    forall o: nat | Visits(memory, length, o) && BoxAt(memory, length, o)
      ensures BodyInside(memory, length, o) <==> SizeAt(memory, o) >= 8
    {
      BodyInsideExactly(memory, length, o);
    }
  }

  // ----- The walk that Parse takes -----

  lemma BoxIsBox(memory: seq<byte>, length: nat, offset: nat)
    requires Readable(memory, length) && offset + 4 <= length && Walkable(memory[offset..length])
    ensures BoxAt(memory, length, offset) <==> IsBox(memory[offset..length])
    ensures SizeAt(memory, offset) == Read32BE(memory[offset..length])
  {
    var rest := memory[offset..length];
    assert forall i :: 0 <= i < 4 ==> rest[i] == memory[offset..][i];
    if |rest| >= 8 {
      assert forall i :: 0 <= i < 4 ==> rest[4..8][i] == memory[offset + 4..offset + 8][i];
      assert rest[4..8] == memory[offset + 4..offset + 8];
    }
  }

  lemma WalkStops(memory: seq<byte>, length: nat, offset: nat)
    requires Readable(memory, length) && offset + 4 <= length && Walkable(memory[offset..length])
    requires !IsBox(memory[offset..length])
    ensures Turns(memory, length, Cursor(offset, true), 1) == Cursor(offset, false)
  {
    BoxIsBox(memory, length, offset);
    var c := Turned(memory, length, Cursor(offset, true));
    assert Turns(memory, length, c, 0) == c;
  }

  lemma WalkMoves(memory: seq<byte>, length: nat, offset: nat)
    requires Readable(memory, length) && offset + 4 <= length && Walkable(memory[offset..length])
    requires IsBox(memory[offset..length])
    ensures var size := Read32BE(memory[offset..length]);
            && 8 <= size <= length - offset
            && Turned(memory, length, Cursor(offset, true)) == Cursor(offset + size, size < length - offset)
  {
    BoxIsBox(memory, length, offset);
    BoxMoves(memory, length, offset);
  }

  /** Where the walk of Parse ends. */
  function EndOfWalk(rest: seq<byte>): nat
    requires |rest| >= 4
  {
    if IsBox(rest) then ChainEnd(rest) else 0
  }

  lemma NoBoxEnds(rest: seq<byte>)
    requires |rest| >= 4 && !IsBox(rest)
    ensures ChainEnd(rest) == 0
  {
  }

  lemma EndAfterBox(rest: seq<byte>, size: nat)
    requires |rest| >= 4 && Walkable(rest) && IsBox(rest) && size == Read32BE(rest)
    ensures 8 <= size <= |rest|
    ensures size < |rest| ==> size + 4 <= |rest| && Walkable(rest[size..])
    ensures EndOfWalk(rest) == size + (if size < |rest| then EndOfWalk(rest[size..]) else 0)
  {
    if size < |rest| && !IsBox(rest[size..]) { NoBoxEnds(rest[size..]); }
  }

  /** On data that Parse is specified for, these turns end where it says that it ends. */
  lemma {:induction false} WalkIsParse(memory: seq<byte>, length: nat, offset: nat) returns (n: nat)
    requires Readable(memory, length) && offset + 4 <= length && Walkable(memory[offset..length])
    ensures Turns(memory, length, Cursor(offset, true), n) == Cursor(offset + EndOfWalk(memory[offset..length]), false)
    decreases length - offset
  {
    var rest := memory[offset..length];
    if IsBox(rest) {
      WalkMoves(memory, length, offset);
      var size := Read32BE(rest);
      EndAfterBox(rest, size);
      if size < |rest| {
        assert rest[size..] == memory[offset + size..length];
        var m := WalkIsParse(memory, length, offset + size);
        n := m + 1;
      } else {
        n := 1;
        assert Turns(memory, length, Cursor(offset + size, false), 0) == Cursor(offset + size, false);
      }
    } else {
      n := 1;
      WalkStops(memory, length, offset);
    }
  }
}
