/**
 The allocator of shared buffers in the OCDM framework: a sixteen-bit occupation word whose
 bit i says that the buffer file with number i is handed out.
 */
module Buffers {
  import opened Common

  const CAPACITY: nat := 16
  const BUFFER_FILE_NAME: string := "ocdmbuffer."

  /** The decimal text of a buffer number. */
  function Text(n: nat): (s: string)
    requires n < CAPACITY
    ensures s != ""
  {
    if n < 10 then [Digit(n)] else ['1', Digit(n - 10)]
  }

  function Digit(d: nat): char
    requires d < 10
  {
    '0' + d as char
  }

  function Locator(basePath: string, n: nat): (s: string)
    requires n < CAPACITY
    ensures s != ""
  {
    basePath + BUFFER_FILE_NAME + Text(n)
  }

  lemma LocatorInjective(basePath: string, m: nat, n: nat)
    requires m < CAPACITY && n < CAPACITY && Locator(basePath, m) == Locator(basePath, n)
    ensures m == n
  {
    assert Text(m) == Locator(basePath, m)[|basePath| + |BUFFER_FILE_NAME|..];
    assert Text(n) == Locator(basePath, n)[|basePath| + |BUFFER_FILE_NAME|..];
    assert |Text(m)| == 1 <==> m < 10;
    if m < 10 {
      assert Text(m)[0] == Digit(m) && Text(n)[0] == Digit(n);
    } else {
      assert Text(m)[1] == Digit(m - 10) && Text(n)[1] == Digit(n - 10);
    }
  }

  /** The names are numbered in decimal, from 0 to 15. */
  lemma LocatorNumbered(basePath: string, n: nat)
    requires n < CAPACITY
    ensures n < 10 ==> Locator(basePath, n) == basePath + "ocdmbuffer." + ["0123456789"[n]]
    ensures n >= 10 ==> Locator(basePath, n) == basePath + "ocdmbuffer." + "1" + ["0123456789"[n - 10]]
  {
    assert forall d :: 0 <= d < 10 ==> "0123456789"[d] == Digit(d);
  }

  type Occupation = o: seq<bool> | |o| == CAPACITY witness seq(CAPACITY, _ => false)

  /** The locators handed out and not yet returned. */
  ghost function Live(basePath: string, o: Occupation): set<string> {
    set n | 0 <= n < CAPACITY && o[n] :: Locator(basePath, n)
  }

  lemma LiveAt(basePath: string, o: Occupation, n: nat)
    requires n < CAPACITY
    ensures Locator(basePath, n) in Live(basePath, o) <==> o[n]
  {
    if Locator(basePath, n) in Live(basePath, o) {
      var m :| 0 <= m < CAPACITY && o[m] && Locator(basePath, m) == Locator(basePath, n);
      LocatorInjective(basePath, m, n);
    }
  }

  lemma LiveAfterSet(basePath: string, o: Occupation, n: nat)
    requires n < CAPACITY
    ensures Live(basePath, o[n := true]) == Live(basePath, o) + {Locator(basePath, n)}
  {
    var p: Occupation := o[n := true];
    forall s ensures s in Live(basePath, p) <==> s in Live(basePath, o) || s == Locator(basePath, n) {
      LiveAt(basePath, p, n);
      if s in Live(basePath, o) {
        var m :| 0 <= m < CAPACITY && o[m] && Locator(basePath, m) == s;
        LiveAt(basePath, p, m);
      }
    }
  }

  lemma LiveAfterClear(basePath: string, o: Occupation, n: nat)
    requires n < CAPACITY
    ensures Live(basePath, o[n := false]) == Live(basePath, o) - {Locator(basePath, n)}
  {
    var p: Occupation := o[n := false];
    forall s ensures s in Live(basePath, p) <==> s in Live(basePath, o) && s != Locator(basePath, n) {
      LiveAt(basePath, p, n);
      if s in Live(basePath, o) && s != Locator(basePath, n) {
        var m :| 0 <= m < CAPACITY && o[m] && Locator(basePath, m) == s;
        LiveAt(basePath, p, m);
      }
    }
  }

  /** Sixteen locators are live exactly when no bit is free. */
  lemma {:induction false} LiveCount(basePath: string, o: Occupation, upTo: nat)
    requires upTo <= CAPACITY
    ensures var live := set n | 0 <= n < upTo && o[n] :: Locator(basePath, n);
            |live| <= upTo && (|live| == upTo <==> forall n :: 0 <= n < upTo ==> o[n])
    decreases upTo
  {
    var live := set n | 0 <= n < upTo && o[n] :: Locator(basePath, n);
    if upTo == 0 {
      assert live == {};
    } else {
      var last := upTo - 1;
      LiveCount(basePath, o, last);
      var before := set n | 0 <= n < last && o[n] :: Locator(basePath, n);
      if o[last] {
        if Locator(basePath, last) in before {
          var m :| 0 <= m < last && o[m] && Locator(basePath, m) == Locator(basePath, last);
          LocatorInjective(basePath, m, last);
        }
        assert live == before + {Locator(basePath, last)};
      } else {
        assert live == before;
      }
    }
  }

  /** Number n was the least free one; its bit is now set and its locator is the answer. */
  ghost predicate TakesLeastFree(basePath: string, before: Occupation, after: Occupation, n: nat, locator: string) {
    && n < CAPACITY
    && !before[n]
    && (forall m :: 0 <= m < n ==> before[m])
    && after == before[n := true]
    && locator == Locator(basePath, n)
  }

  lemma CountOfLive(basePath: string, o: Occupation)
    ensures |Live(basePath, o)| <= CAPACITY
    ensures |Live(basePath, o)| == CAPACITY <==> forall n :: 0 <= n < CAPACITY ==> o[n]
  {
    LiveCount(basePath, o, CAPACITY);
    assert Live(basePath, o) == set n | 0 <= n < CAPACITY && o[n] :: Locator(basePath, n);
  }

  lemma Taken(basePath: string, o: Occupation, n: nat)
    requires n < CAPACITY && !o[n] && forall m :: 0 <= m < n ==> o[m]
    ensures |Live(basePath, o)| < CAPACITY
    ensures Locator(basePath, n) !in Live(basePath, o)
    ensures Live(basePath, o[n := true]) == Live(basePath, o) + {Locator(basePath, n)}
    ensures TakesLeastFree(basePath, o, o[n := true], n, Locator(basePath, n))
  {
    CountOfLive(basePath, o);
    LiveAt(basePath, o, n);
    LiveAfterSet(basePath, o, n);
  }

  class BufferAdministrator {
    const basePath: string
    const parse: string -> byte   // Core::NumberType<uint8_t>: what it reads in a text
    var occupation: Occupation
    ghost var live: set<string>   // the locators acquired and not yet released

    ghost predicate Valid()
      reads this
    {
      && live == Live(basePath, occupation)
      && forall n {:trigger Text(n)} :: 0 <= n < CAPACITY ==> parse(Text(n)) == n
    }

    constructor (pathName: string, parse: string -> byte)
      requires forall n {:trigger Text(n)} :: 0 <= n < CAPACITY ==> parse(Text(n)) == n
      ensures Valid() && live == {} && basePath == pathName && this.parse == parse
    {
      basePath := pathName;
      this.parse := parse;
      occupation := seq(CAPACITY, _ => false);
      live := {};
      new;
      assert Live(basePath, occupation) == {};
    }

    /** Hands out the least free buffer; refuses exactly when all sixteen are live. */
    method AcquireBuffer() returns (locator: string, acquired: bool)
      requires Valid()
      modifies this
      ensures Valid()
      ensures acquired <==> |old(live)| < CAPACITY
      ensures acquired <==> locator != ""
      ensures acquired ==> locator !in old(live) && live == old(live) + {locator}
      ensures acquired ==> exists n :: TakesLeastFree(basePath, old(occupation), occupation, n, locator)
      ensures !acquired ==> live == old(live) && occupation == old(occupation)
    {
      var index := 0;
      locator := "";
      while index < CAPACITY && occupation[index]
        invariant index <= CAPACITY
        invariant forall m :: 0 <= m < index ==> occupation[m]
      {
        index := index + 1;
      }
      if index < CAPACITY {
        Taken(basePath, occupation, index);
        occupation := occupation[index := true];
        locator := Locator(basePath, index);
        live := live + {locator};
      } else {
        CountOfLive(basePath, occupation);
      }
      acquired := locator != "";
    }

    /** The live buffer a locator names: base path, file name, then a text that reads as its number. */
    ghost predicate Names(locator: string, n: nat)
      reads this
      requires n < CAPACITY
    {
      && basePath + BUFFER_FILE_NAME <= locator
      && parse(locator[|basePath| + |BUFFER_FILE_NAME|..]) == n
      && occupation[n]
    }

    /**
     Releases what the locator names and nothing else; a live locator names itself.  A name the
     program never handed out is honoured when its number reads as that of a live buffer.
     */
    method ReleaseBuffer(locator: string) returns (released: bool)
      requires Valid()
      modifies this
      ensures Valid()
      ensures released <==> exists n :: 0 <= n < CAPACITY && old(Names(locator, n))
      ensures forall n :: 0 <= n < CAPACITY && old(Names(locator, n)) ==>
                live == old(live) - {Locator(basePath, n)} && occupation == old(occupation)[n := false]
      ensures !released ==> live == old(live) && occupation == old(occupation)
      ensures locator in old(live) ==> released && live == old(live) - {locator}
    {
      released := false;
      if basePath <= locator {
        var actualFile := locator[|basePath|..];
        assert basePath + BUFFER_FILE_NAME <= locator <==> BUFFER_FILE_NAME <= actualFile;
        if BUFFER_FILE_NAME <= actualFile {
          assert actualFile[|BUFFER_FILE_NAME|..] == locator[|basePath| + |BUFFER_FILE_NAME|..];
          var number := parse(actualFile[|BUFFER_FILE_NAME|..]);
          if number <= CAPACITY {
            if number < CAPACITY && occupation[number] {
              LiveAfterClear(basePath, occupation, number);
              assert old(Names(locator, number));
              occupation := occupation[number := !occupation[number]];
              live := live - {Locator(basePath, number)};
              released := true;
            }
          }
        }
      }
      LiveLocatorNamesItself(old(live), locator);
    }

    lemma LiveLocatorNamesItself(l: set<string>, locator: string)
      requires forall n {:trigger Text(n)} :: 0 <= n < CAPACITY ==> parse(Text(n)) == n
      ensures forall n :: 0 <= n < CAPACITY && locator == Locator(basePath, n) ==>
                basePath + BUFFER_FILE_NAME <= locator && parse(locator[|basePath| + |BUFFER_FILE_NAME|..]) == n
    {
      forall n | 0 <= n < CAPACITY && locator == Locator(basePath, n)
        ensures basePath + BUFFER_FILE_NAME <= locator && parse(locator[|basePath| + |BUFFER_FILE_NAME|..]) == n
      {
        assert locator[|basePath| + |BUFFER_FILE_NAME|..] == Text(n);
      }
    }
  }
}
