/**
 Which bytes the reader of messages takes, and what it leaves when it refuses: told from the numbers
 that a record is written with.
 */
module MessageReading {
  import opened Common
  import opened Protobuf

  // ----- Records as bytes -----

  /** The wire type of an element, as its number. */
  function TypeCode(e: Element): nat {
    match e
    case UInt(_, _, _) => 0
    case Fixed(wide, _, _) => if wide then 1 else 5
    case Blob(_) => 2
    case Blobs(_) => 2
  }

  /** Whether there is a value of this wire type; groups and unknown types have none. */
  predicate ValueThere(code: nat, rest: seq<byte>) {
    ((code == 0 || code == 2) && DecodeVarint(rest, VARINT_BYTES).Read?)
    || (code == 1 && |rest| >= 8)
    || (code == 5 && |rest| >= 4)
  }

  /** The bytes that it takes; of a payload that is cut, only its size. */
  function ValueSize(code: nat, rest: seq<byte>): nat
    requires ValueThere(code, rest)
  {
    if code == 1 then 8
    else if code == 5 then 4
    else
      var prefix := DecodeVarint(rest, VARINT_BYTES);
      var length := prefix.value % UINT32;
      if code == 2 && prefix.size + length <= |rest| then prefix.size + length else prefix.size
  }

  function KeyOf(tag: nat): nat {
    tag / 8 % UINT32
  }

  /** The key is not zero, and where it is declared, it is so with this wire type. */
  predicate TagFits(fields: Fields, tag: nat) {
    KeyOf(tag) != 0 && (KeyOf(tag) % 0x100 in fields ==> TypeCode(fields[KeyOf(tag) % 0x100]) == tag % 8)
  }

  /** The data begins with a record that the fields allow. */
  predicate Readable(fields: Fields, data: seq<byte>) {
    var tag := DecodeVarint(data, VARINT_BYTES);
    tag.Read? && TagFits(fields, tag.value) && ValueThere(tag.value % 8, data[tag.size..])
  }

  function RecordSize(fields: Fields, data: seq<byte>): (n: nat)
    requires Readable(fields, data)
    ensures 0 < n <= |data|
  {
    var tag := DecodeVarint(data, VARINT_BYTES);
    tag.size + ValueSize(tag.value % 8, data[tag.size..])
  }

  /** The data is one such record after another. */
  predicate Chain(fields: Fields, data: seq<byte>)
    decreases |data|
  {
    data == [] || (Readable(fields, data) && Chain(fields, data[RecordSize(fields, data)..]))
  }

  // ----- One turn of the reader -----

  predicate SameTypes(a: Fields, b: Fields) {
    a.Keys == b.Keys && forall k :: k in a ==> TypeCode(a[k]) == TypeCode(b[k])
  }

  lemma TypesAgree(e: Element, code: nat)
    requires code < 8
    ensures e.Type() == WireTypeOf(code) <==> TypeCode(e) == code
  {
  }

  lemma ElementTakes(e: Element, rest: seq<byte>)
    ensures Deserialized(e, rest).0 == if ValueThere(TypeCode(e), rest) then ValueSize(TypeCode(e), rest) else 0
    ensures TypeCode(Deserialized(e, rest).1) == TypeCode(e)
  {
  }

  lemma SkipTakes(code: nat, rest: seq<byte>)
    requires code < 8
    ensures Skipped(rest, WireTypeOf(code)) == if ValueThere(code, rest) then ValueSize(code, rest) else 0
  {
    var scratch := Scratch(WireTypeOf(code));
    if scratch != [] {
      TypesAgree(scratch[0], code);
      ElementTakes(scratch[0], rest);
    }
  }

  lemma ValueTakes(fields: Fields, tag: nat, rest: seq<byte>)
    ensures Value(fields, WireTypeOf(tag % 8), KeyOf(tag), rest).0
         == if TagFits(fields, tag) && ValueThere(tag % 8, rest) then ValueSize(tag % 8, rest) else 0
    ensures SameTypes(fields, Value(fields, WireTypeOf(tag % 8), KeyOf(tag), rest).1)
  {
    var slot := KeyOf(tag) % 0x100;
    if slot in fields {
      TypesAgree(fields[slot], tag % 8);
      ElementTakes(fields[slot], rest);
    } else {
      SkipTakes(tag % 8, rest);
    }
  }

  /** The reader moves on exactly over a readable record, and exactly by its size. */
  lemma TurnExactly(fields: Fields, data: seq<byte>)
    ensures TurnOf(fields, data).moves <==> Readable(fields, data)
    ensures Readable(fields, data) ==> TurnOf(fields, data).size == RecordSize(fields, data)
    ensures SameTypes(fields, TurnOf(fields, data).fields)
  {
    var tag := DecodeVarint(data, VARINT_BYTES);
    if tag.Read? { ValueTakes(fields, tag.value, data[tag.size..]); }
  }

  // ----- Success -----

  lemma {:induction false} ChainOfTypes(a: Fields, b: Fields, data: seq<byte>)
    requires SameTypes(a, b)
    ensures Chain(a, data) <==> Chain(b, data)
    decreases |data|
  {
    if data != [] && Readable(a, data) {
      assert Readable(b, data) && RecordSize(a, data) == RecordSize(b, data);
      ChainOfTypes(a, b, data[RecordSize(a, data)..]);
    }
  }

  /** Reading a message succeeds if and only if the data is a chain of readable records. */
  lemma {:induction false} SuccessExactly(fields: Fields, data: seq<byte>)
    ensures Parsed(fields, data).ok <==> Chain(fields, data)
    decreases |data|
  {
    if data != [] {
      TurnExactly(fields, data);
      if Readable(fields, data) {
        var t := TurnOf(fields, data);
        SuccessExactly(t.fields, data[t.size..]);
        ChainOfTypes(fields, t.fields, data[t.size..]);
      }
    }
  }

  // ----- Refusals -----

  /** The tag is refused, before any field is touched. */
  predicate TagRefused(fields: Fields, data: seq<byte>) {
    var tag := DecodeVarint(data, VARINT_BYTES);
    tag.Unreadable? || !TagFits(fields, tag.value) || KeyOf(tag.value) % 0x100 !in fields
  }

  /** The same element, or the same value no longer set. */
  predicate UnsetOnly(before: Element, after: Element) {
    match before
    case UInt(modulus, value, _) => after == before || after == UInt(modulus, value, false)
    case Fixed(wide, raw, _) => after == before || after == Fixed(wide, raw, false)
    case _ => after == before
  }

  predicate KeepsContents(before: Fields, after: Fields) {
    before.Keys == after.Keys && forall k :: k in before ==> UnsetOnly(before[k], after[k])
  }

  lemma ElementRefused(e: Element, rest: seq<byte>)
    requires !ValueThere(TypeCode(e), rest)
    ensures UnsetOnly(e, Deserialized(e, rest).1)
  {
    if e.Blob? { assert e.content + [] == e.content; }
  }

  lemma TurnRefused(fields: Fields, data: seq<byte>)
    requires !Readable(fields, data)
    ensures KeepsContents(fields, TurnOf(fields, data).fields)
    ensures TagRefused(fields, data) ==> TurnOf(fields, data).fields == fields
  {
    var tag := DecodeVarint(data, VARINT_BYTES);
    if tag.Read? {
      var slot := KeyOf(tag.value) % 0x100;
      if slot in fields {
        TypesAgree(fields[slot], tag.value % 8);
        if TypeCode(fields[slot]) == tag.value % 8 && KeyOf(tag.value) != 0 {
          ElementRefused(fields[slot], data[tag.size..]);
        }
      }
    }
  }

  lemma RefusedFirst(fields: Fields, bad: seq<byte>)
    requires bad != [] && !Readable(fields, bad)
    ensures !Parsed(fields, bad).ok && KeepsContents(fields, Parsed(fields, bad).fields)
    ensures TagRefused(fields, bad) ==> Parsed(fields, bad).fields == fields
  {
    TurnExactly(fields, bad);
    TurnRefused(fields, bad);
  }

  lemma {:induction false} ReadPast(fields: Fields, records: seq<Record>, bad: seq<byte>)
    requires AllReadable(fields, records)
    ensures Parsed(fields, EncodeAll(records) + bad)
         == From(|EncodeAll(records)|, Parsed(AppliedAll(fields, records), bad))
    decreases |records|
  {
    if records == [] {
      assert EncodeAll(records) + bad == bad;
    } else {
      TailReadable(fields, records);
      var tail := EncodeAll(records[1..]);
      assert EncodeAll(records) + bad == records[0].Encode() + (tail + bad);
      RecordBack(fields, records[0], tail + bad);
      ReadPast(Applied(fields, records[0]), records[1..], bad);
    }
  }

  lemma {:induction false} AppliedTypes(fields: Fields, records: seq<Record>)
    requires AllReadable(fields, records)
    ensures SameTypes(fields, AppliedAll(fields, records))
    decreases |records|
  {
    if records != [] {
      TailReadable(fields, records);
      AppliedTypes(Applied(fields, records[0]), records[1..]);
    }
  }

  /**
   After any readable records, bytes that do not begin with one are refused, whatever follows: the
   reader answers false, with the fields as those records left them.  A number of which the bytes are
   not all there is no longer set.
   */
  lemma RefusedAfter(fields: Fields, records: seq<Record>, bad: seq<byte>)
    requires AllReadable(fields, records) && bad != [] && !Readable(fields, bad)
    ensures var o := Parsed(fields, EncodeAll(records) + bad);
            && !o.ok && KeepsContents(AppliedAll(fields, records), o.fields)
            && (TagRefused(fields, bad) ==> o.fields == AppliedAll(fields, records))
  {
    AppliedTypes(fields, records);
    ReadPast(fields, records, bad);
    RefusedFirst(AppliedAll(fields, records), bad);
  }

  // ----- What is refused -----

  lemma TagRead(tag: nat, rest: seq<byte>)
    requires tag < 0x100_0000_0000_0000
    ensures DecodeVarint(EncodeVarint(tag) + rest, VARINT_BYTES) == Read(tag, |EncodeVarint(tag)|)
    ensures (EncodeVarint(tag) + rest)[|EncodeVarint(tag)|..] == rest
  {
    VarintRoundTrip(tag, rest);
  }

  /** A record of a declared key with another wire type. */
  lemma WrongTypeRefused(fields: Fields, r: Record, rest: seq<byte>)
    requires r.WellFormed() && !r.Matches(fields)
    ensures !Readable(fields, r.Encode() + rest) && TagRefused(fields, r.Encode() + rest)
  {
    var tag := 8 * r.key + r.Code();
    assert r.Encode() + rest == EncodeVarint(tag) + (r.Body() + rest);
    TagRead(tag, r.Body() + rest);
    TagParts(r.key, r.Code(), 0);
    SlotOfKey(r.key);
    TypesAgree(fields[r.Slot()], r.Code());
  }

  /** A key that is zero in 32 bits. */
  lemma ZeroKeyRefused(fields: Fields, key: nat, code: nat, rest: seq<byte>)
    requires code < 8 && 8 * key + code < 0x100_0000_0000_0000 && key % UINT32 == 0
    ensures !Readable(fields, EncodeVarint(8 * key + code) + rest)
    ensures TagRefused(fields, EncodeVarint(8 * key + code) + rest)
  {
    TagRead(8 * key + code, rest);
  }

  /** Groups, and the two numbers that stand for no wire type. */
  lemma GroupRefused(fields: Fields, key: nat, code: nat, rest: seq<byte>)
    requires code in {3, 4, 6, 7} && 8 * key + code < 0x100_0000_0000_0000
    ensures !Readable(fields, EncodeVarint(8 * key + code) + rest)
    ensures TagRefused(fields, EncodeVarint(8 * key + code) + rest)
  {
    TagRead(8 * key + code, rest);
  }

  /** A value of fixed width that is cut short. */
  lemma CutRefused(fields: Fields, key: nat, wide: bool, rest: seq<byte>)
    requires 8 * key + 8 < 0x100_0000_0000_0000 && |rest| < if wide then 8 else 4
    ensures !Readable(fields, EncodeVarint(8 * key + if wide then 1 else 5) + rest)
  {
    TagRead(8 * key + if wide then 1 else 5, rest);
  }

  /** A tag that does not end within eight bytes, or within the data. */
  lemma UnendingTagRefused(fields: Fields, data: seq<byte>)
    requires forall i :: 0 <= i < |data| && i < VARINT_BYTES ==> data[i] >= 0x80
    ensures !Readable(fields, data) && TagRefused(fields, data)
  {
    VarintUnreadable(data, VARINT_BYTES);
  }
}
