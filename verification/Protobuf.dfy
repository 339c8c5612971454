/**
 The reader of protocol-buffer messages that the OCDM plugin uses for Widevine initialisation
 data: varints, fixed-width values, length-delimited bytes, and the message loop over them.
 A pointer and a length are one sequence of the bytes that may still be read.
 */
module Protobuf {
  import opened Common

  const VARINT_BYTES: nat := 8     // sizeof(uint64_t), the reader's budget

  // ----- Varints -----

  /** What a varint reader answers: nothing, or a value and the number of bytes it took. */
  datatype Varint = Unreadable | Read(value: nat, size: nat)

  /** The standard reading of a varint of at most `budget` bytes: base 128, least significant group first. */
  function DecodeVarint(data: seq<byte>, budget: nat): (r: Varint)
    ensures r.Read? ==> 0 < r.size <= |data| && r.size <= budget
    decreases budget
  {
    if budget == 0 || data == [] then Unreadable
    else if data[0] < 0x80 then Read(data[0], 1)
    else
      match DecodeVarint(data[1..], budget - 1)
      case Unreadable => Unreadable
      case Read(value, size) => Read(data[0] - 0x80 + 0x80 * value, 1 + size)
  }

  function Pow128(n: nat): (p: nat)
    ensures p > 0
  {
    if n == 0 then 1 else 0x80 * Pow128(n - 1)
  }

  /** A group moved up by seven bits for each byte before it. */
  function Shifted(group: nat, before: nat): nat {
    Pow128(before) * group
  }

  /** A reading of the tail, seen from the start: `done` bytes hold the value `low`. */
  function After(low: nat, done: nat, tail: Varint): Varint {
    match tail
    case Unreadable => Unreadable
    case Read(value, size) => Read(low + Shifted(value, done), done + size)
  }

  lemma ShiftedSplits(group: nat, v: nat, done: nat)
    ensures Shifted(group + 0x80 * v, done) == Shifted(group, done) + Shifted(v, done + 1)
  {
    var p := Pow128(done);
    assert p * (group + 0x80 * v) == p * group + (0x80 * p) * v;
  }

  lemma AfterStep(low: nat, done: nat, group: nat, tail: Varint)
    ensures After(low, done, if tail.Read? then Read(group + 0x80 * tail.value, 1 + tail.size) else Unreadable)
         == After(low + Shifted(group, done), done + 1, tail)
  {
    if tail.Read? { ShiftedSplits(group, tail.value, done); }
  }

  lemma GroupRead(data: seq<byte>, ptr: nat, size: nat, low: nat)
    requires ptr < |data| && size > 0
    ensures After(low, ptr, DecodeVarint(data[ptr..], size))
         == if data[ptr] < 0x80 then Read(low + Shifted(data[ptr], ptr), ptr + 1)
            else After(low + Shifted(data[ptr] - 0x80, ptr), ptr + 1, DecodeVarint(data[ptr + 1..], size - 1))
  {
    assert data[ptr..][1..] == data[ptr + 1..];
    if data[ptr] >= 0x80 {
      AfterStep(low, ptr, data[ptr] - 0x80, DecodeVarint(data[ptr + 1..], size - 1));
    }
  }

  lemma NothingRead(data: seq<byte>, size: nat)
    ensures DecodeVarint(data, size) == After(0, 0, DecodeVarint(data[0..], size))
  {
    assert data[0..] == data;
  }

  /**
   VarintType::ReadVarint.  The groups have no bits in common, so or-ing one in at `shift`
   adds it times two to that power, 128 for each byte already taken.
   */
  method ReadVarint(data: seq<byte>) returns (result: nat, value: nat)
    ensures DecodeVarint(data, VARINT_BYTES) == if result == 0 then Unreadable else Read(value, result)
  {
    result, value := ReadGroups(data, VARINT_BYTES);
  }

  /** Its loop. */
  method ReadGroups(data: seq<byte>, budget: nat) returns (result: nat, value: nat)
    ensures DecodeVarint(data, budget) == if result == 0 then Unreadable else Read(value, result)
  {
    result := 0;
    value := 0;
    var ptr := 0;
    var size := budget;
    ghost var read := DecodeVarint(data, budget);
    NothingRead(data, size);
    while size != 0 && ptr < |data|
      invariant 0 <= ptr <= |data| && size == budget - ptr
      invariant read == After(value, ptr, DecodeVarint(data[ptr..], size))
    {
      GroupRead(data, ptr, size, value);
      if data[ptr] < 0x80 {
        value := value + Shifted(data[ptr], ptr);
        result := ptr + 1;
        return;
      }
      value := value + Shifted(data[ptr] - 0x80, ptr);
      ptr := ptr + 1;
      size := size - 1;
    }
  }

  /** The canonical varint of a value. */
  function EncodeVarint(v: nat): (s: seq<byte>)
    ensures |s| > 0
  {
    if v < 0x80 then [v] else [0x80 + v % 0x80] + EncodeVarint(v / 0x80)
  }

  lemma {:induction false} VarintRoundTripIn(v: nat, rest: seq<byte>, budget: nat)
    requires budget > 0
    ensures DecodeVarint(EncodeVarint(v) + rest, budget)
         == if v < Pow128(budget) then Read(v, |EncodeVarint(v)|) else Unreadable
    decreases budget
  {
    var s := EncodeVarint(v) + rest;
    assert Pow128(budget) == 0x80 * Pow128(budget - 1);
    if v >= 0x80 {
      assert s[1..] == EncodeVarint(v / 0x80) + rest;
      if budget > 1 {
        VarintRoundTripIn(v / 0x80, rest, budget - 1);
      }
      assert v / 0x80 < Pow128(budget - 1) <==> v < Pow128(budget);
    }
  }

  /** Up to fourteen bits: one byte, or the low seven bits, marked to go on, and then the others. */
  lemma ShortVarints(value: nat)
    requires value < 0x4000
    ensures EncodeVarint(value) == if value < 0x80 then [value] else [0x80 + value % 0x80, value / 0x80]
    ensures DecodeVarint(EncodeVarint(value), VARINT_BYTES) == Read(value, if value < 0x80 then 1 else 2)
  {
    assert EncodeVarint(value) + [] == EncodeVarint(value);
    VarintRoundTrip(value, []);
  }

  /** Decoding undoes encoding for exactly the values below 2 to the power 56, whatever follows. */
  lemma VarintRoundTrip(v: nat, rest: seq<byte>)
    ensures DecodeVarint(EncodeVarint(v) + rest, VARINT_BYTES)
         == if v < 0x100_0000_0000_0000 then Read(v, |EncodeVarint(v)|) else Unreadable
  {
    VarintRoundTripIn(v, rest, VARINT_BYTES);
    Pow128OfEight();
  }

  lemma Pow128OfEight()
    ensures Pow128(8) == 0x100_0000_0000_0000
  {
    assert Pow128(4) == 0x1000_0000;
    assert Pow128(8) == 0x80 * (0x80 * (0x80 * (0x80 * Pow128(4))));
  }

  /** A varint with no final group within its first eight bytes, or cut off before it, reads as nothing. */
  lemma {:induction false} VarintUnreadable(data: seq<byte>, budget: nat)
    ensures DecodeVarint(data, budget).Unreadable?
        <==> forall i :: 0 <= i < |data| && i < budget ==> data[i] >= 0x80
    decreases budget
  {
    if budget > 0 && data != [] {
      VarintUnreadable(data[1..], budget - 1);
      if data[0] >= 0x80 && DecodeVarint(data, budget).Unreadable? {
        forall i | 0 <= i < |data| && i < budget ensures data[i] >= 0x80 {
          if i > 0 { assert data[1..][i - 1] == data[i]; }
        }
      }
      if forall i :: 0 <= i < |data| && i < budget ==> data[i] >= 0x80 {
        forall i | 0 <= i < |data[1..]| && i < budget - 1 ensures data[1..][i] >= 0x80 {
          assert data[1..][i] == data[i + 1];
        }
      }
    }
  }

  // ----- Elements -----

  type pos = x: int | x > 0 witness 1

  datatype WireType = VARINT | FIXED64 | LENGTH_DELIMITED | GROUP_START | GROUP_END | FIXED32 | OTHER

  function WireTypeOf(code: nat): WireType {
    match code
    case 0 => VARINT
    case 1 => FIXED64
    case 2 => LENGTH_DELIMITED
    case 3 => GROUP_START
    case 4 => GROUP_END
    case 5 => FIXED32
    case _ => OTHER
  }

  /**
   The elements a message can declare.  UInt is VarintType over an unsigned type (or an enum over
   one) of `modulus` values; Fixed is Fixed64Type (wide) or Fixed32Type with the little-endian
   bytes of its value; Blob is BytesType and Blobs is RepeatedType over it.
   */
  datatype Element =
    | UInt(modulus: pos, value: nat, isSet: bool)
    | Fixed(wide: bool, raw: seq<byte>, isSet: bool)
    | Blob(content: seq<byte>)
    | Blobs(elements: seq<seq<byte>>)
  {
    function Type(): WireType {
      match this
      case UInt(_, _, _) => VARINT
      case Fixed(wide, _, _) => if wide then FIXED64 else FIXED32
      case Blob(_) => LENGTH_DELIMITED
      case Blobs(_) => LENGTH_DELIMITED
    }
  }

  /** Bytes taken and the payload delivered, by BytesType::Deserialize. */
  function BytesRead(data: seq<byte>): (r: (nat, seq<byte>))
    ensures r.0 <= |data|
  {
    BytesAfter(DecodeVarint(data, VARINT_BYTES), data)
  }

  function BytesAfter(prefix: Varint, data: seq<byte>): (r: (nat, seq<byte>))
    requires prefix.Read? ==> prefix.size <= |data|
    ensures r.0 <= |data|
  {
    match prefix
    case Unreadable => (0, [])
    case Read(value, n) =>
      var size := value % UINT32;
      if n + size <= |data| then (n + size, data[n..n + size]) else (n, [])
  }

  /** Bytes taken by an element and the element afterwards; none taken means it did not parse. */
  function Deserialized(e: Element, data: seq<byte>): (r: (nat, Element))
    ensures r.0 <= |data|
  {
    match e
    case UInt(modulus, value, _) =>
      (match DecodeVarint(data, VARINT_BYTES)
       case Unreadable => (0, UInt(modulus, value, false))
       case Read(v, n) => (n, UInt(modulus, v % modulus, true)))
    case Fixed(wide, raw, _) =>
      var width := if wide then 8 else 4;
      if |data| >= width then (width, Fixed(wide, data[..width], true)) else (0, Fixed(wide, raw, false))
    case Blob(content) =>
      (BytesRead(data).0, Blob(content + BytesRead(data).1))
    case Blobs(elements) =>
      if BytesRead(data).0 == 0 then (0, e) else (BytesRead(data).0, Blobs(elements + [BytesRead(data).1]))
  }

  /** A throw-away element of the wire type, for Message::Skip; none for the types it refuses. */
  function Scratch(t: WireType): (r: seq<Element>)
    ensures forall e :: e in r ==> e.Type() == t
  {
    match t
    case VARINT => [UInt(0x1_0000_0000_0000_0000, 0, false)]
    case FIXED64 => [Fixed(true, [], false)]
    case LENGTH_DELIMITED => [Blob([])]
    case FIXED32 => [Fixed(false, [], false)]
    case _ => []
  }

  function Skipped(data: seq<byte>, t: WireType): (n: nat)
    ensures n <= |data|
  {
    if Scratch(t) == [] then 0 else Deserialized(Scratch(t)[0], data).0
  }

  method DeserializeBytes(data: seq<byte>) returns (result: nat, payload: seq<byte>)
    ensures (result, payload) == BytesRead(data)
  {
    payload := [];
    var value;
    result, value := ReadVarint(data);
    var size := value % UINT32;
    assert result != 0 && size == 0 ==> data[result..result + size] == [];
    if result != 0 && size != 0 && size <= |data| {
      var ptr := result;
      if ptr + size <= |data| {
        payload := data[ptr..ptr + size];
        result := result + size;
      }
    }
  }

  method Deserialize(e: Element, data: seq<byte>) returns (result: nat, e': Element)
    ensures (result, e') == Deserialized(e, data)
  {
    match e
    case UInt(modulus, value, _) =>
      var v;
      result, v := ReadVarint(data);
      e' := UInt(modulus, if result != 0 then v % modulus else value, result != 0);
    case Fixed(wide, raw, _) =>
      var width := if wide then 8 else 4;
      result := if |data| >= width then width else 0;
      e' := Fixed(wide, if result != 0 then data[..width] else raw, result != 0);
    case Blob(content) =>
      var payload;
      result, payload := DeserializeBytes(data);
      e' := Blob(content + payload);
    case Blobs(elements) =>
      var payload;
      result, payload := DeserializeBytes(data);
      e' := if result != 0 then Blobs(elements + [payload]) else e;
  }

  /** Message::Skip */
  method Skip(data: seq<byte>, t: WireType) returns (result: nat)
    ensures result == Skipped(data, t)
  {
    result := 0;
    match t {
      case VARINT =>
        var v;
        result, v := ReadVarint(data);
      case FIXED64 =>
        result := if |data| >= 8 then 8 else 0;
      case LENGTH_DELIMITED =>
        var p;
        result, p := DeserializeBytes(data);
      case FIXED32 =>
        result := if |data| >= 4 then 4 else 0;
      case _ =>
    }
  }

  // ----- Messages -----

  type Fields = map<byte, Element>

  /** A record's tag: wire type, 32-bit key and the bytes it takes. */
  datatype Tag = NoTag | Tag(wireType: WireType, key: nat, size: nat)

  function TagOf(tag: nat, size: nat): Tag {
    Tag(WireTypeOf(tag % 8), (tag / 8) % UINT32, size)
  }

  function DecodeTag(data: seq<byte>): (t: Tag)
    ensures t.Tag? ==> 0 < t.size <= |data|
  {
    match DecodeVarint(data, VARINT_BYTES)
    case Unreadable => NoTag
    case Read(tag, size) => TagOf(tag, size)
  }

  /** The slot a key is looked up in: the map is keyed by one byte. */
  function SlotOf(key: nat): byte {
    key % 0x100
  }

  /** The value behind a tag: the bytes it takes (none: give up) and the fields afterwards. */
  function Value(fields: Fields, t: WireType, key: nat, rest: seq<byte>): (r: (nat, Fields))
    ensures r.0 <= |rest|
  {
    if key == 0 then (0, fields)
    else if SlotOf(key) in fields then
      var e := fields[SlotOf(key)];
      if t == e.Type() then
        var d := Deserialized(e, rest);
        (d.0, fields[SlotOf(key) := d.1])
      else (0, fields)
    else (Skipped(rest, t), fields)
  }

  /** One turn of the message loop: it moves on over a record, or gives up somewhere in it. */
  datatype Turn = Turn(moves: bool, fields: Fields, size: nat)

  function TurnOf(fields: Fields, data: seq<byte>): (r: Turn)
    ensures r.size <= |data| && (r.moves ==> r.size > 0)
  {
    match DecodeTag(data)
    case NoTag => Turn(false, fields, 0)
    case Tag(t, key, size) =>
      var v := Value(fields, t, key, data[size..]);
      Turn(v.0 != 0, v.1, size + v.0)
  }

  /** How the message loop ends: its verdict, the fields it leaves, the bytes it moved over. */
  datatype Outcome = Outcome(ok: bool, fields: Fields, consumed: nat)

  /** An outcome seen from `offset` bytes earlier. */
  function From(offset: nat, o: Outcome): Outcome {
    o.(consumed := offset + o.consumed)
  }

  /** The message loop over any turn function: turn after turn until the data ends or one gives up. */
  function Scan(turn: (Fields, seq<byte>) -> Turn, fields: Fields, data: seq<byte>): Outcome
    decreases |data|
  {
    if data == [] then Outcome(true, fields, 0)
    else
      var t := turn(fields, data);
      if t.moves && 0 < t.size <= |data| then From(t.size, Scan(turn, t.fields, data[t.size..]))
      else Outcome(false, t.fields, t.size)
  }

  /** What FromBuffer makes of some bytes. */
  function Parsed(fields: Fields, data: seq<byte>): Outcome {
    Scan(TurnOf, fields, data)
  }

  /** The reader never moves past the end, and stands exactly there when it succeeds. */
  lemma {:induction false} ParsedStaysInside(fields: Fields, data: seq<byte>)
    ensures Parsed(fields, data).consumed <= |data|
    ensures Parsed(fields, data).ok ==> Parsed(fields, data).consumed == |data|
    decreases |data|
  {
    if data != [] {
      var t := TurnOf(fields, data);
      if t.moves { ParsedStaysInside(t.fields, data[t.size..]); }
    }
  }

  /** Where the loop stands between two records: the fields so far and the cursor. */
  datatype Stand = Stand(fields: Fields, ptr: nat)

  ghost predicate StepsTo(turn: (Fields, seq<byte>) -> Turn, data: seq<byte>, from: Stand, to: Stand, moves: bool) {
    from.ptr < |data| && to.ptr <= |data| && from.ptr <= to.ptr && (moves ==> from.ptr < to.ptr)
    && turn(from.fields, data[from.ptr..]) == Turn(moves, to.fields, to.ptr - from.ptr)
  }

  /** The stands of the loop so far: each record moved it on by one turn. */
  ghost predicate Walked(turn: (Fields, seq<byte>) -> Turn, data: seq<byte>, stands: seq<Stand>) {
    && |stands| > 0
    && stands[0].ptr == 0
    && (forall i :: 0 <= i < |stands| ==> stands[i].ptr <= |data|)
    && forall i :: 0 < i < |stands| ==> StepsTo(turn, data, stands[i - 1], stands[i], true)
  }

  lemma ScanStep(turn: (Fields, seq<byte>) -> Turn, data: seq<byte>, from: Stand, to: Stand, moves: bool)
    requires StepsTo(turn, data, from, to, moves)
    ensures From(from.ptr, Scan(turn, from.fields, data[from.ptr..]))
         == if moves then From(to.ptr, Scan(turn, to.fields, data[to.ptr..])) else Outcome(false, to.fields, to.ptr)
  {
    assert data[from.ptr..][to.ptr - from.ptr..] == data[to.ptr..];
  }

  lemma {:induction false} WalkedScan(turn: (Fields, seq<byte>) -> Turn, data: seq<byte>, stands: seq<Stand>)
    requires Walked(turn, data, stands)
    ensures var last := stands[|stands| - 1];
            Scan(turn, stands[0].fields, data) == From(last.ptr, Scan(turn, last.fields, data[last.ptr..]))
    decreases |stands|
  {
    var n := |stands| - 1;
    if n == 0 {
      assert data[0..] == data;
    } else {
      WalkedScan(turn, data, stands[..n]);
      ScanStep(turn, data, stands[n - 1], stands[n], true);
    }
  }

  /** The loop stands here, in front of a record, or after one that it could not read. */
  ghost predicate Arrived(turn: (Fields, seq<byte>) -> Turn, data: seq<byte>, start: Fields, stands: seq<Stand>,
      result: bool, here: Stand)
  {
    && Walked(turn, data, stands) && stands[0].fields == start && here.ptr <= |data|
    && var last := stands[|stands| - 1];
       if result then last == here else StepsTo(turn, data, last, here, false)
  }

  lemma ArrivedAtStart(turn: (Fields, seq<byte>) -> Turn, data: seq<byte>, start: Fields)
    ensures Arrived(turn, data, start, [Stand(start, 0)], true, Stand(start, 0))
  {
  }

  lemma ArrivedNext(turn: (Fields, seq<byte>) -> Turn, data: seq<byte>, start: Fields, stands: seq<Stand>,
      here: Stand, moves: bool, next: Stand)
    requires Arrived(turn, data, start, stands, true, here) && StepsTo(turn, data, here, next, moves)
    ensures Arrived(turn, data, start, if moves then stands + [next] else stands, moves, next)
  {
  }

  lemma FinishedScan(turn: (Fields, seq<byte>) -> Turn, data: seq<byte>, start: Fields, stands: seq<Stand>,
      result: bool, end: Stand)
    requires Arrived(turn, data, start, stands, result, end) && (result ==> end.ptr == |data|)
    ensures Scan(turn, start, data) == Outcome(result, end.fields, end.ptr)
  {
    WalkedScan(turn, data, stands);
    if result {
      assert data[end.ptr..] == [];
    } else {
      ScanStep(turn, data, stands[|stands| - 1], end, false);
    }
  }

  class Message {
    var elements: Fields

    constructor (declared: Fields)
      ensures elements == declared
    {
      elements := declared;
    }

    method ReadValue(t: WireType, key: nat, rest: seq<byte>) returns (consumed: nat)
      modifies this
      ensures (consumed, elements) == Value(old(elements), t, key, rest)
    {
      consumed := 0;
      if key != 0 {
        if SlotOf(key) in elements {
          if t == elements[SlotOf(key)].Type() {
            var e;
            consumed, e := Deserialize(elements[SlotOf(key)], rest);
            elements := elements[SlotOf(key) := e];
          }
        } else {
          consumed := Skip(rest, t);
        }
      }
    }

    method ReadRecord(data: seq<byte>) returns (moves: bool, size: nat)
      modifies this
      ensures Turn(moves, elements, size) == TurnOf(old(elements), data)
    {
      var tagSize, tag := ReadVarint(data);
      if tagSize > 0 {
        var t := TagOf(tag, tagSize);
        var consumed := ReadValue(t.wireType, t.key, data[tagSize..]);
        moves := consumed != 0;
        size := tagSize + consumed;
      } else {
        moves := false;
        size := 0;
      }
    }

    /** Message::FromBuffer: on any bytes it ends, stays inside them, and leaves what Parsed says. */
    method FromBuffer(data: seq<byte>) returns (result: bool, ghost stop: nat)
      modifies this
      ensures Parsed(old(elements), data) == Outcome(result, elements, stop)
      ensures stop <= |data|
    {
      result := true;
      var ptr := 0;
      ghost var stands := [Stand(elements, 0)];
      ArrivedAtStart(TurnOf, data, elements);
      while ptr < |data| && result
        invariant ptr <= |data| && Arrived(TurnOf, data, old(elements), stands, result, Stand(elements, ptr))
        decreases |data| - ptr, result
      {
        ghost var here := Stand(elements, ptr);
        var size;
        result, size := ReadRecord(data[ptr..]);
        ptr := ptr + size;
        ArrivedNext(TurnOf, data, old(elements), stands, here, result, Stand(elements, ptr));
        if result {
          stands := stands + [Stand(elements, ptr)];
        }
      }
      stop := ptr;
      FinishedScan(TurnOf, data, old(elements), stands, result, Stand(elements, ptr));
    }
  }

  // ----- Writing records, and reading them back -----

  datatype Record =
    | VarintRecord(key: nat, value: nat)
    | Fixed64Record(key: nat, raw: seq<byte>)
    | BytesRecord(key: nat, payload: seq<byte>)
    | Fixed32Record(key: nat, raw: seq<byte>)
  {
    function Code(): (c: nat)
      ensures c < 8
    {
      match this
      case VarintRecord(_, _) => 0
      case Fixed64Record(_, _) => 1
      case BytesRecord(_, _) => 2
      case Fixed32Record(_, _) => 5
    }

    /** The slot the reader puts the record in. */
    function Slot(): byte {
      SlotOf(key)
    }

    function Body(): seq<byte> {
      match this
      case VarintRecord(_, value) => EncodeVarint(value)
      case Fixed64Record(_, raw) => raw
      case BytesRecord(_, payload) => EncodeVarint(|payload|) + payload
      case Fixed32Record(_, raw) => raw
    }

    function Encode(): seq<byte> {
      EncodeVarint(8 * key + Code()) + Body()
    }

    /** Sizes the wire format allows, and a key the reader does not take for zero. */
    predicate WellFormed() {
      && key % UINT32 != 0
      && 8 * key + Code() < 0x100_0000_0000_0000
      && match this
         case VarintRecord(_, value) => value < 0x100_0000_0000_0000
         case Fixed64Record(_, raw) => |raw| == 8
         case BytesRecord(_, payload) => |payload| < UINT32
         case Fixed32Record(_, raw) => |raw| == 4
    }

    predicate Matches(fields: Fields) {
      Slot() in fields ==> fields[Slot()].Type() == WireTypeOf(Code())
    }
  }

  /** What a record means to the fields. */
  function Applied(fields: Fields, r: Record): (f: Fields)
    requires r.WellFormed() && r.Matches(fields)
    ensures f.Keys == fields.Keys
    ensures forall k :: k in fields ==> f[k].Type() == fields[k].Type()
  {
    if r.Slot() !in fields then fields
    else
      var e := fields[r.Slot()];
      fields[r.Slot() :=
        match e
        case UInt(modulus, _, _) => UInt(modulus, r.value % modulus, true)
        case Fixed(wide, _, _) => Fixed(wide, r.raw, true)
        case Blob(content) => Blob(content + r.payload)
        case Blobs(elements) => Blobs(elements + [r.payload])]
  }

  predicate AllReadable(fields: Fields, records: seq<Record>) {
    forall r :: r in records ==> r.WellFormed() && r.Matches(fields)
  }

  function AppliedAll(fields: Fields, records: seq<Record>): (f: Fields)
    requires AllReadable(fields, records)
    ensures f.Keys == fields.Keys
    decreases |records|
  {
    if records == [] then fields
    else AppliedAll(Applied(fields, records[0]), records[1..])
  }

  lemma TailReadable(fields: Fields, records: seq<Record>)
    requires records != [] && AllReadable(fields, records)
    ensures records[0].WellFormed() && records[0].Matches(fields)
    ensures AllReadable(Applied(fields, records[0]), records[1..])
  {
  }

  function EncodeAll(records: seq<Record>): seq<byte> {
    if records == [] then [] else records[0].Encode() + EncodeAll(records[1..])
  }

  lemma TagParts(key: nat, code: nat, size: nat)
    requires code < 8
    ensures TagOf(8 * key + code, size) == Tag(WireTypeOf(code), key % UINT32, size)
  {
  }

  lemma SlotOfKey(key: nat)
    ensures SlotOf(key % UINT32) == SlotOf(key)
  {
  }

  lemma BytesBack(payload: seq<byte>, rest: seq<byte>)
    requires |payload| < UINT32
    ensures BytesRead((EncodeVarint(|payload|) + payload) + rest) == (|EncodeVarint(|payload|) + payload|, payload)
  {
    var n := EncodeVarint(|payload|);
    ThreeParts(n, payload, rest);
    VarintRoundTrip(|payload|, payload + rest);
    SizeThenBytes(n + (payload + rest), |payload|, |n|);
  }

  lemma ThreeParts(a: seq<byte>, b: seq<byte>, c: seq<byte>)
    ensures (a + b) + c == a + (b + c) && (a + (b + c))[|a|..|a| + |b|] == b
  {
  }

  lemma SizeThenBytes(data: seq<byte>, size: nat, at: nat)
    requires size < UINT32 && at + size <= |data|
    ensures BytesAfter(Read(size, at), data) == (at + size, data[at..at + size])
  {
  }

  /** A record's body is read back by any element of its wire type. */
  lemma BodyBack(e: Element, r: Record, rest: seq<byte>)
    requires r.WellFormed() && e.Type() == WireTypeOf(r.Code())
    ensures var d := Deserialized(e, r.Body() + rest);
            d.0 == |r.Body()| && d.1 == match e
                                        case UInt(modulus, _, _) => UInt(modulus, r.value % modulus, true)
                                        case Fixed(wide, _, _) => Fixed(wide, r.raw, true)
                                        case Blob(content) => Blob(content + r.payload)
                                        case Blobs(elements) => Blobs(elements + [r.payload])
  {
    match r
    case VarintRecord(_, value) => VarintRoundTrip(value, rest);
    case Fixed64Record(_, raw) => assert (raw + rest)[..8] == raw;
    case BytesRecord(_, payload) => BytesBack(payload, rest);
    case Fixed32Record(_, raw) => assert (raw + rest)[..4] == raw;
  }

  lemma BodyNotEmpty(r: Record)
    requires r.WellFormed()
    ensures |r.Body()| > 0
  {
  }

  lemma ValueBack(fields: Fields, r: Record, rest: seq<byte>)
    requires r.WellFormed() && r.Matches(fields)
    ensures Value(fields, WireTypeOf(r.Code()), r.key % UINT32, r.Body() + rest) == (|r.Body()|, Applied(fields, r))
  {
    SlotOfKey(r.key);
    if r.Slot() in fields {
      BodyBack(fields[r.Slot()], r, rest);
    } else {
      BodyBack(Scratch(WireTypeOf(r.Code()))[0], r, rest);
    }
  }

  lemma TagBack(r: Record, rest: seq<byte>)
    requires r.WellFormed()
    ensures var n := EncodeVarint(8 * r.key + r.Code());
            DecodeTag(n + rest) == Tag(WireTypeOf(r.Code()), r.key % UINT32, |n|)
  {
    var tag := 8 * r.key + r.Code();
    VarintRoundTrip(tag, rest);
    TagParts(r.key, r.Code(), |EncodeVarint(tag)|);
  }

  lemma TurnBack(fields: Fields, r: Record, rest: seq<byte>)
    requires r.WellFormed() && r.Matches(fields)
    ensures TurnOf(fields, r.Encode() + rest) == Turn(true, Applied(fields, r), |r.Encode()|)
  {
    var n := EncodeVarint(8 * r.key + r.Code());
    var tail := r.Body() + rest;
    assert r.Encode() + rest == n + tail;
    TagBack(r, tail);
    assert (n + tail)[|n|..] == tail;
    ValueBack(fields, r, rest);
    BodyNotEmpty(r);
  }

  lemma RecordBack(fields: Fields, r: Record, rest: seq<byte>)
    requires r.WellFormed() && r.Matches(fields)
    ensures Parsed(fields, r.Encode() + rest) == From(|r.Encode()|, Parsed(Applied(fields, r), rest))
  {
    TurnBack(fields, r, rest);
    assert (r.Encode() + rest)[|r.Encode()|..] == rest;
  }

  /** Reading undoes writing: every record reaches its field, and the reader ends exactly at the end. */
  lemma {:induction false} MessageRoundTrip(fields: Fields, records: seq<Record>)
    requires AllReadable(fields, records)
    ensures Parsed(fields, EncodeAll(records)) == Outcome(true, AppliedAll(fields, records), |EncodeAll(records)|)
    decreases |records|
  {
    if records != [] {
      TailReadable(fields, records);
      RecordBack(fields, records[0], EncodeAll(records[1..]));
      MessageRoundTrip(Applied(fields, records[0]), records[1..]);
    }
  }

  /** The payloads written under the keys that share a slot, in order. */
  function Payloads(records: seq<Record>, slot: byte): seq<seq<byte>> {
    if records == [] then []
    else (if records[0].BytesRecord? && records[0].Slot() == slot then [records[0].payload] else [])
         + Payloads(records[1..], slot)
  }

  function Concat(parts: seq<seq<byte>>): seq<byte> {
    if parts == [] then [] else parts[0] + Concat(parts[1..])
  }

  /** What one record does to a length-delimited field. */
  lemma SlotAfter(fields: Fields, r: Record, slot: byte)
    requires r.WellFormed() && r.Matches(fields) && slot in fields && fields[slot].Type() == LENGTH_DELIMITED
    ensures r.Slot() != slot ==> Applied(fields, r)[slot] == fields[slot]
    ensures r.Slot() == slot ==> r.BytesRecord?
    ensures r.Slot() == slot && fields[slot].Blobs?
        ==> Applied(fields, r)[slot] == Blobs(fields[slot].elements + [r.payload])
    ensures r.Slot() == slot && fields[slot].Blob?
        ==> Applied(fields, r)[slot] == Blob(fields[slot].content + r.payload)
  {
  }

  /** A repeated field collects exactly its payloads, in order. */
  lemma {:induction false} RepeatedCollects(fields: Fields, records: seq<Record>, slot: byte)
    requires AllReadable(fields, records) && slot in fields && fields[slot].Blobs?
    ensures AppliedAll(fields, records)[slot] == Blobs(fields[slot].elements + Payloads(records, slot))
    decreases |records|
  {
    if records == [] {
      assert fields[slot].elements + [] == fields[slot].elements;
    } else {
      TailReadable(fields, records);
      SlotAfter(fields, records[0], slot);
      RepeatedCollects(Applied(fields, records[0]), records[1..], slot);
      var tail := Payloads(records[1..], slot);
      if records[0].Slot() == slot {
        assert (fields[slot].elements + [records[0].payload]) + tail
            == fields[slot].elements + ([records[0].payload] + tail);
      } else {
        assert [] + tail == tail;
      }
    }
  }

  /** A singular bytes field ends up as the concatenation of every payload written to it. */
  lemma {:induction false} SingularConcatenates(fields: Fields, records: seq<Record>, slot: byte)
    requires AllReadable(fields, records) && slot in fields && fields[slot].Blob?
    ensures AppliedAll(fields, records)[slot] == Blob(fields[slot].content + Concat(Payloads(records, slot)))
    decreases |records|
  {
    if records == [] {
      assert fields[slot].content + [] == fields[slot].content;
    } else {
      TailReadable(fields, records);
      SlotAfter(fields, records[0], slot);
      SingularConcatenates(Applied(fields, records[0]), records[1..], slot);
      var tail := Payloads(records[1..], slot);
      if records[0].Slot() == slot {
        assert ([records[0].payload] + tail)[1..] == tail;
        assert (fields[slot].content + records[0].payload) + Concat(tail)
            == fields[slot].content + (records[0].payload + Concat(tail));
      } else {
        assert [] + tail == tail;
      }
    }
  }

  /** Payload bytes are delivered exactly when all of them are there; else only their count is taken. */
  lemma BytesDeliveredIffComplete(n: nat, data: seq<byte>)
    requires 0 < n < UINT32
    ensures BytesRead(EncodeVarint(n) + data)
         == if n <= |data| then (|EncodeVarint(n)| + n, data[..n]) else (|EncodeVarint(n)|, [])
  {
    VarintRoundTrip(n, data);
    if n <= |data| {
      MiddleOf(EncodeVarint(n), data, n);
    }
  }

  lemma MiddleOf(prefix: seq<byte>, data: seq<byte>, n: nat)
    requires n <= |data|
    ensures (prefix + data)[|prefix|..|prefix| + n] == data[..n]
  {
  }

  // ----- Keys above 255 -----

  /** A bytes record changes the repeated field declared under k exactly when its key has the low byte k. */
  lemma KeysAlias(fields: Fields, r: Record, k: byte)
    requires r.WellFormed() && r.Matches(fields) && r.BytesRecord? && k in fields && fields[k].Blobs?
    ensures var o := Parsed(fields, r.Encode());
            o.ok && k in o.fields && (o.fields[k] != fields[k] <==> r.key % 0x100 == k)
  {
    RecordBack(fields, r, []);
    SlotAfter(fields, r, k);
    assert r.Encode() + [] == r.Encode();
    assert |fields[k].elements + [r.payload]| != |fields[k].elements|;
  }

  /** The payloads written under this very key, in order. */
  function OwnPayloads(records: seq<Record>, key: nat): seq<seq<byte>> {
    if records == [] then []
    else (if records[0].BytesRecord? && records[0].key == key then [records[0].payload] else [])
         + OwnPayloads(records[1..], key)
  }

  /** A bytes record whose key is another one with the same low byte. */
  predicate Strays(r: Record, k: byte) {
    r.BytesRecord? && r.Slot() == k && r.key != k
  }

  lemma {:induction false} StrayPayloads(records: seq<Record>, k: byte)
    ensures |OwnPayloads(records, k)| <= |Payloads(records, k)|
    ensures (exists r :: r in records && Strays(r, k)) ==> |OwnPayloads(records, k)| < |Payloads(records, k)|
    ensures (forall r :: r in records ==> !Strays(r, k)) ==> OwnPayloads(records, k) == Payloads(records, k)
  {
    if records != [] {
      StrayPayloads(records[1..], k);
      assert records[0] in records && forall r :: r in records <==> r == records[0] || r in records[1..];
      assert records[0].BytesRecord? && records[0].key == k ==> records[0].Slot() == k;
    }
  }

  /**
   A repeated field ends with exactly the payloads of its own key if and only if no bytes record has
   another key with the same low byte.
   */
  lemma OwnPayloadsExactly(fields: Fields, records: seq<Record>, k: byte)
    requires AllReadable(fields, records) && k in fields && fields[k].Blobs?
    ensures AppliedAll(fields, records)[k] == Blobs(fields[k].elements + OwnPayloads(records, k))
       <==> forall r :: r in records ==> !Strays(r, k)
  {
    RepeatedCollects(fields, records, k);
    StrayPayloads(records, k);
    if exists r :: r in records && Strays(r, k) {
      assert |fields[k].elements + OwnPayloads(records, k)| < |fields[k].elements + Payloads(records, k)|;
    }
  }
}
