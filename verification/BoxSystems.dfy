/**
 Whose key ids a PSSH box lists, told from the sixteen bytes of its system id, and what a body lists
 that is not one of the two versions, or is cut.
 */
module BoxSystems {
  import opened BodyBounds
  import opened Common
  import opened CommonEncryption
  import opened KeyIds
  import MessageReading
  import Protobuf

  // ----- The system of a box -----

  /** The boxes of a system; those of no system named here count as Common. */
  predicate IsFor(systemId: seq<byte>, s: System)
    decreases s == COMMON
  {
    match s
    case PLAYREADY => systemId == [0x9a, 0x04, 0xf0, 0x79, 0x98, 0x40, 0x42, 0x86,
                                   0xab, 0x92, 0xe6, 0x5b, 0xe0, 0x88, 0x5f, 0x95]
    case WIDEVINE => systemId == [0xed, 0xef, 0x8b, 0xa9, 0x79, 0xd6, 0x4a, 0xce,
                                  0xa3, 0xc8, 0x27, 0xdc, 0xd5, 0x1d, 0x21, 0xed]
    case CLEARKEY => systemId == [0x58, 0x14, 0x7e, 0xc8, 0x04, 0x23, 0x46, 0x59,
                                  0x92, 0xe6, 0xf5, 0x2c, 0x5c, 0xe8, 0xc3, 0xcc]
    case COMMON => forall t :: t != COMMON ==> !IsFor(systemId, t)
  }

  /** The ids in a payload of a system: PlayReady and Widevine have some. */
  function InPayload(o: Outside, s: System, payload: seq<byte>): seq<Id> {
    if s == PLAYREADY then o.playReady(payload)
    else if s == WIDEVINE then WidevineIds(o, payload)
    else []
  }

  /** The ids that a box lists: those of its payload, then its own. */
  function Listed(o: Outside, s: System, b: Box): seq<Id> {
    InPayload(o, s, b.payload) + b.keys
  }

  /** The additions are these ids, in order, all under one system. */
  predicate AllUnder(adds: seq<Addition>, ids: seq<Id>, s: System) {
    |adds| == |ids| && forall i :: 0 <= i < |ids| ==> adds[i] == Addition(ids[i], s)
  }

  lemma {:induction false} FlaggedUnder(ids: seq<Id>, s: System)
    ensures AllUnder(Flagged(ids, s), ids, s)
  {
    if ids != [] { FlaggedUnder(ids[1..], s); }
  }

  lemma DrmIs(o: Outside, systemId: seq<byte>, s: System, payload: seq<byte>)
    requires IsFor(systemId, s)
    ensures FlagOf(DrmOf(systemId)) == s
    ensures PayloadIds(o, DrmOf(systemId), payload) == InPayload(o, s, payload)
  {
    if s == COMMON {
      assert !IsFor(systemId, PLAYREADY) && !IsFor(systemId, WIDEVINE) && !IsFor(systemId, CLEARKEY);
    }
  }

  lemma PiecesAdd(o: Outside, systemId: seq<byte>, p: Pieces, s: System)
    requires IsFor(systemId, s)
    ensures AllUnder(PieceAdditions(o, DrmOf(systemId), p),
                     (if p.hasPayload then InPayload(o, s, p.payload) else []) + p.keys, s)
  {
    DrmIs(o, systemId, s, p.payload);
    FlaggedUnder(if p.hasPayload then InPayload(o, s, p.payload) else [], s);
    FlaggedUnder(p.keys, s);
  }

  /** Every box is of one system, and adds the ids that it lists under that one. */
  lemma BoxAdds(o: Outside, b: Box, s: System)
    requires IsFor(b.systemId, s)
    ensures AllUnder(b.Additions(o), Listed(o, s, b), s)
  {
    PiecesAdd(o, b.systemId, Pieces(b.version == 1, b.keys, true, b.payload), s);
  }

  lemma OneSystem(systemId: seq<byte>)
    ensures exists s :: IsFor(systemId, s)
    ensures forall s, t :: IsFor(systemId, s) && IsFor(systemId, t) ==> s == t
  {
    if !IsFor(systemId, PLAYREADY) && !IsFor(systemId, WIDEVINE) && !IsFor(systemId, CLEARKEY) {
      assert IsFor(systemId, COMMON);
    }
    assert systemId == [] || systemId[0] in {0x9a, 0xed, 0x58} || IsFor(systemId, COMMON);
  }

  // ----- The systems of an id -----

  /** One of the boxes is of the system and lists the id. */
  ghost predicate ListedUnder(o: Outside, boxes: seq<Box>, id: Id, s: System) {
    exists b :: b in boxes && IsFor(b.systemId, s) && id in Listed(o, s, b)
  }

  lemma InAdditions(o: Outside, b: Box, id: Id, s: System)
    ensures Addition(id, s) in b.Additions(o) <==> IsFor(b.systemId, s) && id in Listed(o, s, b)
  {
    OneSystem(b.systemId);
    var own :| IsFor(b.systemId, own);
    BoxAdds(o, b, own);
    if s == own && id in Listed(o, s, b) {
      var i :| 0 <= i < |Listed(o, s, b)| && Listed(o, s, b)[i] == id;
      assert b.Additions(o)[i] == Addition(id, s);
    }
  }

  lemma ListedFirst(o: Outside, boxes: seq<Box>, id: Id, s: System)
    requires boxes != []
    ensures ListedUnder(o, boxes, id, s)
       <==> (IsFor(boxes[0].systemId, s) && id in Listed(o, s, boxes[0])) || ListedUnder(o, boxes[1..], id, s)
  {
    assert forall b :: b in boxes <==> b == boxes[0] || b in boxes[1..];
  }

  lemma {:induction false} InAdditionsOf(o: Outside, boxes: seq<Box>, id: Id, s: System)
    ensures Addition(id, s) in AdditionsOf(o, boxes) <==> ListedUnder(o, boxes, id, s)
    decreases |boxes|
  {
    if boxes != [] {
      InAdditions(o, boxes[0], id, s);
      InAdditionsOf(o, boxes[1..], id, s);
      ListedFirst(o, boxes, id, s);
    }
  }

  /**
   After parsing a chain of well-formed boxes, an id of the list is flagged with a system if and only if
   a box with the system id of that one lists it, in its payload or among its own key ids.
   */
  lemma FlagsOfChain(o: Outside, boxes: seq<Box>, i: nat, s: System)
    requires boxes != [] && forall b :: b in boxes ==> b.WellFormed()
    requires |EncodeBoxes(boxes)| < UINT16
    requires i < |AddedAll([], DataAdditions(o, EncodeBoxes(boxes)))|
    ensures var key := AddedAll([], DataAdditions(o, EncodeBoxes(boxes)))[i];
            s in key.systems <==> ListedUnder(o, boxes, key.id, s)
  {
    var adds := AdditionsOf(o, boxes);
    ChainYieldsLedger(o, boxes);
    BoxesBack(o, boxes);
    var key := AddedAll([], adds)[i];
    InAdditionsOf(o, boxes, key.id, s);
    assert Addition(key.id, s) in adds ==> s in set a | a in adds && a.id == key.id :: a.system;
  }

  // ----- The payload of a Widevine box -----

  /** The fields of the message by number and wire type; what has another number is skipped. */
  lemma WidevineMatches(r: Protobuf.Record)
    requires r.WellFormed()
    ensures r.Slot() in {1, 7, 9, 10} ==> (r.Matches(WIDEVINE_FIELDS) <==> r.VarintRecord?)
    ensures r.Slot() in {2, 3, 4, 5, 6, 8} ==> (r.Matches(WIDEVINE_FIELDS) <==> r.BytesRecord?)
    ensures r.Slot() !in {1, 2, 3, 4, 5, 6, 7, 8, 9, 10} ==> r.Matches(WIDEVINE_FIELDS)
  {
  }

  /** Of an id that is not of sixteen bytes, the size passes through eight bits. */
  lemma {:induction false} MadeIdAt(o: Outside, payloads: seq<seq<byte>>, i: nat, k: nat)
    requires i < |payloads| && k < 0x100 && k <= |payloads[i]| && (|payloads[i]| - k) % 0x100 == 0
    ensures |MadeIds(o, payloads)| == |payloads|
    ensures MadeIds(o, payloads)[i] == o.makeId(payloads[i][..k])
  {
    if i > 0 {
      MadeIdAt(o, payloads[1..], i - 1, k);
    } else if |payloads| > 1 {
      MadeIdAt(o, payloads[1..], 0, |payloads[1]| % 0x100);
    }
  }

  /** The payloads of the records with number 2 are the ids of a Widevine payload, in order. */
  lemma WidevineLists(o: Outside, records: seq<Protobuf.Record>)
    requires Protobuf.AllReadable(WIDEVINE_FIELDS, records)
    ensures WidevineIds(o, Protobuf.EncodeAll(records)) == MadeIds(o, Protobuf.Payloads(records, 2))
  {
    Protobuf.MessageRoundTrip(WIDEVINE_FIELDS, records);
    Protobuf.RepeatedCollects(WIDEVINE_FIELDS, records, 2);
    var ids := Protobuf.Payloads(records, 2);
    assert [] + ids == ids;
  }

  /** A payload with anything in it that the reader of messages must refuse has none. */
  lemma WidevineRefused(o: Outside, payload: seq<byte>)
    requires !MessageReading.Chain(WIDEVINE_FIELDS, payload)
    ensures WidevineIds(o, payload) == []
  {
    MessageReading.SuccessExactly(WIDEVINE_FIELDS, payload);
  }

  // ----- Bodies that are not whole -----

  /** Bodies below the size of a header, and those of other versions, add nothing. */
  lemma NoBody(o: Outside, body: seq<byte>)
    requires |body| < 24 || body[0] > 1
    ensures BodyAdditions(o, body) == []
  {
  }

  /** A version 0 body that is shorter than its payload adds nothing. */
  lemma CutPayload(o: Outside, head: seq<byte>, size: nat, tail: seq<byte>)
    requires |head| == 20 && head[0] == 0 && |tail| < size < UINT32
    ensures BodyAdditions(o, head + Write32BE(size) + tail) == []
  {
    var body := head + Write32BE(size) + tail;
    assert body[20..] == Write32BE(size) + tail;
    Read32Back(size, tail);
  }

  /** A version 1 body that is shorter than its key ids and the size behind them adds nothing. */
  lemma CutKeys(o: Outside, head: seq<byte>, count: nat, tail: seq<byte>)
    requires |head| == 20 && head[0] == 1 && count < UINT32 && |tail| < 16 * count + 4
    ensures BodyAdditions(o, head + Write32BE(count) + tail) == []
  {
    var body := head + Write32BE(count) + tail;
    assert body[20..] == Write32BE(count) + tail;
    Read32Back(count, tail);
  }

  lemma SizedCut(size: nat, tail: seq<byte>)
    requires |tail| < size < UINT32
    ensures SizedPayload(Write32BE(size) + tail) == NOTHING
  {
    Read32Back(size, tail);
  }

  lemma KeysThenCut(keys: seq<Id>, sized: seq<byte>)
    requires |keys| < UINT16 && |sized| >= 4 && SizedPayload(sized) == NOTHING
    ensures KeysThenPayload((Write32BE(|keys|) + Joined(keys)) + sized) == Pieces(true, keys, false, [])
  {
    AfterCount(Write32BE(|keys|), Joined(keys), sized);
    Read32Back(|keys|, Joined(keys) + sized);
    KeysBack(keys, sized);
    KeysThenPayloadIs(Write32BE(|keys|) + (Joined(keys) + sized), keys, NOTHING);
  }

  lemma HeadAway(o: Outside, head: seq<byte>, tail: seq<byte>, p: Pieces)
    requires |head| == 20 && head[0] == 1 && |tail| >= 4 && KeysThenPayload(tail) == p
    ensures BodyAdditions(o, head + tail) == PieceAdditions(o, DrmOf(head[4..20]), p)
  {
    assert (head + tail)[20..] == tail && (head + tail)[4..20] == head[4..20];
  }

  /** With the payload cut, a version 1 body still adds its key ids, under the system of the body. */
  lemma CutAfterKeys(o: Outside, head: seq<byte>, keys: seq<Id>, size: nat, tail: seq<byte>, s: System)
    requires |head| == 20 && head[0] == 1 && |keys| < UINT16 && |tail| < size < UINT32 && IsFor(head[4..20], s)
    ensures AllUnder(BodyAdditions(o, head + (Write32BE(|keys|) + Joined(keys) + (Write32BE(size) + tail))), keys, s)
  {
    SizedCut(size, tail);
    KeysThenCut(keys, Write32BE(size) + tail);
    HeadAway(o, head, Write32BE(|keys|) + Joined(keys) + (Write32BE(size) + tail), Pieces(true, keys, false, []));
    PiecesAdd(o, head[4..20], Pieces(true, keys, false, []), s);
    assert [] + keys == keys;
  }

  // ----- What comes after the boxes -----

  predicate NoBox(other: seq<byte>) {
    |other| >= 8 && other[4..8] != [0x70, 0x73, 0x73, 0x68]
  }

  /** Data that starts with no box is left to the code that looks for other forms. */
  lemma NoBoxStops(o: Outside, other: seq<byte>)
    requires NoBox(other)
    ensures DataAdditions(o, other) == o.foreign(other)
    ensures Walkable(other) && !IsBox(other) && Chain(o, other) == [] && ChainEnd(other) == 0
  {
  }

  /** The walk over these bytes adds so much, and ends behind so many of them. */
  predicate WalksAs(o: Outside, data: seq<byte>, adds: seq<Addition>, end: nat) {
    |data| >= 4 && Chain(o, data) == adds && ChainEnd(data) == end
  }

  lemma BoxBefore(o: Outside, b: Box, rest: seq<byte>, adds: seq<Addition>, end: nat)
    requires b.WellFormed() && 8 + |b.Body()| + |rest| < UINT16
    requires Walkable(rest) && WalksAs(o, rest, adds, end)
    ensures var data := b.Encode() + rest;
            && Walkable(data) && IsBox(data) && WalksAs(o, data, b.Additions(o) + adds, |b.Encode()| + end)
  {
    BoxBack(o, b, rest);
  }

  lemma FirstBox(boxes: seq<Box>, other: seq<byte>)
    requires boxes != [] && forall b :: b in boxes ==> b.WellFormed()
    ensures EncodeBoxes(boxes) + other == boxes[0].Encode() + (EncodeBoxes(boxes[1..]) + other)
    ensures |EncodeBoxes(boxes)| == |boxes[0].Encode()| + |EncodeBoxes(boxes[1..])|
  {
    FirstOfThree(boxes[0].Encode(), EncodeBoxes(boxes[1..]), other);
  }

  lemma FirstOfThree(a: seq<byte>, b: seq<byte>, c: seq<byte>)
    ensures (a + b) + c == a + (b + c)
  {
  }

  lemma {:induction false} ChainUntilOther(o: Outside, boxes: seq<Box>, other: seq<byte>)
    requires NoBox(other) && forall b :: b in boxes ==> b.WellFormed()
    requires |EncodeBoxes(boxes)| + |other| < UINT16
    ensures var data := EncodeBoxes(boxes) + other;
            && Walkable(data) && (boxes != [] ==> IsBox(data))
            && WalksAs(o, data, AdditionsOf(o, boxes), |EncodeBoxes(boxes)|)
    decreases |boxes|
  {
    if boxes == [] {
      NoBoxStops(o, other);
      assert EncodeBoxes(boxes) + other == other;
    } else {
      FirstBox(boxes, other);
      ChainUntilOther(o, boxes[1..], other);
      var rest := EncodeBoxes(boxes[1..]) + other;
      BoxBefore(o, boxes[0], rest, AdditionsOf(o, boxes[1..]), |EncodeBoxes(boxes[1..])|);
    }
  }

  /** Whatever is not a box ends a chain of boxes, and the chain adds what it adds on its own. */
  lemma ChainThenOther(o: Outside, boxes: seq<Box>, other: seq<byte>)
    requires boxes != [] && NoBox(other) && forall b :: b in boxes ==> b.WellFormed()
    requires |EncodeBoxes(boxes)| + |other| < UINT16
    ensures var data := EncodeBoxes(boxes) + other;
            && Walkable(data) && IsBox(data) && ChainEnd(data) == |EncodeBoxes(boxes)|
            && DataAdditions(o, data) == AdditionsOf(o, boxes)
  {
    ChainUntilOther(o, boxes, other);
  }
}
