/**
 CommonEncryptionData: key ids out of DRM initialisation data.  A PSSH box (section 8.1 of
 ISO/IEC 23001-7) is a 32-bit size, the tag "pssh", and a body: version, flags, system id, in
 version 1 a list of key ids, and a sized payload.
 */
module CommonEncryption {
  import opened BodyBounds
  import opened Common
  import opened KeyIds
  import Protobuf

  const PSSH_HEADER: seq<byte> := [0x70, 0x73, 0x73, 0x68]
  const COMMON_ENCRYPTION: seq<byte> :=
    [0x10, 0x77, 0xef, 0xec, 0xc0, 0xb2, 0x4d, 0x02, 0xac, 0xe3, 0x3c, 0x1e, 0x52, 0xe2, 0xfb, 0x4b]
  const PLAY_READY: seq<byte> :=
    [0x9a, 0x04, 0xf0, 0x79, 0x98, 0x40, 0x42, 0x86, 0xab, 0x92, 0xe6, 0x5b, 0xe0, 0x88, 0x5f, 0x95]
  const WIDE_VINE: seq<byte> :=
    [0xed, 0xef, 0x8b, 0xa9, 0x79, 0xd6, 0x4a, 0xce, 0xa3, 0xc8, 0x27, 0xdc, 0xd5, 0x1d, 0x21, 0xed]
  const CLEAR_KEY: seq<byte> :=
    [0x58, 0x14, 0x7e, 0xc8, 0x04, 0x23, 0x46, 0x59, 0x92, 0xe6, 0xf5, 0x2c, 0x5c, 0xe8, 0xc3, 0xcc]

  /**
   Code this model does not contain: the constructor of Exchange::KeyId from raw bytes, the key ids
   of a PlayReady payload, and the additions made for initialisation data that starts with no box.
   */
  datatype Outside = Outside(
    makeId: seq<byte> -> Id,
    playReady: seq<byte> -> seq<Id>,
    foreign: seq<byte> -> seq<Addition>)

  ghost predicate KeepsIds(o: Outside) {
    forall k: Id :: o.makeId(k) == k
  }

  // ----- 32-bit numbers, most significant byte first -----

  function Write32BE(n: nat): (s: seq<byte>)
    requires n < UINT32
    ensures |s| == 4
  {
    [n / 0x100 / 0x100 / 0x100, n / 0x100 / 0x100 % 0x100, n / 0x100 % 0x100, n % 0x100]
  }

  lemma Read32Back(n: nat, rest: seq<byte>)
    requires n < UINT32
    ensures Read32BE(Write32BE(n) + rest) == n
  {
  }

  // ----- What a box contributes -----

  datatype Drm = CommonDrm | PlayReadyDrm | WidevineDrm | ClearKeyDrm | UnknownDrm

  function DrmOf(systemId: seq<byte>): Drm {
    if systemId == COMMON_ENCRYPTION then CommonDrm
    else if systemId == PLAY_READY then PlayReadyDrm
    else if systemId == WIDE_VINE then WidevineDrm
    else if systemId == CLEAR_KEY then ClearKeyDrm
    else UnknownDrm
  }

  /** The flag of a box's own key ids; an unknown DRM system keeps the initial one. */
  function FlagOf(drm: Drm): System {
    match drm
    case PlayReadyDrm => PLAYREADY
    case WidevineDrm => WIDEVINE
    case ClearKeyDrm => CLEARKEY
    case _ => COMMON
  }

  function Flagged(ids: seq<Id>, system: System): seq<Addition> {
    if ids == [] then [] else [Addition(ids[0], system)] + Flagged(ids[1..], system)
  }

  /** The fields WidevinePsshPB2 declares. */
  const WIDEVINE_FIELDS: Protobuf.Fields := map[
    1 := Protobuf.UInt(UINT32, 0, false),
    2 := Protobuf.Blobs([]),
    3 := Protobuf.Blob([]),
    4 := Protobuf.Blob([]),
    5 := Protobuf.Blob([]),
    6 := Protobuf.Blob([]),
    7 := Protobuf.UInt(UINT32, 0, false),
    8 := Protobuf.Blob([]),
    9 := Protobuf.UInt(UINT32, 0, false),
    10 := Protobuf.UInt(UINT32, 0, false)
  ]
  const KEY_IDS: byte := 2

  /** Key ids from payload bytes, whose count passes through eight bits. */
  function MadeIds(o: Outside, payloads: seq<seq<byte>>): seq<Id> {
    if payloads == [] then []
    else [o.makeId(payloads[0][..|payloads[0]| % 0x100])] + MadeIds(o, payloads[1..])
  }

  function Repeated(fields: Protobuf.Fields, slot: byte): seq<seq<byte>> {
    if slot in fields && fields[slot].Blobs? then fields[slot].elements else []
  }

  function WidevineIds(o: Outside, payload: seq<byte>): seq<Id> {
    var r := Protobuf.Parsed(WIDEVINE_FIELDS, payload);
    if r.ok then MadeIds(o, Repeated(r.fields, KEY_IDS)) else []
  }

  function PayloadIds(o: Outside, drm: Drm, payload: seq<byte>): seq<Id> {
    match drm
    case PlayReadyDrm => o.playReady(payload)
    case WidevineDrm => WidevineIds(o, payload)
    case _ => []
  }

  function KeysAt(data: seq<byte>, n: nat): (keys: seq<Id>)
    requires KEY_LENGTH * n <= |data|
    decreases n
  {
    if n == 0 then [] else [data[..KEY_LENGTH]] + KeysAt(data[KEY_LENGTH..], n - 1)
  }

  /** The pieces of a body the parser finds in place; a piece that does not fit is not there. */
  datatype Pieces = Pieces(hasKeys: bool, keys: seq<Id>, hasPayload: bool, payload: seq<byte>)

  const NOTHING := Pieces(false, [], false, [])

  function SizedPayload(tail: seq<byte>): (r: Pieces)
    requires |tail| >= 4
  {
    var size := Read32BE(tail);
    if 4 + size <= |tail| then Pieces(false, [], true, tail[4..4 + size]) else NOTHING
  }

  function KeysThenPayload(tail: seq<byte>): (r: Pieces)
    requires |tail| >= 4
  {
    var count := Read32BE(tail);
    if 4 + KEY_LENGTH * count + 4 <= |tail| then
      SizedPayload(tail[4 + KEY_LENGTH * count..]).(hasKeys := true, keys := KeysAt(tail[4..], count))
    else NOTHING
  }

  function PiecesOf(body: seq<byte>): Pieces
    requires |body| >= HEADER_SIZE_V0
  {
    if body[0] == 0 then SizedPayload(body[20..])
    else if body[0] == 1 then KeysThenPayload(body[20..])
    else NOTHING
  }

  function PieceAdditions(o: Outside, drm: Drm, p: Pieces): seq<Addition> {
    Flagged(if p.hasPayload then PayloadIds(o, drm, p.payload) else [], FlagOf(drm)) + Flagged(p.keys, FlagOf(drm))
  }

  lemma NothingAdded(o: Outside, keyIds: seq<KeyId>, drm: Drm, p: Pieces)
    requires p == NOTHING
    ensures AddedAll(keyIds, PieceAdditions(o, drm, p)) == keyIds
  {
  }

  /** The key ids a PSSH body adds, in order: those of its payload, then its own. */
  function BodyAdditions(o: Outside, body: seq<byte>): seq<Addition> {
    if |body| < HEADER_SIZE_V0 then []
    else PieceAdditions(o, DrmOf(body[4..20]), PiecesOf(body))
  }

  lemma SliceOfTail(data: seq<byte>, from: nat, lo: nat, hi: nat)
    requires from <= |data| && lo <= hi && from + hi <= |data|
    ensures data[from..][lo..hi] == data[from + lo..from + hi]
    ensures data[from..][lo..] == data[from + lo..]
  {
  }

  /** A version 0 body, piece by piece. */
  lemma PiecesV0(data: seq<byte>)
    requires |data| >= HEADER_SIZE_V0 && data[0] == 0
    ensures var size := Read32BE(data[HEADER_SIZE_V0 - 4..]);
            PiecesOf(data) == if size + HEADER_SIZE_V0 <= |data|
                              then Pieces(false, [], true, data[HEADER_SIZE_V0..HEADER_SIZE_V0 + size])
                              else NOTHING
  {
    var size := Read32BE(data[20..]);
    if size + HEADER_SIZE_V0 <= |data| { SliceOfTail(data, 20, 4, 4 + size); }
  }

  /** A version 1 body, piece by piece. */
  lemma PiecesV1(data: seq<byte>)
    requires |data| >= HEADER_SIZE_V0 && data[0] == 1
    ensures var count := Read32BE(data[HEADER_SIZE_V0 - 4..]);
            var keyBytes := KEY_LENGTH * count;
            var payload := HEADER_SIZE_V1 + keyBytes;
            PiecesOf(data) == if payload > |data| then NOTHING
                              else
                                var size := Read32BE(data[payload - 4..]);
                                var fits := payload + size <= |data|;
                                Pieces(true, KeysAt(data[HEADER_SIZE_V0..], count), fits,
                                       if fits then data[payload..payload + size] else [])
  {
    var keyBytes := KEY_LENGTH * Read32BE(data[20..]);
    if keyBytes + HEADER_SIZE_V1 <= |data| {
      SliceOfTail(data, 20, 4, 4);
      SliceOfTail(data, 20, 4 + keyBytes, 4 + keyBytes);
      var size := Read32BE(data[24 + keyBytes..]);
      if size + HEADER_SIZE_V1 + keyBytes <= |data| { SliceOfTail(data, 24 + keyBytes, 4, 4 + size); }
    }
  }

  /** The pieces that the checks let through. */
  function PiecesAt(data: seq<byte>, f: Found): Pieces
    requires |data| >= HEADER_SIZE_V0 && Inside(f, |data|)
  {
    Pieces(f.hasKeys, if f.hasKeys then KeysAt(data[HEADER_SIZE_V0..], f.count) else [],
           f.hasPayload, if f.hasPayload then data[f.at..f.at + f.size] else [])
  }

  /** They are those of the body when none of its sums wraps. */
  lemma FoundPieces(data: seq<byte>)
    requires HEADER_SIZE_V0 <= |data| < UINT16 && !Wraps(data)
    ensures Inside(FoundIn(data), |data|) && PiecesAt(data, FoundIn(data)) == PiecesOf(data)
  {
    InsideExactly(data);
    if data[0] == 0 {
      StraightV0(data);
      PiecesV0(data);
    } else if data[0] == 1 {
      FoundPiecesV1(data);
    }
  }

  lemma FoundPiecesV1(data: seq<byte>)
    requires HEADER_SIZE_V0 <= |data| < UINT16 && data[0] == 1 && !Wraps(data) && Inside(FoundIn(data), |data|)
    ensures PiecesAt(data, FoundIn(data)) == PiecesOf(data)
  {
    StraightV1(data);
    PiecesV1(data);
    PiecesAtV1(data, Read32BE(data[HEADER_SIZE_V0 - 4..]), FoundIn(data));
  }

  lemma PiecesAtV1(data: seq<byte>, count: nat, f: Found)
    requires |data| >= HEADER_SIZE_V0 && Inside(f, |data|)
    ensures f == NOT_FOUND ==> PiecesAt(data, f) == NOTHING
    ensures f.hasKeys && f.count == count && !f.hasPayload
        ==> PiecesAt(data, f) == Pieces(true, KeysAt(data[HEADER_SIZE_V0..], count), false, [])
    ensures f.hasKeys && f.count == count && f.hasPayload
        ==> PiecesAt(data, f)
              == Pieces(true, KeysAt(data[HEADER_SIZE_V0..], count), true, data[f.at..f.at + f.size])
  {
  }

  // ----- What initialisation data contributes -----

  predicate IsBox(rest: seq<byte>)
    requires |rest| >= 4
  {
    Read32BE(rest) <= |rest| && |rest| >= 8 && rest[4..8] == PSSH_HEADER
  }

  /**
   The walk from here stays inside the data and moves: four bytes of size can be read, the tag can
   be read when the size fits, and each box is at least its own header.
   */
  ghost predicate Walkable(rest: seq<byte>)
    decreases |rest|
  {
    && |rest| >= 4
    && (Read32BE(rest) <= |rest| ==> |rest| >= 8)
    && (IsBox(rest) ==>
          var size := Read32BE(rest);
          size >= 8 && !Wraps(rest[8..size]) && (size < |rest| ==> Walkable(rest[size..])))
  }

  /** The additions of a chain of boxes, up to the first thing that is not one. */
  function Chain(o: Outside, rest: seq<byte>): seq<Addition>
    requires |rest| >= 4
    decreases |rest|
  {
    if IsBox(rest) && Read32BE(rest) >= 8 then
      var size := Read32BE(rest);
      BodyAdditions(o, rest[8..size]) + (if size + 4 <= |rest| then Chain(o, rest[size..]) else [])
    else []
  }

  function DataAdditions(o: Outside, data: seq<byte>): seq<Addition>
    requires |data| >= 4
  {
    if IsBox(data) then Chain(o, data) else o.foreign(data)
  }

  class CommonEncryptionData {
    var keyIds: seq<KeyId>
    const outside: Outside

    /** AddKeyId: find the id from the front; append it or flag it. */
    method AddKeyId(id: Id, system: System)
      modifies this
      ensures keyIds == Added(old(keyIds), Addition(id, system))
    {
      var index := 0;
      while index < |keyIds| && keyIds[index].id != id
        invariant index <= |keyIds|
        invariant forall j :: 0 <= j < index ==> keyIds[j].id != id
      {
        index := index + 1;
      }
      AddedAt(keyIds, Addition(id, system), index);
      if index == |keyIds| {
        keyIds := keyIds + [KeyId(id, {system})];
      } else {
        keyIds := keyIds[index := keyIds[index].(systems := keyIds[index].systems + {system})];
      }
    }

    method AddAll(ids: seq<Id>, system: System)
      modifies this
      ensures keyIds == AddedAll(old(keyIds), Flagged(ids, system))
    {
      ghost var before := keyIds;
      var i := 0;
      while i < |ids|
        invariant i <= |ids|
        invariant keyIds == AddedAll(before, Flagged(ids[..i], system))
      {
        FlaggedNext(before, ids, i, system);
        AddKeyId(ids[i], system);
        i := i + 1;
      }
      assert ids[..|ids|] == ids;
    }

    /** ParseWidevinePSSHData */
    method ParseWidevine(data: seq<byte>)
      modifies this
      ensures keyIds == AddedAll(old(keyIds), Flagged(WidevineIds(outside, data), WIDEVINE))
    {
      var message := new Protobuf.Message(WIDEVINE_FIELDS);
      var ok, _ := message.FromBuffer(data);
      if ok {
        AddAll(MadeIds(outside, Repeated(message.elements, KEY_IDS)), WIDEVINE);
      }
    }

    method ParsePayload(drm: Drm, data: seq<byte>)
      modifies this
      ensures keyIds == AddedAll(old(keyIds), Flagged(PayloadIds(outside, drm, data), FlagOf(drm)))
    {
      match drm
      case PlayReadyDrm => AddAll(outside.playReady(data), PLAYREADY);
      case WidevineDrm => ParseWidevine(data);
      case _ =>
    }

    /** The loop over the key ids of a version 1 box. */
    method AddKeys(data: seq<byte>, count: nat, system: System)
      requires KEY_LENGTH * count <= |data|
      modifies this
      ensures keyIds == AddedAll(old(keyIds), Flagged(KeysAt(data, count), system))
    {
      ghost var before, keys, done := keyIds, KeysAt(data, count), 0;
      var keyIdData, keyIdCount := data, count;
      KeysAtCount(data, count);
      assert keys[0..] == keys;
      while keyIdCount != 0
        invariant done + keyIdCount == |keys| && KEY_LENGTH * keyIdCount <= |keyIdData|
        invariant KeysAt(keyIdData, keyIdCount) == keys[done..]
        invariant keyIds == AddedAll(before, Flagged(keys[..done], system))
      {
        FlaggedNext(before, keys, done, system);
        KeysAtFirst(keyIdData, keyIdCount, keys, done);
        AddKeyId(keyIdData[..KEY_LENGTH], system);
        keyIdData := keyIdData[KEY_LENGTH..];
        keyIdCount := keyIdCount - 1;
        done := done + 1;
      }
      assert keys[..done] == keys;
    }

    /** The bounds checks of ParsePSSHBox: how many key ids there are, and where the payload is, if they fit. */
    method FindPieces(data: seq<byte>) returns (f: Found)
      requires HEADER_SIZE_V0 <= |data| < UINT16
      ensures f == FoundIn(data)
    {
      f := NOT_FOUND;
      if data[0] == 0 {
        var size := Read32BE(data[HEADER_SIZE_V0 - 4..]);
        if (size + HEADER_SIZE_V0) % UINT32 <= |data| {
          f := f.(hasPayload := true, at := HEADER_SIZE_V0, size := size);
        }
      } else if data[0] == 1 {
        var count := Read32BE(data[HEADER_SIZE_V0 - 4..]);
        var at := (KEY_LENGTH * count + HEADER_SIZE_V1) % UINT32;
        assert at == PayloadAt(count);
        if at <= |data| {
          f := f.(hasKeys := true, count := count);
          var size := Read32BE(data[at - 4..]);
          if (size + at) % UINT32 <= |data| {
            f := f.(hasPayload := true, at := at, size := size);
          }
        }
      }
    }

    /** The ids of the payload, and then those of the box. */
    method AddPieces(drm: Drm, hasPayload: bool, psshData: seq<byte>, hasKeys: bool, keyIdData: seq<byte>, count: nat,
        ghost p: Pieces)
      requires hasKeys ==> KEY_LENGTH * count <= |keyIdData|
      requires p == Pieces(hasKeys, if hasKeys then KeysAt(keyIdData, count) else [], hasPayload, psshData)
      modifies this
      ensures keyIds == AddedAll(old(keyIds), PieceAdditions(outside, drm, p))
    {
      ghost var before := keyIds;
      ghost var ids := if hasPayload then PayloadIds(outside, drm, psshData) else [];
      ghost var keys := if hasKeys then KeysAt(keyIdData, count) else [];
      if hasPayload {
        ParsePayload(drm, psshData);
      }
      assert keyIds == AddedAll(before, Flagged(ids, FlagOf(drm)));
      if hasKeys {
        AddKeys(keyIdData, count, FlagOf(drm));
      }
      AddedAllConcat(before, Flagged(ids, FlagOf(drm)), Flagged(keys, FlagOf(drm)));
    }

    /** ParsePSSHBox */
    method ParsePSSHBox(data: seq<byte>)
      requires |data| < UINT16 && !Wraps(data)
      modifies this
      ensures keyIds == AddedAll(old(keyIds), BodyAdditions(outside, data))
    {
      if |data| >= HEADER_SIZE_V0 {
        var f := FindPieces(data);
        FoundPieces(data);
        ghost var p := PiecesOf(data);
        if f.hasKeys || f.hasPayload {
          var psshData := if f.hasPayload then data[f.at..f.at + f.size] else [];
          AddPieces(DrmOf(data[4..20]), f.hasPayload, psshData, f.hasKeys, data[HEADER_SIZE_V0..], f.count, p);
        } else {
          NothingAdded(outside, keyIds, DrmOf(data[4..20]), p);
        }
      }
    }

    /** One turn of the loop of Parse, at `rest`: the bytes it moves over, none when it stops. */
    method ParseOne(rest: seq<byte>, first: bool) returns (moved: nat)
      requires Walkable(rest) && |rest| < UINT16
      modifies this
      ensures moved == Moved(rest)
      ensures keyIds == AddedAll(old(keyIds), StepAdditions(outside, rest, first))
    {
      var size := Read32BE(rest);
      moved := 0;
      if size <= |rest| && |rest| >= 4 && rest[4..8] == PSSH_HEADER {
        ParsePSSHBox(rest[8..size]);
        moved := size;
      } else if first {
        var adds := outside.foreign(rest);
        ghost var before := keyIds;
        var i := 0;
        while i < |adds|
          invariant i <= |adds|
          invariant keyIds == AddedAll(before, adds[..i])
        {
          assert adds[..i + 1][..i] == adds[..i];
          AddKeyId(adds[i].id, adds[i].system);
          i := i + 1;
        }
        assert adds[..|adds|] == adds;
      }
    }

    /** One turn of the loop of Parse, at `offset`. */
    method Turn(data: seq<byte>, offset: nat) returns (next: nat, more: bool)
      requires offset <= |data| < UINT16 && Walkable(data[offset..])
      modifies this
      ensures next <= |data| && (more ==> offset < next && Walkable(data[next..]))
      ensures keyIds == AddedAll(old(keyIds), StepAdditions(outside, data[offset..], offset == 0))
      ensures Ahead(outside, data, offset, true)
           == StepAdditions(outside, data[offset..], offset == 0) + Ahead(outside, data, next, more)
      ensures EndFrom(data, offset, true) == EndFrom(data, next, more)
    {
      var moved := ParseOne(data[offset..], offset == 0);
      next := offset + moved;
      more := offset < next < |data|;
      AheadAfter(outside, data, offset, next, more);
    }

    /**
     Parse: the key ids listed are those of DataAdditions, in order; `offset` is where the walk over
     the boxes ends.
     */
    method Parse(data: seq<byte>) returns (offset: nat)
      requires |data| < UINT16 && Walkable(data)
      modifies this
      ensures keyIds == AddedAll(old(keyIds), DataAdditions(outside, data))
      ensures offset == if IsBox(data) then ChainEnd(data) else 0
    {
      ghost var before, done := keyIds, [];
      offset := 0;
      var more := true;
      assert data[0..] == data;
      while more
        invariant offset <= |data| && (more ==> Walkable(data[offset..]))
        invariant keyIds == AddedAll(before, done)
        invariant done + Ahead(outside, data, offset, more) == Ahead(outside, data, 0, true)
        invariant EndFrom(data, offset, more) == EndFrom(data, 0, true)
        decreases |data| - offset, more
      {
        ghost var adds := StepAdditions(outside, data[offset..], offset == 0);
        offset, more := Turn(data, offset);
        AddedAllConcat(before, done, adds);
        Reassociate(done, adds, Ahead(outside, data, offset, more));
        done := done + adds;
      }
      assert done + [] == done;
    }
  }

  lemma Reassociate(a: seq<Addition>, b: seq<Addition>, c: seq<Addition>)
    ensures a + (b + c) == (a + b) + c
  {
  }

  /** Where the walk ends, seen from `offset`. */
  function EndFrom(data: seq<byte>, offset: nat, more: bool): nat
    requires offset <= |data| && (more ==> offset + 4 <= |data|)
  {
    offset + (if more && IsBox(data[offset..]) then ChainEnd(data[offset..]) else 0)
  }

  /** What one turn of Parse adds. */
  function StepAdditions(o: Outside, rest: seq<byte>, first: bool): seq<Addition>
    requires |rest| >= 4
  {
    if IsBox(rest) then (if Read32BE(rest) >= 8 then BodyAdditions(o, rest[8..Read32BE(rest)]) else [])
    else if first then o.foreign(rest)
    else []
  }

  /** What Parse still adds from `offset` on. */
  function Ahead(o: Outside, data: seq<byte>, offset: nat, more: bool): seq<Addition>
    requires offset <= |data| && (more ==> offset + 4 <= |data|)
  {
    if !more then []
    else if offset == 0 then DataAdditions(o, data)
    else Chain(o, data[offset..])
  }

  /** The bytes a turn of Parse moves over. */
  function Moved(rest: seq<byte>): (n: nat)
    requires |rest| >= 4
    ensures n <= |rest|
  {
    if IsBox(rest) then Read32BE(rest) else 0
  }

  lemma AheadAfter(o: Outside, data: seq<byte>, offset: nat, next: nat, more: bool)
    requires offset <= |data| && Walkable(data[offset..])
    requires next == offset + Moved(data[offset..]) && more == (offset < next < |data|)
    ensures more ==> Walkable(data[next..])
    ensures Ahead(o, data, offset, true) == StepAdditions(o, data[offset..], offset == 0) + Ahead(o, data, next, more)
    ensures EndFrom(data, offset, true) == EndFrom(data, next, more)
  {
    if more {
      AheadMore(o, data, offset, next);
    } else {
      AheadLast(o, data, offset, next);
    }
  }

  lemma AheadMore(o: Outside, data: seq<byte>, offset: nat, next: nat)
    requires offset <= |data| && Walkable(data[offset..])
    requires next == offset + Moved(data[offset..]) && offset < next < |data|
    ensures Walkable(data[next..])
    ensures Ahead(o, data, offset, true) == StepAdditions(o, data[offset..], offset == 0) + Ahead(o, data, next, true)
    ensures EndFrom(data, offset, true) == EndFrom(data, next, true)
  {
    var rest := data[offset..];
    assert rest[next - offset..] == data[next..] by { SliceOfTail(data, offset, next - offset, next - offset); }
    AfterBox(o, rest, next - offset);
    if offset == 0 {
      assert rest == data;
      FirstIsChain(o, data);
    }
  }

  lemma FirstIsChain(o: Outside, data: seq<byte>)
    requires |data| >= 4 && IsBox(data)
    ensures DataAdditions(o, data) == Chain(o, data)
    ensures StepAdditions(o, data, true) == StepAdditions(o, data, false)
  {
  }

  lemma AheadLast(o: Outside, data: seq<byte>, offset: nat, next: nat)
    requires offset <= |data| && Walkable(data[offset..])
    requires next == offset + Moved(data[offset..]) && !(offset < next < |data|)
    ensures Ahead(o, data, offset, true) == StepAdditions(o, data[offset..], offset == 0) + Ahead(o, data, next, false)
    ensures EndFrom(data, offset, true) == EndFrom(data, next, false)
  {
    LastTurn(o, data[offset..]);
    assert offset == 0 ==> data[offset..] == data;
  }

  lemma LastTurn(o: Outside, rest: seq<byte>)
    requires Walkable(rest) && (IsBox(rest) ==> Read32BE(rest) == |rest|)
    ensures Chain(o, rest) == StepAdditions(o, rest, false)
    ensures IsBox(rest) ==> ChainEnd(rest) == |rest|
  {
    if IsBox(rest) {
      var adds := BodyAdditions(o, rest[8..|rest|]);
      assert adds + [] == adds;
    }
  }

  lemma AfterBox(o: Outside, rest: seq<byte>, moved: nat)
    requires Walkable(rest) && IsBox(rest) && moved == Read32BE(rest) && moved < |rest|
    ensures |rest[moved..]| >= 4
    ensures Chain(o, rest) == StepAdditions(o, rest, false) + Chain(o, rest[moved..])
    ensures ChainEnd(rest) == moved + (if IsBox(rest[moved..]) then ChainEnd(rest[moved..]) else 0)
    ensures !IsBox(rest[moved..]) ==> Chain(o, rest[moved..]) == []
  {
  }

  lemma {:induction false} FlaggedSnoc(ids: seq<Id>, id: Id, system: System)
    ensures Flagged(ids + [id], system) == Flagged(ids, system) + [Addition(id, system)]
  {
    if ids == [] {
      assert [] + [id] == [id];
    } else {
      assert (ids + [id])[1..] == ids[1..] + [id];
      FlaggedSnoc(ids[1..], id, system);
    }
  }

  lemma FlaggedNext(keys: seq<KeyId>, ids: seq<Id>, i: nat, system: System)
    requires i < |ids|
    ensures AddedAll(keys, Flagged(ids[..i + 1], system))
         == Added(AddedAll(keys, Flagged(ids[..i], system)), Addition(ids[i], system))
  {
    assert ids[..i + 1] == ids[..i] + [ids[i]];
    FlaggedSnoc(ids[..i], ids[i], system);
    var adds := Flagged(ids[..i], system);
    assert (adds + [Addition(ids[i], system)])[..|adds|] == adds;
  }

  lemma {:induction false} KeysAtCount(data: seq<byte>, n: nat)
    requires KEY_LENGTH * n <= |data|
    ensures |KeysAt(data, n)| == n
    decreases n
  {
    if n > 0 { KeysAtCount(data[KEY_LENGTH..], n - 1); }
  }

  lemma KeysAtFirst(data: seq<byte>, n: nat, keys: seq<Id>, done: nat)
    requires 0 < n && KEY_LENGTH * n <= |data| && done < |keys| && KeysAt(data, n) == keys[done..]
    ensures data[..KEY_LENGTH] == keys[done]
    ensures KeysAt(data[KEY_LENGTH..], n - 1) == keys[done + 1..]
  {
    assert keys[done..][0] == keys[done];
    assert keys[done..][1..] == keys[done + 1..];
  }

  function ChainEnd(rest: seq<byte>): (n: nat)
    requires |rest| >= 4
    ensures n <= |rest|
    decreases |rest|
  {
    if IsBox(rest) && Read32BE(rest) >= 8 then
      var size := Read32BE(rest);
      size + (if size + 4 <= |rest| then ChainEnd(rest[size..]) else 0)
    else 0
  }

  // ----- Writing boxes, and reading them back -----

  datatype Box = Box(version: nat, flags: seq<byte>, systemId: seq<byte>, keys: seq<Id>, payload: seq<byte>)
  {
    predicate WellFormed() {
      && version <= 1
      && |flags| == 3
      && |systemId| == 16
      && (version == 0 ==> keys == [])
      && |payload| < UINT16
      && |keys| < UINT16
    }

    function KeyList(): seq<byte>
      requires WellFormed()
    {
      if version == 0 then [] else Write32BE(|keys|) + Joined(keys)
    }

    function Body(): (s: seq<byte>)
      requires WellFormed()
      ensures |s| >= HEADER_SIZE_V0
    {
      [version] + flags + systemId + (KeyList() + (Write32BE(|payload|) + payload))
    }

    function Encode(): (s: seq<byte>)
      requires WellFormed()
    {
      Framed(Body())
    }

    /** The additions the box stands for. */
    function Additions(o: Outside): seq<Addition> {
      Flagged(PayloadIds(o, DrmOf(systemId), payload), FlagOf(DrmOf(systemId)))
      + Flagged(keys, FlagOf(DrmOf(systemId)))
    }
  }

  /** A body with its size and tag in front. */
  function Framed(body: seq<byte>): (s: seq<byte>)
    ensures |s| == 8 + |body|
  {
    Tagged(Write32BE((8 + |body|) % UINT32), body)
  }

  function Tagged(size: seq<byte>, body: seq<byte>): seq<byte> {
    size + PSSH_HEADER + body
  }

  function Joined(keys: seq<Id>): (s: seq<byte>)
    ensures |s| == KEY_LENGTH * |keys|
  {
    if keys == [] then [] else keys[0] + Joined(keys[1..])
  }

  lemma {:induction false} KeysBack(keys: seq<Id>, rest: seq<byte>)
    ensures KeysAt(Joined(keys) + rest, |keys|) == keys
    decreases |keys|
  {
    if keys != [] {
      var s := Joined(keys) + rest;
      assert s[..KEY_LENGTH] == keys[0];
      assert s[KEY_LENGTH..] == Joined(keys[1..]) + rest;
      KeysBack(keys[1..], rest);
    }
  }

  lemma SizedPayloadBack(payload: seq<byte>)
    requires |payload| < UINT16
    ensures SizedPayload(Write32BE(|payload|) + payload) == Pieces(false, [], true, payload)
  {
    Read32Back(|payload|, payload);
    assert (Write32BE(|payload|) + payload)[4..] == payload;
  }

  /** A count, so many bytes, and the rest. */
  lemma AfterCount(count: seq<byte>, bytes: seq<byte>, rest: seq<byte>)
    requires |count| == 4
    ensures (count + bytes) + rest == count + (bytes + rest)
    ensures (count + (bytes + rest))[4..] == bytes + rest
    ensures (count + (bytes + rest))[4 + |bytes|..] == rest
  {
  }

  lemma KeysThenPayloadIs(tail: seq<byte>, keys: seq<Id>, p: Pieces)
    requires |tail| >= 4 && Read32BE(tail) == |keys| && 4 + KEY_LENGTH * |keys| + 4 <= |tail|
    requires KeysAt(tail[4..], |keys|) == keys && SizedPayload(tail[4 + KEY_LENGTH * |keys|..]) == p
    ensures KeysThenPayload(tail) == p.(hasKeys := true, keys := keys)
  {
  }

  lemma KeysThenPayloadBack(keys: seq<Id>, payload: seq<byte>)
    requires |keys| < UINT16 && |payload| < UINT16
    ensures KeysThenPayload((Write32BE(|keys|) + Joined(keys)) + (Write32BE(|payload|) + payload))
         == Pieces(true, keys, true, payload)
  {
    var sized := Write32BE(|payload|) + payload;
    AfterCount(Write32BE(|keys|), Joined(keys), sized);
    Read32Back(|keys|, Joined(keys) + sized);
    KeysBack(keys, sized);
    SizedPayloadBack(payload);
    KeysThenPayloadIs(Write32BE(|keys|) + (Joined(keys) + sized), keys, Pieces(false, [], true, payload));
  }

  lemma BodyLayout(b: Box)
    requires b.WellFormed()
    ensures b.Body()[0] == b.version
    ensures b.Body()[4..20] == b.systemId
    ensures b.Body()[20..] == b.KeyList() + (Write32BE(|b.payload|) + b.payload)
  {
    var tail := b.KeyList() + (Write32BE(|b.payload|) + b.payload);
    var head := [b.version] + b.flags + b.systemId;
    assert b.Body() == head + tail;
    assert head[4..20] == b.systemId;
  }

  lemma PiecesBack(b: Box)
    requires b.WellFormed()
    ensures PiecesOf(b.Body()) == Pieces(b.version == 1, b.keys, true, b.payload)
  {
    BodyLayout(b);
    var sized := Write32BE(|b.payload|) + b.payload;
    if b.version == 0 {
      assert [] + sized == sized;
      SizedPayloadBack(b.payload);
    } else {
      KeysThenPayloadBack(b.keys, b.payload);
    }
  }

  /** A well-formed body adds exactly what its box stands for. */
  lemma BodyBack(o: Outside, b: Box)
    requires b.WellFormed()
    ensures BodyAdditions(o, b.Body()) == b.Additions(o)
  {
    BodyLayout(b);
    PiecesBack(b);
  }

  lemma BodyInside(b: Box)
    requires b.WellFormed() && 8 + |b.Body()| < UINT16
    ensures !Wraps(b.Body())
  {
    if b.version == 0 { BodyInsideV0(b); } else { BodyInsideV1(b); }
  }

  lemma BodyInsideV0(b: Box)
    requires b.WellFormed() && b.version == 0
    ensures !Wraps(b.Body())
  {
    BodyLayout(b);
    var sized := Write32BE(|b.payload|) + b.payload;
    assert [] + sized == sized;
    Read32Back(|b.payload|, b.payload);
  }

  lemma InsideV1(body: seq<byte>, count: nat, size: nat)
    requires 24 + KEY_LENGTH * count + 4 <= |body| < UINT16 && body[0] == 1
    requires Read32BE(body[20..]) == count && Read32BE(body[24 + KEY_LENGTH * count..]) == size < UINT16
    ensures !Wraps(body)
  {
  }

  lemma ReadsOfV1(keys: seq<Id>, payload: seq<byte>)
    requires |keys| < UINT16 && |payload| < UINT16
    ensures var tail := (Write32BE(|keys|) + Joined(keys)) + (Write32BE(|payload|) + payload);
            && Read32BE(tail) == |keys| && 4 + KEY_LENGTH * |keys| + 4 <= |tail|
            && Read32BE(tail[4 + KEY_LENGTH * |keys|..]) == |payload|
  {
    var sized := Write32BE(|payload|) + payload;
    AfterCount(Write32BE(|keys|), Joined(keys), sized);
    Read32Back(|keys|, Joined(keys) + sized);
    Read32Back(|payload|, payload);
  }

  lemma BodyInsideV1(b: Box)
    requires b.WellFormed() && b.version == 1 && 8 + |b.Body()| < UINT16
    ensures !Wraps(b.Body())
  {
    BodyLayout(b);
    ReadsOfV1(b.keys, b.payload);
    SliceOfTail(b.Body(), 20, 4 + KEY_LENGTH * |b.keys|, 4 + KEY_LENGTH * |b.keys|);
    InsideV1(b.Body(), |b.keys|, |b.payload|);
  }

  function EncodeBoxes(boxes: seq<Box>): seq<byte>
    requires forall b :: b in boxes ==> b.WellFormed()
  {
    if boxes == [] then [] else boxes[0].Encode() + EncodeBoxes(boxes[1..])
  }

  function AdditionsOf(o: Outside, boxes: seq<Box>): seq<Addition> {
    if boxes == [] then [] else boxes[0].Additions(o) + AdditionsOf(o, boxes[1..])
  }

  lemma Layers(size: seq<byte>, tag: seq<byte>, body: seq<byte>, rest: seq<byte>)
    requires |size| == 4 && |tag| == 4
    ensures var data := size + (tag + (body + rest));
            data[4..8] == tag && data[8..8 + |body|] == body && data[8 + |body|..] == rest
  {
    var data := size + (tag + (body + rest));
    assert data[8..] == body + rest;
  }

  lemma SizedBack(n: nat, body: seq<byte>, rest: seq<byte>)
    requires n == 8 + |body| < UINT16
    ensures var data := Write32BE(n) + (PSSH_HEADER + (body + rest));
            && |data| == n + |rest| && IsBox(data) && Read32BE(data) == n
            && data[8..n] == body && data[n..] == rest
  {
    Read32Back(n, PSSH_HEADER + (body + rest));
    Layers(Write32BE(n), PSSH_HEADER, body, rest);
  }

  lemma FramedBack(body: seq<byte>, rest: seq<byte>)
    requires 8 + |body| < UINT16
    ensures var data, n := Framed(body) + rest, 8 + |body|;
            && |data| == n + |rest| && IsBox(data) && Read32BE(data) == n
            && data[8..n] == body && data[n..] == rest
  {
    FramedText(8 + |body|, body, rest);
    SizedBack(8 + |body|, body, rest);
  }

  lemma FramedText(n: nat, body: seq<byte>, rest: seq<byte>)
    requires n == 8 + |body| < UINT16
    ensures Framed(body) + rest == Write32BE(n) + (PSSH_HEADER + (body + rest))
  {
    assert n % UINT32 == n;
    TaggedText(Write32BE(n), body, rest);
  }

  lemma TaggedText(size: seq<byte>, body: seq<byte>, rest: seq<byte>)
    ensures Tagged(size, body) + rest == size + (PSSH_HEADER + (body + rest))
  {
    FourParts(size, PSSH_HEADER, body, rest);
  }

  lemma FourParts(a: seq<byte>, b: seq<byte>, c: seq<byte>, d: seq<byte>)
    ensures a + b + c + d == a + (b + (c + d))
  {
  }

  /** One framed body at the head of a chain. */
  lemma FramedChain(o: Outside, body: seq<byte>, rest: seq<byte>)
    requires 8 + |body| + |rest| < UINT16 && !Wraps(body) && (rest != [] ==> Walkable(rest))
    ensures var data := Framed(body) + rest;
            && Walkable(data) && IsBox(data)
            && ChainEnd(data) == 8 + |body| + (if rest == [] then 0 else ChainEnd(rest))
            && Chain(o, data) == BodyAdditions(o, body) + (if rest == [] then [] else Chain(o, rest))
  {
    FramedBack(body, rest);
  }

  /** One box at the head of a chain. */
  lemma BoxBack(o: Outside, b: Box, rest: seq<byte>)
    requires b.WellFormed() && 8 + |b.Body()| + |rest| < UINT16 && (rest != [] ==> Walkable(rest))
    ensures var data := b.Encode() + rest;
            && Walkable(data) && IsBox(data)
            && ChainEnd(data) == 8 + |b.Body()| + (if rest == [] then 0 else ChainEnd(rest))
            && Chain(o, data) == b.Additions(o) + (if rest == [] then [] else Chain(o, rest))
  {
    BodyInside(b);
    FramedChain(o, b.Body(), rest);
    BodyBack(o, b);
  }

  /** A chain of well-formed boxes is walked to its end, and adds what its boxes stand for, in order. */
  lemma {:induction false} BoxesBack(o: Outside, boxes: seq<Box>)
    requires boxes != [] && forall b :: b in boxes ==> b.WellFormed()
    requires |EncodeBoxes(boxes)| < UINT16
    ensures var data := EncodeBoxes(boxes);
            && Walkable(data) && IsBox(data)
            && ChainEnd(data) == |data|
            && Chain(o, data) == AdditionsOf(o, boxes)
    decreases |boxes|
  {
    var b, rest := boxes[0], EncodeBoxes(boxes[1..]);
    assert |b.Encode()| == 8 + |b.Body()|;
    if boxes[1..] != [] {
      BoxesBack(o, boxes[1..]);
      assert rest != [];
    }
    BoxBack(o, b, rest);
  }

  /**
   Parsing any chain of well-formed boxes consumes it all; the ids of a fresh list are distinct, in
   order of first appearance, each flagged with exactly the systems of the boxes that listed it.
   */
  lemma ChainYieldsLedger(o: Outside, boxes: seq<Box>)
    requires boxes != [] && forall b :: b in boxes ==> b.WellFormed()
    requires |EncodeBoxes(boxes)| < UINT16
    ensures var data, adds := EncodeBoxes(boxes), AdditionsOf(o, boxes);
            var keys := AddedAll([], DataAdditions(o, data));
            && Walkable(data) && IsBox(data) && ChainEnd(data) == |data|
            && Ids(keys) == FirstAppearances(adds)
            && (forall i, j :: 0 <= i < j < |keys| ==> keys[i].id != keys[j].id)
            && forall i :: 0 <= i < |keys| ==> keys[i].systems == set a | a in adds && a.id == keys[i].id :: a.system
  {
    BoxesBack(o, boxes);
    Ledger(AdditionsOf(o, boxes));
  }

  // ----- The ids of a Widevine payload -----

  lemma {:induction false} MadeIdsOfIds(o: Outside, ids: seq<Id>)
    requires KeepsIds(o)
    ensures MadeIds(o, ids) == ids
  {
    if ids != [] {
      assert ids[0][..|ids[0]| % 0x100] == ids[0];
      MadeIdsOfIds(o, ids[1..]);
    }
  }

  /** A Widevine payload written as records of that message delivers the ids of its key-id records. */
  lemma WidevinePayloadIds(o: Outside, records: seq<Protobuf.Record>, ids: seq<Id>)
    requires KeepsIds(o) && Protobuf.AllReadable(WIDEVINE_FIELDS, records)
    requires Protobuf.Payloads(records, 2) == ids
    ensures WidevineIds(o, Protobuf.EncodeAll(records)) == ids
  {
    Protobuf.MessageRoundTrip(WIDEVINE_FIELDS, records);
    Protobuf.RepeatedCollects(WIDEVINE_FIELDS, records, KEY_IDS);
    assert [] + ids == ids;
    MadeIdsOfIds(o, ids);
  }
}
