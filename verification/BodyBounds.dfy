/**
 The bounds checks of ParsePSSHBox, with their 32-bit sums: what they let through for every body, and
 when that lies inside the body.
 */
module BodyBounds {
  import opened Common
  import opened KeyIds

  const HEADER_SIZE_V0: nat := 24
  const HEADER_SIZE_V1: nat := 28

  function Read32BE(ptr: seq<byte>): (n: nat)
    requires |ptr| >= 4
    ensures n < UINT32
  {
    ((ptr[0] as nat * 0x100 + ptr[1]) * 0x100 + ptr[2]) * 0x100 + ptr[3]
  }

  /** What the checks let through: so many key ids behind the header, and so many bytes of payload at an offset. */
  datatype Found = Found(hasKeys: bool, count: nat, hasPayload: bool, at: nat, size: nat)

  const NOT_FOUND := Found(false, 0, false, 0, 0)

  /** Where the payload of a version 1 body is looked for, as a 32-bit sum. */
  function PayloadAt(count: nat): (at: nat)
    requires count < UINT32
    ensures 12 <= at < UINT32
    ensures at <= KEY_LENGTH * count + HEADER_SIZE_V1
    ensures at == KEY_LENGTH * count + HEADER_SIZE_V1 <==> KEY_LENGTH * count + HEADER_SIZE_V1 < UINT32
  {
    var low := count % 0x1000_0000;
    assert KEY_LENGTH * count == UINT32 * (count / 0x1000_0000) + KEY_LENGTH * low;
    (KEY_LENGTH * count + HEADER_SIZE_V1) % UINT32
  }

  function FoundV0(body: seq<byte>): Found
    requires |body| >= HEADER_SIZE_V0
  {
    var size := Read32BE(body[HEADER_SIZE_V0 - 4..]);
    if (size + HEADER_SIZE_V0) % UINT32 > |body| then NOT_FOUND else Found(false, 0, true, HEADER_SIZE_V0, size)
  }

  function FoundV1(body: seq<byte>): Found
    requires |body| >= HEADER_SIZE_V0
  {
    var count := Read32BE(body[HEADER_SIZE_V0 - 4..]);
    var at := PayloadAt(count);
    if at > |body| then NOT_FOUND
    else
      var size := Read32BE(body[at - 4..]);
      if (size + at) % UINT32 > |body| then Found(true, count, false, 0, 0) else Found(true, count, true, at, size)
  }

  function FoundIn(body: seq<byte>): Found
    requires |body| >= HEADER_SIZE_V0
  {
    if body[0] == 0 then FoundV0(body) else if body[0] == 1 then FoundV1(body) else NOT_FOUND
  }

  /** The pieces lie inside a body of this length. */
  predicate Inside(f: Found, length: nat) {
    && (f.hasKeys ==> HEADER_SIZE_V0 + KEY_LENGTH * f.count <= length)
    && (f.hasPayload ==> f.at + f.size <= length)
  }

  // ----- Sums that wrap -----

  /** A sum of 32 bits that passes its check only because it wraps. */
  predicate WrapsThrough(sum: nat, length: nat) {
    sum >= UINT32 && sum % UINT32 <= length
  }

  /** One of the sums of the body does. */
  predicate Wraps(body: seq<byte>) {
    && |body| >= HEADER_SIZE_V0
    && var first := Read32BE(body[HEADER_SIZE_V0 - 4..]);
       || (body[0] == 0 && WrapsThrough(first + HEADER_SIZE_V0, |body|))
       || (body[0] == 1 && WrapsThrough(KEY_LENGTH * first + HEADER_SIZE_V1, |body|))
       || (body[0] == 1 && PayloadWraps(body, KEY_LENGTH * first + HEADER_SIZE_V1))
  }

  predicate PayloadWraps(body: seq<byte>, at: nat)
    requires at >= 4
  {
    at <= |body| && WrapsThrough(Read32BE(body[at - 4..]) + at, |body|)
  }

  lemma V0Exactly(body: seq<byte>)
    requires HEADER_SIZE_V0 <= |body| < UINT16 && body[0] == 0
    ensures Inside(FoundIn(body), |body|) <==> !Wraps(body)
  {
  }

  lemma V1Exactly(body: seq<byte>)
    requires HEADER_SIZE_V0 <= |body| < UINT16 && body[0] == 1
    ensures Inside(FoundIn(body), |body|) <==> !Wraps(body)
  {
    var count := Read32BE(body[HEADER_SIZE_V0 - 4..]);
    var at := PayloadAt(count);
    if at == KEY_LENGTH * count + HEADER_SIZE_V1 {
      if at <= |body| { assert FoundIn(body).hasPayload ==> FoundIn(body).at == at; }
    } else {
      assert at <= |body| ==> FoundIn(body).hasKeys && FoundIn(body).count == count;
    }
  }

  /** For every body, what the checks let through lies inside it if and only if no sum wraps through its check. */
  lemma InsideExactly(body: seq<byte>)
    requires HEADER_SIZE_V0 <= |body| < UINT16
    ensures Inside(FoundIn(body), |body|) <==> !Wraps(body)
  {
    if body[0] == 0 {
      V0Exactly(body);
    } else if body[0] == 1 {
      V1Exactly(body);
    }
  }

  /** Without such a sum the checks are those of the plain sums. */
  lemma StraightV0(body: seq<byte>)
    requires HEADER_SIZE_V0 <= |body| < UINT16 && body[0] == 0 && !Wraps(body)
    ensures var size := Read32BE(body[HEADER_SIZE_V0 - 4..]);
            FoundIn(body) == if size + HEADER_SIZE_V0 > |body| then NOT_FOUND
                             else Found(false, 0, true, HEADER_SIZE_V0, size)
  {
  }

  lemma StraightV1(body: seq<byte>)
    requires HEADER_SIZE_V0 <= |body| < UINT16 && body[0] == 1 && !Wraps(body)
    ensures var count := Read32BE(body[HEADER_SIZE_V0 - 4..]);
            var at := HEADER_SIZE_V1 + KEY_LENGTH * count;
            FoundIn(body) == if at > |body| then NOT_FOUND
                             else
                               var size := Read32BE(body[at - 4..]);
                               if at + size > |body| then Found(true, count, false, 0, 0)
                               else Found(true, count, true, at, size)
  {
  }

  // ----- Both can happen -----

  /** A header alone, with a payload size that wraps to nothing. */
  lemma SizeWraps(body: seq<byte>)
    requires |body| == 24 && body[0] == 0 && body[20..] == [0xFF, 0xFF, 0xFF, 0xE8]
    ensures FoundIn(body) == Found(false, 0, true, 24, 0xFFFF_FFE8) && !Inside(FoundIn(body), |body|)
  {
  }

  /** No key ids, and a count of them whose bytes wrap to nothing. */
  lemma CountWraps(body: seq<byte>)
    requires |body| == 28 && body[0] == 1 && body[20..] == [0x10, 0, 0, 0, 0, 0, 0, 0]
    ensures FoundIn(body) == Found(true, 0x1000_0000, true, 28, 0) && !Inside(FoundIn(body), |body|)
  {
    assert body[24..] == [0, 0, 0, 0];
  }
}
