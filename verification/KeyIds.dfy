/**
 The list of key ids that CommonEncryptionData collects: adding an id that is already listed
 only widens the set of DRM systems it is flagged with.
 */
module KeyIds {
  import opened Common

  const KEY_LENGTH: nat := 16

  type Id = s: seq<byte> | |s| == KEY_LENGTH witness seq(KEY_LENGTH, _ => 0)

  /** The bits of `systemType`; a bit mask of them is a set. */
  datatype System = COMMON | CLEARKEY | PLAYREADY | WIDEVINE

  datatype KeyId = KeyId(id: Id, systems: set<System>)

  datatype Addition = Addition(id: Id, system: System)

  /** AddKeyId: flag the first entry with that id, or append one. */
  function Added(keys: seq<KeyId>, a: Addition): seq<KeyId> {
    if keys == [] then [KeyId(a.id, {a.system})]
    else if keys[0].id == a.id then [KeyId(a.id, keys[0].systems + {a.system})] + keys[1..]
    else [keys[0]] + Added(keys[1..], a)
  }

  function AddedAll(keys: seq<KeyId>, adds: seq<Addition>): seq<KeyId>
    decreases |adds|
  {
    if adds == [] then keys
    else Added(AddedAll(keys, adds[..|adds| - 1]), adds[|adds| - 1])
  }

  lemma {:induction false} AddedAllConcat(keys: seq<KeyId>, a: seq<Addition>, b: seq<Addition>)
    ensures AddedAll(keys, a + b) == AddedAll(AddedAll(keys, a), b)
    decreases |b|
  {
    if b == [] {
      assert a + b == a;
    } else {
      assert (a + b)[..|a + b| - 1] == a + b[..|b| - 1];
      AddedAllConcat(keys, a, b[..|b| - 1]);
    }
  }

  // ----- What the list holds after a series of additions -----

  function Ids(keys: seq<KeyId>): (ids: seq<Id>)
    ensures |ids| == |keys|
  {
    if keys == [] then [] else [keys[0].id] + Ids(keys[1..])
  }

  function SystemsOf(keys: seq<KeyId>, id: Id): set<System> {
    if keys == [] then {}
    else (if keys[0].id == id then keys[0].systems else {}) + SystemsOf(keys[1..], id)
  }

  /** The ids of a series of additions, each once, in the order of their first appearance. */
  function FirstAppearances(adds: seq<Addition>): (ids: seq<Id>)
    decreases |adds|
  {
    if adds == [] then []
    else
      var before := FirstAppearances(adds[..|adds| - 1]);
      var id := adds[|adds| - 1].id;
      if id in before then before else before + [id]
  }

  lemma {:induction false} AddedIds(keys: seq<KeyId>, a: Addition)
    ensures Ids(Added(keys, a)) == if a.id in Ids(keys) then Ids(keys) else Ids(keys) + [a.id]
  {
    if keys == [] {
      assert Ids([KeyId(a.id, {a.system})]) == [a.id] + Ids([]);
    } else {
      AddedIds(keys[1..], a);
      assert Added(keys, a)[1..] == if keys[0].id == a.id then keys[1..] else Added(keys[1..], a);
      assert [keys[0].id] + (Ids(keys[1..]) + [a.id]) == Ids(keys) + [a.id];
    }
  }

  lemma {:induction false} AddedSystems(keys: seq<KeyId>, a: Addition, id: Id)
    ensures SystemsOf(Added(keys, a), id) == SystemsOf(keys, id) + (if a.id == id then {a.system} else {})
  {
    if keys == [] {
      assert SystemsOf([KeyId(a.id, {a.system})], id) == (if a.id == id then {a.system} else {}) + SystemsOf([], id);
    } else {
      AddedSystems(keys[1..], a, id);
      assert Added(keys, a)[1..] == if keys[0].id == a.id then keys[1..] else Added(keys[1..], a);
    }
  }

  lemma {:induction false} FirstAppearancesDistinct(adds: seq<Addition>)
    ensures Distinct(FirstAppearances(adds))
    ensures forall id :: id in FirstAppearances(adds) <==> exists a :: a in adds && a.id == id
    decreases |adds|
  {
    if adds != [] {
      var init, last := adds[..|adds| - 1], adds[|adds| - 1];
      FirstAppearancesDistinct(init);
      assert adds == init + [last];
      assert forall a :: a in adds <==> a in init || a == last;
    }
  }

  lemma {:induction false} LedgerIds(adds: seq<Addition>)
    ensures Ids(AddedAll([], adds)) == FirstAppearances(adds)
    decreases |adds|
  {
    if adds != [] {
      LedgerIds(adds[..|adds| - 1]);
      AddedIds(AddedAll([], adds[..|adds| - 1]), adds[|adds| - 1]);
    }
  }

  lemma {:induction false} LedgerSystems(adds: seq<Addition>, id: Id)
    ensures SystemsOf(AddedAll([], adds), id) == set a | a in adds && a.id == id :: a.system
    decreases |adds|
  {
    if adds != [] {
      var init, last := adds[..|adds| - 1], adds[|adds| - 1];
      LedgerSystems(init, id);
      AddedSystems(AddedAll([], init), last, id);
      assert adds == init + [last];
      assert forall a :: a in adds <==> a in init || a == last;
    }
  }

  lemma {:induction false} IdAt(keys: seq<KeyId>, i: nat)
    requires i < |keys|
    ensures Ids(keys)[i] == keys[i].id
  {
    if i > 0 { IdAt(keys[1..], i - 1); }
  }

  lemma {:induction false} NoSystemsElsewhere(keys: seq<KeyId>, id: Id)
    requires id !in Ids(keys)
    ensures SystemsOf(keys, id) == {}
  {
    if keys != [] {
      assert Ids(keys)[0] == keys[0].id;
      assert forall x :: x in Ids(keys[1..]) ==> x in Ids(keys);
      NoSystemsElsewhere(keys[1..], id);
    }
  }

  lemma {:induction false} SystemsAt(keys: seq<KeyId>, i: nat)
    requires i < |keys|
    requires forall j, k :: 0 <= j < k < |keys| ==> Ids(keys)[j] != Ids(keys)[k]
    ensures keys[i].systems == SystemsOf(keys, keys[i].id)
  {
    var tail := keys[1..];
    assert forall j :: 0 <= j < |tail| ==> Ids(keys)[j + 1] == Ids(tail)[j];
    if i == 0 {
      assert keys[0].id == Ids(keys)[0];
      NoSystemsElsewhere(tail, keys[0].id);
    } else {
      IdAt(keys, i);
      assert keys[0].id == Ids(keys)[0];
      SystemsAt(tail, i - 1);
    }
  }

  /**
   After any series of additions to an empty list: each distinct id once, in first-appearance
   order, flagged with exactly the systems it was added for.
   */
  lemma Ledger(adds: seq<Addition>)
    ensures var keys := AddedAll([], adds);
            && Ids(keys) == FirstAppearances(adds)
            && (forall i, j :: 0 <= i < j < |keys| ==> keys[i].id != keys[j].id)
            && forall i :: 0 <= i < |keys| ==> keys[i].systems == set a | a in adds && a.id == keys[i].id :: a.system
  {
    var keys := AddedAll([], adds);
    LedgerIds(adds);
    FirstAppearancesDistinct(adds);
    forall i, j | 0 <= i < j < |keys| ensures keys[i].id != keys[j].id {
      IdAt(keys, i);
      IdAt(keys, j);
    }
    forall i | 0 <= i < |keys| ensures keys[i].systems == set a | a in adds && a.id == keys[i].id :: a.system {
      SystemsAt(keys, i);
      LedgerSystems(adds, keys[i].id);
    }
  }

  lemma {:induction false} AddedAt(keys: seq<KeyId>, a: Addition, i: nat)
    requires i <= |keys| && forall j :: 0 <= j < i ==> keys[j].id != a.id
    requires i < |keys| ==> keys[i].id == a.id
    ensures Added(keys, a) == if i == |keys| then keys + [KeyId(a.id, {a.system})]
                              else keys[i := KeyId(a.id, keys[i].systems + {a.system})]
  {
    if i > 0 {
      AddedAt(keys[1..], a, i - 1);
      assert keys == [keys[0]] + keys[1..];
    }
  }
}
