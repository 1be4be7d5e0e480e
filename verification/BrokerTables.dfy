// The broker's entity tables: a fixed number of slots, looked up by the session that created
// the entity and its two-octet id.
module BrokerTables {
  import opened Bytes

  datatype ObjId = ObjId(hi: byte, lo: byte)

  datatype Slot<T> = Slot(used: bool, session: nat, id: ObjId, val: T)

  predicate Has<T>(s: Slot<T>, session: nat, id: ObjId) { s.used && s.session == session && s.id == id }

  // The first slot holding the entity, or the table's length.
  function FirstHas<T>(t: seq<Slot<T>>, session: nat, id: ObjId): (i: nat)
    ensures i <= |t|
    ensures i < |t| ==> Has(t[i], session, id)
    ensures forall j | 0 <= j < i :: !Has(t[j], session, id)
  {
    if t == [] || Has(t[0], session, id) then 0 else 1 + FirstHas(t[1..], session, id)
  }

  function FirstFree<T>(t: seq<Slot<T>>): (i: nat)
    ensures i <= |t|
    ensures i < |t| ==> !t[i].used
    ensures forall j | 0 <= j < i :: t[j].used
  {
    if t == [] || !t[0].used then 0 else 1 + FirstFree(t[1..])
  }

  function Lookup<T>(t: seq<Slot<T>>, session: nat, id: ObjId): (r: Option<T>) {
    var i := FirstHas(t, session, id);
    if i < |t| then Some(t[i].val) else None
  }

  // The slot an entity gets: its own, else the first free one, else none.
  function Place<T>(t: seq<Slot<T>>, session: nat, id: ObjId): (i: nat)
    ensures i <= |t|
  {
    var i := FirstHas(t, session, id);
    if i < |t| then i else FirstFree(t)
  }

  function Registered<T>(t: seq<Slot<T>>, session: nat, id: ObjId, v: T): (t': seq<Slot<T>>)
    ensures |t'| == |t|
  {
    var i := Place(t, session, id);
    if i < |t| then t[i := Slot(true, session, id, v)] else t
  }

  // No entity is in the table twice.
  ghost predicate Unique<T>(t: seq<Slot<T>>) {
    forall i, j | 0 <= i < |t| && 0 <= j < |t| && t[i].used && Has(t[j], t[i].session, t[i].id) :: i == j
  }

  function Used<T>(t: seq<Slot<T>>): (n: nat)
    ensures n <= |t|
  {
    if t == [] then 0 else (if t[0].used then 1 else 0) + Used(t[1..])
  }

  lemma {:induction false} FreeIffNotFull<T>(t: seq<Slot<T>>)
    ensures FirstFree(t) < |t| <==> Used(t) < |t|
  {
    if t != [] {
      FreeIffNotFull(t[1..]);
    }
  }

  lemma LookupIs<T>(t: seq<Slot<T>>, session: nat, id: ObjId, i: nat)
    requires Unique(t) && i < |t| && Has(t[i], session, id)
    ensures Lookup(t, session, id) == Some(t[i].val) && Place(t, session, id) == i
  {
    var k := FirstHas(t, session, id);
    assert k <= i;
    assert Has(t[k], t[i].session, t[i].id);
  }

  // A table is a map from entities to their values: registering sets one entry when the
  // entity is known or a slot is free, and otherwise changes nothing.
  lemma RegisterIsUpdate<T>(t: seq<Slot<T>>, session: nat, id: ObjId, v: T, session': nat, id': ObjId)
    requires Unique(t)
    ensures Unique(Registered(t, session, id, v))
    ensures Lookup(Registered(t, session, id, v), session', id') ==
            if session' == session && id' == id && (Lookup(t, session, id).Some? || Used(t) < |t|) then Some(v)
            else Lookup(t, session', id')
  {
    var i, t' := Place(t, session, id), Registered(t, session, id, v);
    FreeIffNotFull(t);
    if i < |t| {
      forall j | 0 <= j < |t| && Has(t[j], session, id) ensures j == i {
        LookupIs(t, session, id, j);
      }
      assert Unique(t');
      LookupIs(t', session, id, i);
      if session' != session || id' != id {
        var k, k' := FirstHas(t, session', id'), FirstHas(t', session', id');
        if k < |t| {
          LookupIs(t', session', id', k);
        }
        if k' < |t| {
          LookupIs(t, session', id', k');
        }
      }
    }
  }

  // ---- the tables as arrays ---------------------------------------------------------

  lemma FirstHasIs<T>(t: seq<Slot<T>>, session: nat, id: ObjId, i: nat)
    requires i <= |t| && forall j | 0 <= j < i :: !Has(t[j], session, id)
    requires i < |t| ==> Has(t[i], session, id)
    ensures FirstHas(t, session, id) == i
  {
  }

  // find_topic and find_ep; the length stands for a null result.
  method Find<T>(table: array<Slot<T>>, session: nat, id: ObjId) returns (i: nat)
    ensures i == FirstHas(table[..], session, id)
  {
    i := 0;
    while i < table.Length
      invariant i <= table.Length
      invariant forall j | 0 <= j < i :: !Has(table[j], session, id)
    {
      if Has(table[i], session, id) {
        break;
      }
      i := i + 1;
    }
    FirstHasIs(table[..], session, id, i);
  }

  // alloc_topic and alloc_ep. A new slot keeps the value it had; callers set it at once.
  method Alloc<T>(table: array<Slot<T>>, session: nat, id: ObjId) returns (i: nat)
    modifies table
    ensures i == Place(old(table[..]), session, id)
    ensures i == table.Length ==> table[..] == old(table[..])
    ensures i < table.Length ==>
              table[..] == old(table[..])[i := Slot(true, session, id, old(table[..])[i].val)]
  {
    i := Find(table, session, id);
    if i < table.Length {
      return;
    }
    ghost var t := table[..];
    i := 0;
    while i < table.Length
      invariant i <= table.Length && table[..] == t
      invariant forall j | 0 <= j < i :: t[j].used
    {
      if !table[i].used {
        assert t[i] == table[i];
        assert i == FirstFree(t);
        table[i] := table[i].(used := true, session := session, id := id);
        return;
      }
      assert t[i] == table[i];
      i := i + 1;
    }
    assert i == FirstFree(t);
  }

  method Register<T>(table: array<Slot<T>>, session: nat, id: ObjId, v: T) returns (ok: bool)
    modifies table
    ensures table[..] == Registered(old(table[..]), session, id, v)
    ensures ok == (Place(old(table[..]), session, id) < table.Length)
  {
    var i := Alloc(table, session, id);
    ok := i < table.Length;
    if ok {
      table[i] := table[i].(val := v);
    }
  }
}
