/**
 * libjsreference.js: stable numeric ids for JavaScript objects handed to
 * Java, kept in a WeakMap. An object is named by its identity; `null` is
 * None. An entry the garbage collector drops belongs to an object nobody
 * can pass again, so the map is modelled as never shrinking.
 */
module JsReference {
  import opened Wrappers

  /** An object's identity. */
  type Obj = nat

  /** Ids handed out so far lie in [1, next), one per object. */
  ghost predicate WellNumbered(ids: map<Obj, nat>, next: nat)
  {
    && next >= 1
    && (forall o :: o in ids ==> 1 <= ids[o] < next)
    && (forall o1, o2 :: o1 in ids && o2 in ids && o1 != o2 ==> ids[o1] != ids[o2])
  }

  /** getId: the id, the ids afterwards, and `nextId` afterwards. */
  function Assign(ids: map<Obj, nat>, next: nat, obj: Option<Obj>): (r: (nat, map<Obj, nat>, nat))
  {
    if obj.None? then (0, ids, next)
    else if obj.value in ids then (ids[obj.value], ids, next)
    else (next, ids[obj.value := next], next + 1)
  }

  /** getId(null) is 0 and changes nothing; every object gets an id of at least 1. */
  lemma NullIsZero(ids: map<Obj, nat>, next: nat, obj: Option<Obj>)
    requires WellNumbered(ids, next)
    ensures Assign(ids, next, None) == (0, ids, next)
    ensures obj.Some? ==> Assign(ids, next, obj).0 >= 1
  {
  }

  /** Numbering keeps the ids distinct, and a new object takes `nextId`, which then grows by one. */
  lemma AssignKeepsNumbering(ids: map<Obj, nat>, next: nat, obj: Option<Obj>)
    requires WellNumbered(ids, next)
    ensures var r := Assign(ids, next, obj);
            && WellNumbered(r.1, r.2)
            && (obj.Some? && obj.value !in ids ==> r.0 == next && r.2 == next + 1)
            && (obj.Some? ==> obj.value in r.1 && r.1[obj.value] == r.0)
  {
  }

  /** The same object always gets the same id: asking again changes nothing. */
  lemma SameObjectSameId(ids: map<Obj, nat>, next: nat, obj: Obj)
    ensures var r := Assign(ids, next, Some(obj));
            Assign(r.1, r.2, Some(obj)) == (r.0, r.1, r.2)
  {
  }

  /** Distinct objects get distinct ids, whichever is asked first. */
  lemma DistinctObjectsDistinctIds(ids: map<Obj, nat>, next: nat, a: Obj, b: Obj)
    requires WellNumbered(ids, next) && a != b
    ensures var r := Assign(ids, next, Some(a));
            Assign(r.1, r.2, Some(b)).0 != r.0
  {
    AssignKeepsNumbering(ids, next, Some(a));
  }

  /** checkReferenceEquality: strict identity, so two nulls are equal and null equals no object. */
  function ReferenceEquality(a: Option<Obj>, b: Option<Obj>): (r: bool)
    ensures r <==> (a.None? && b.None?) || (a.Some? && b.Some? && a.value == b.value)
  {
    a == b
  }

  /** The module's state: `objectToId` and `nextId`. */
  class Registry {
    var objectToId: map<Obj, nat>
    var nextId: nat

    ghost predicate Valid()
      reads this
    {
      WellNumbered(objectToId, nextId)
    }

    constructor ()
      ensures Valid() && objectToId == map[] && nextId == 1
    {
      objectToId := map[];
      nextId := 1;
    }

    method GetId(obj: Option<Obj>) returns (id: nat)
      requires Valid()
      modifies this
      ensures Valid()
      ensures (id, objectToId, nextId) == Assign(old(objectToId), old(nextId), obj)
    {
      if obj.None? {
        return 0;
      }
      if obj.value in objectToId {
        return objectToId[obj.value];
      }
      id := nextId;
      nextId := nextId + 1;
      objectToId := objectToId[obj.value := id];
    }
  }
}
