/**
 * `Model` (model.js), the base class of the library's business objects: the
 * `id` helper and the two projections of an instance back to plain data, one
 * for storage (nested models projected too) and one for sending to the
 * server (nested models left out).
 */
module Model {
  import opened JsValue

  /**
   * `Model.id(objOrId)`: an array gives the ids of its elements, an object
   * its `id` property, anything else is taken to be an id already.
   */
  function Id(v: Value): (r: Value)
    ensures r.Arr? <==> v.Arr? || (v.Obj? && Field(v.fields, "id").Arr?)
    ensures v.Arr? ==> |r.elems| == |v.elems| && forall i :: 0 <= i < |v.elems| ==> r.elems[i] == Id(v.elems[i])
    ensures v.Obj? ==> r == Field(v.fields, "id")
    ensures v.Fun? ==> r == Undefined
    ensures !v.Arr? && !v.Obj? && !v.Fun? ==> r == v
  {
    match v
    case Arr(e) => Arr(seq(|e|, i requires 0 <= i < |e| => Id(e[i])))
    case Obj(_, _, fields) => Field(fields, "id")
    case Fun(_) => Undefined
    case _ => v
  }

  /** A value holding no object or function at any depth. */
  predicate IdsOnly(v: Value) {
    match v
    case Arr(e) => forall i :: 0 <= i < |e| ==> IdsOnly(e[i])
    case Obj(_, _, _) => false
    case Fun(_) => false
    case _ => true
  }

  /** An array of objects gives the list of their `id` fields. */
  lemma IdOfObjects(e: seq<Value>)
    requires forall i :: 0 <= i < |e| ==> e[i].Obj?
    ensures Id(Arr(e)).Arr? && |Id(Arr(e)).elems| == |e|
    ensures forall i :: 0 <= i < |e| ==> Id(Arr(e)).elems[i] == Field(e[i].fields, "id")
  {
  }

  /** Ids, and arrays of ids nested to any depth, are returned as they are. */
  lemma {:induction false} IdOfIds(v: Value)
    requires IdsOnly(v)
    ensures Id(v) == v
  {
    match v
    case Arr(e) =>
      forall i | 0 <= i < |e| ensures Id(e[i]) == e[i] {
        IdOfIds(e[i]);
      }
      assert Id(v).elems == e;
    case _ =>
  }

  /** `model.toPlainObject()`: own fields copied, nested models projected in turn. */
  function ToPlainObject(m: Value): (r: Value)
    requires IsModel(m)
    ensures r.Obj? && r.proto == PlainProto
    decreases m
  {
    var ks := OwnKeys(m);
    PutAll(EmptyObj, ks, seq(|ks|, i requires 0 <= i < |ks| =>
      var x := m.fields[ks[i]];
      if IsModel(x) then ToPlainObject(x) else x))
  }

  /** The keys among `ks` whose value in `fields` is not a model, in order. */
  function NonModelKeys(ks: seq<string>, fields: map<string, Value>): (r: seq<string>)
    requires forall k :: k in ks ==> k in fields
    ensures forall k :: k in r <==> k in ks && !IsModel(fields[k])
    ensures Distinct(ks) ==> Distinct(r)
  {
    if ks == [] then []
    else
      var rest := NonModelKeys(ks[1..], fields);
      assert Distinct(ks) ==> Distinct(ks[1..]) by {
        if Distinct(ks) {
          forall i, j | 0 <= i < j < |ks[1..]| ensures ks[1..][i] != ks[1..][j] {
            assert ks[1..][i] == ks[i + 1] && ks[1..][j] == ks[j + 1];
          }
        }
      }
      if IsModel(fields[ks[0]]) then rest else [ks[0]] + rest
  }

  /** `model.toTransferObject()`: own fields copied, model-valued fields left out. */
  function ToTransferObject(m: Value): (r: Value)
    requires IsModel(m)
    ensures r.Obj? && r.proto == PlainProto
  {
    var ks := NonModelKeys(OwnKeys(m), m.fields);
    PutAll(EmptyObj, ks, seq(|ks|, i requires 0 <= i < |ks| => m.fields[ks[i]]))
  }

  /** The storage projection of a well-formed model, field by field. */
  lemma ToPlainObjectFields(m: Value)
    requires IsModel(m) && WfObj(m.keys, m.fields)
    ensures ToPlainObject(m).keys == m.keys
    ensures forall k :: k in ToPlainObject(m).fields <==> k in m.fields
    ensures forall k :: k in m.fields ==>
      ToPlainObject(m).fields[k] == if IsModel(m.fields[k]) then ToPlainObject(m.fields[k]) else m.fields[k]
    ensures forall k :: k in ToPlainObject(m).fields ==> !IsModel(ToPlainObject(m).fields[k])
  {
    var ks := OwnKeys(m);
    var vs := seq(|ks|, i requires 0 <= i < |ks| =>
      var x := m.fields[ks[i]];
      if IsModel(x) then ToPlainObject(x) else x);
    assert ToPlainObject(m) == PutAll(EmptyObj, ks, vs);
    PutAllFreshOrder(EmptyObj, ks, vs);
    PutAllKeys(EmptyObj, ks, vs);
    forall k | k in m.fields
      ensures ToPlainObject(m).fields[k] == if IsModel(m.fields[k]) then ToPlainObject(m.fields[k]) else m.fields[k]
    {
      PlainFieldAt(m, k);
    }
  }

  /** One field of the storage projection. */
  lemma PlainFieldAt(m: Value, k: string)
    requires IsModel(m) && WfObj(m.keys, m.fields) && k in m.fields
    ensures k in ToPlainObject(m).fields
    ensures ToPlainObject(m).fields[k] == if IsModel(m.fields[k]) then ToPlainObject(m.fields[k]) else m.fields[k]
  {
    var ks := OwnKeys(m);
    var vs := seq(|ks|, i requires 0 <= i < |ks| =>
      var x := m.fields[ks[i]];
      if IsModel(x) then ToPlainObject(x) else x);
    assert ToPlainObject(m) == PutAll(EmptyObj, ks, vs);
    var i :| 0 <= i < |ks| && ks[i] == k;
    PutAllLastValue(EmptyObj, ks, vs, i);
  }

  /** The transfer projection keeps exactly the fields that are not models, in order. */
  lemma ToTransferObjectFields(m: Value)
    requires IsModel(m) && WfObj(m.keys, m.fields)
    ensures ToTransferObject(m).keys == NonModelKeys(m.keys, m.fields)
    ensures forall k :: k in ToTransferObject(m).fields <==> k in m.fields && !IsModel(m.fields[k])
    ensures forall k :: k in ToTransferObject(m).fields ==> ToTransferObject(m).fields[k] == m.fields[k]
  {
    var ks := NonModelKeys(OwnKeys(m), m.fields);
    var vs := seq(|ks|, i requires 0 <= i < |ks| => m.fields[ks[i]]);
    PutAllFresh(EmptyObj, ks, vs);
    var r := ToTransferObject(m);
    assert r == PutAll(EmptyObj, ks, vs);
    forall k | k in r.fields ensures r.fields[k] == m.fields[k] {
      var i :| 0 <= i < |ks| && ks[i] == k;
    }
  }
}
