/**
 What a type reads as after each storage operation, written out from the hot map,
 the blobs and the vtables, and what the operation leaves alone.
 */
module StorageViews {
  import opened Options
  import opened ExtensionModel

  /** What a type reads as from its blob: the decoded value if there is a blob that decodes, else the default. */
  lemma ColdReads(types: Types, s: Store, t: TypeId)
    requires t !in s.hot
    ensures types(t).extId in s.cold && types(t).deserialize(s.cold[types(t).extId]).Some?
        ==> Some(View(types, s, t)) == types(t).deserialize(s.cold[types(t).extId])
    ensures types(t).extId !in s.cold || types(t).deserialize(s.cold[types(t).extId]).None?
        ==> View(types, s, t) == types(t).defaultValue
  {
  }

  /** A hot type reads as its hot value, whatever its blob. */
  lemma HotReads(types: Types, s: Store, t: TypeId)
    requires t in s.hot
    ensures View(types, s, t) == s.hot[t]
  {
  }

  /** After a successful insert the type reads as the inserted value, hot before or not; after a
      failed one as before.  An insert fails exactly when a persisted type does not serialize. */
  lemma InsertReads(types: Types, s: Store, t: TypeId, v: Value)
    ensures InsertSucceeds(types, t, v) <==> types(t).strategy == NoSnapshot || types(t).serialize(v) != None
    ensures View(types, Insert(types, s, t, v), t) == if InsertSucceeds(types, t, v) then v else View(types, s, t)
    ensures InsertSucceeds(types, t, v) ==> t in Insert(types, s, t, v).hot && t in Insert(types, s, t, v).registered
  {
  }

  /** The blob an insert leaves: the value's serialization, except for types that are not persisted. */
  lemma InsertPersists(types: Types, s: Store, t: TypeId, v: Value)
    ensures Insert(types, s, t, v).cold
         == if types(t).strategy != NoSnapshot && types(t).serialize(v).Some?
            then s.cold[types(t).extId := types(t).serialize(v).value] else s.cold
  {
  }

  /** Types with another extension id read as before. */
  lemma InsertFrames(types: Types, s: Store, t: TypeId, v: Value, u: TypeId)
    requires u != t && types(u).extId != types(t).extId
    ensures View(types, Insert(types, s, t, v), u) == View(types, s, u)
    ensures u in Insert(types, s, t, v).hot <==> u in s.hot
  {
  }

  /** A known extension id: its type reads as the decoded blob, or as the default if the blob does
      not decode, hot before or not, and the blob is kept.  An unknown one changes nothing. */
  lemma HydrateReads(types: Types, s: Store, extId: string, blob: Blob)
    ensures var after := Hydrate(types, s, extId, blob);
      if extId in s.extIds && s.extIds[extId] in s.registered then
        var t := s.extIds[extId];
        && (types(t).deserialize(blob).Some? ==> Some(View(types, after, t)) == types(t).deserialize(blob))
        && (types(t).deserialize(blob).None? ==> View(types, after, t) == types(t).defaultValue)
        && t in after.hot && after.cold == s.cold[extId := blob]
      else after == s
  {
  }

  lemma HydrateFrames(types: Types, s: Store, extId: string, blob: Blob, u: TypeId)
    requires types(u).extId != extId && (extId in s.extIds ==> s.extIds[extId] != u)
    ensures View(types, Hydrate(types, s, extId, blob), u) == View(types, s, u)
  {
  }

  /** Registering a type makes its extension id known. */
  lemma RegisterMakesKnown(types: Types, s: Store, t: TypeId)
    ensures var after := Register(types, s, t);
      && types(t).extId in after.extIds && after.extIds[types(t).extId] == t && t in after.registered
      && after.hot == s.hot && after.cold == s.cold
      && forall e :: e != types(t).extId ==> (e in after.extIds <==> e in s.extIds) && (e in s.extIds ==> after.extIds[e] == s.extIds[e])
  {
  }

  /** An evicted type falls back to its blob or default; nothing else changes. */
  lemma EvictReads(types: Types, s: Store, t: TypeId, u: TypeId)
    ensures var after := Evict(s, t);
      && t !in after.hot && after.cold == s.cold
      && (types(t).extId in s.cold && types(t).deserialize(s.cold[types(t).extId]).Some?
          ==> Some(View(types, after, t)) == types(t).deserialize(s.cold[types(t).extId]))
      && (types(t).extId !in s.cold || types(t).deserialize(s.cold[types(t).extId]).None?
          ==> View(types, after, t) == types(t).defaultValue)
      && (u != t ==> View(types, after, u) == View(types, s, u) && (u in after.hot <==> u in s.hot))
  {
  }

  /** A write through either mutable accessor is what the type then reads as; `get_mut` reaches
      only hot types.  Blobs and other types keep. */
  lemma AccessReads(types: Types, s: Store, t: TypeId, v: Value, u: TypeId)
    ensures var after := Step(types, s, GetOrInsert(t, v));
      View(types, after, t) == v && after.cold == s.cold && (u != t ==> View(types, after, u) == View(types, s, u))
    ensures var after := Step(types, s, GetMut(t, v));
      && View(types, after, t) == (if t in s.hot then v else View(types, s, t))
      && after.cold == s.cold && (u != t ==> View(types, after, u) == View(types, s, u))
  {
  }

  /** The last value a run gives a type through inserts and writes. */
  function LastGiven(types: Types, s: Store, ops: seq<Op>, t: TypeId): Value {
    if ops == [] then View(types, s, t)
    else
      var n := |ops| - 1;
      match ops[n]
      case InsertOp(u, v) =>
        if u == t && (types(t).strategy == NoSnapshot || types(t).serialize(v) != None) then v
        else LastGiven(types, s, ops[..n], t)
      case GetOrInsert(u, v) => if u == t then v else LastGiven(types, s, ops[..n], t)
      case GetMut(u, v) =>
        if u == t && t in Run(types, s, ops[..n]).hot then v else LastGiven(types, s, ops[..n], t)
      case _ => LastGiven(types, s, ops[..n], t)
  }

  /** Read your writes: over every run without hydration or eviction, a type reads as the last
      value inserted or written, whatever was hot, persisted or attached. */
  lemma {:induction false} RunReadsLastGiven(types: Types, s: Store, ops: seq<Op>, t: TypeId)
    requires forall u, w :: u != w ==> types(u).extId != types(w).extId
    requires forall i :: 0 <= i < |ops| ==> !ops[i].HydrateOp? && !ops[i].EvictOp?
    ensures View(types, Run(types, s, ops), t) == LastGiven(types, s, ops, t)
  {
    if ops != [] {
      var n := |ops| - 1;
      var before := Run(types, s, ops[..n]);
      RunReadsLastGiven(types, s, ops[..n], t);
      match ops[n]
      case InsertOp(u, v) =>
        InsertReads(types, before, u, v);
        if u != t { InsertFrames(types, before, u, v, t); }
      case GetOrInsert(u, v) => AccessReads(types, before, u, v, t);
      case GetMut(u, v) => AccessReads(types, before, u, v, t);
    }
  }
}
