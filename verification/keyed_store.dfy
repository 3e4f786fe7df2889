/** A table with a serial primary key, as the services use it through gorm:
    `First(&rec, id)`, `Create`, `Save` and `Delete(&T{}, id)` over a map
    from id to record. Unique columns other than the key are a parameter
    `clash`, true of two records that may not both be stored. */
module KeyedStore {
  import opened Wrappers

  type Store<T> = map<nat, T>

  /** `gorm.ErrRecordNotFound`, and the database refusing a duplicate value
      in a unique column. */
  datatype StoreError = RecordNotFound | UniqueViolation

  /** A record together with its `ID`. */
  datatype Keyed<T> = Keyed(id: nat, rec: T)

  /** The store after an operation, and what the operation returned. */
  datatype Step<T> = Step(store: Store<T>, result: Result<Keyed<T>, StoreError>)

  /** The least id at or above `k`, given one (`bound`) exists. */
  function MinFrom(keys: set<nat>, k: nat, ghost bound: nat): (m: nat)
    requires bound in keys && k <= bound
    requires forall j :: j in keys ==> j >= k
    ensures m in keys && forall j :: j in keys ==> m <= j
    decreases bound - k
  {
    if k in keys then k else MinFrom(keys, k + 1, bound)
  }

  /** The least key of a non-empty key set. */
  function MinKey(keys: set<nat>): (m: nat)
    requires keys != {}
    ensures m in keys && forall j :: j in keys ==> m <= j
  {
    MinFrom(keys, 0, var b :| b in keys; b)
  }

  /** The ids `1..k`. */
  function Range(k: nat): (r: set<nat>)
    ensures forall j :: j in r <==> 1 <= j <= k
    ensures |r| == k
  {
    if k == 0 then {} else
      var r := Range(k - 1);
      assert k !in r;
      r + {k}
  }

  /** `1..k` inside `keys` leaves at least `k` keys. */
  lemma RangeInside(keys: set<nat>, k: nat)
    requires forall j :: 1 <= j <= k ==> j in keys
    ensures |keys| >= k
  {
    var r := Range(k);
    assert r <= keys;
    SubsetSize(r, keys);
  }

  lemma {:induction false} SubsetSize(a: set<nat>, b: set<nat>)
    requires a <= b
    ensures |a| <= |b|
    decreases |a|
  {
    if a != {} {
      var x :| x in a;
      SubsetSize(a - {x}, b - {x});
    }
  }

  function FreshFrom(keys: set<nat>, k: nat): (id: nat)
    requires k >= 1
    requires forall j :: 1 <= j < k ==> j in keys
    ensures id >= k && id !in keys
    ensures forall j :: 1 <= j < id ==> j in keys
    decreases |keys| + 1 - k
  {
    if k !in keys then k
    else
      RangeInside(keys, k);
      FreshFrom(keys, k + 1)
  }

  /** The id the serial column hands out: positive and not yet used (the
      least such, which the database need not pick; only freshness is used). */
  function NextId<T>(store: Store<T>): (id: nat)
    ensures id >= 1 && id !in store
  {
    FreshFrom(store.Keys, 1)
  }

  /** Some record other than the one at `id` clashes with `rec`. */
  predicate Clashes<T>(store: Store<T>, id: nat, rec: T, clash: (T, T) -> bool) {
    exists k :: k in store && k != id && clash(store[k], rec)
  }

  /** `First(&rec, id)`. */
  function Find<T>(store: Store<T>, id: nat): (r: Result<Keyed<T>, StoreError>)
    ensures r.Success? <==> id in store
    ensures r.Success? ==> r.value.id == id && r.value.rec == store[id]
    ensures r.Failure? ==> r.error == RecordNotFound
  {
    if id in store then Success(Keyed(id, store[id])) else Failure(RecordNotFound)
  }

  /** `Create(&rec)`: a fresh id, unless a unique column clashes. */
  function Create<T>(store: Store<T>, rec: T, clash: (T, T) -> bool): (s: Step<T>)
    ensures s.result.Failure? ==> s.store == store && s.result.error == UniqueViolation
    ensures s.result.Failure? <==> exists k :: k in store && clash(store[k], rec)
    ensures s.result.Success? ==> s.result.value.id !in store && s.result.value.rec == rec
    ensures s.result.Success? ==> s.store.Keys == store.Keys + {s.result.value.id}
    ensures s.result.Success? ==> forall k :: k in store ==> s.store[k] == store[k]
    ensures s.result.Success? ==> s.store[s.result.value.id] == rec
  {
    var id := NextId(store);
    if Clashes(store, id, rec, clash) then Step(store, Failure(UniqueViolation))
    else Step(store[id := rec], Success(Keyed(id, rec)))
  }

  /** `First`, change the found record with `patch`, then `Save`. */
  function Update<T>(store: Store<T>, id: nat, patch: T -> T, clash: (T, T) -> bool): (s: Step<T>)
    ensures id !in store ==> s == Step(store, Failure(RecordNotFound))
    ensures s.result.Failure? ==> s.store == store
    ensures id in store ==> (s.result.Failure? <==> Clashes(store, id, patch(store[id]), clash))
    ensures s.result.Success? ==> s.result.value == Keyed(id, patch(store[id]))
    ensures s.result.Success? ==> s.store.Keys == store.Keys && s.store[id] == s.result.value.rec
    ensures s.result.Success? ==> forall k :: k in store && k != id ==> s.store[k] == store[k]
  {
    match Find(store, id)
    case Failure(e) => Step(store, Failure(e))
    case Success(found) =>
      var rec := patch(found.rec);
      if Clashes(store, id, rec, clash) then Step(store, Failure(UniqueViolation))
      else Step(store[id := rec], Success(Keyed(id, rec)))
  }

  /** `First`, then `Delete(&T{}, id)`: the record as it was before. */
  function Delete<T>(store: Store<T>, id: nat): (s: Step<T>)
    ensures id !in store <==> s == Step(store, Failure(RecordNotFound))
    ensures s.result.Success? ==> s.result.value == Keyed(id, store[id])
    ensures s.result.Success? ==> s.store.Keys == store.Keys - {id}
    ensures s.result.Success? ==> forall k :: k in s.store ==> s.store[k] == store[k]
  {
    match Find(store, id)
    case Failure(e) => Step(store, Failure(e))
    case Success(found) => Step(store - {id}, Success(found))
  }

  /** Never true: a table with no unique column besides the key. */
  predicate NoClash<T>(a: T, b: T) {
    false
  }

  /** `Create(&rec)` on a table with no other unique column: it always succeeds. */
  function Insert<T>(store: Store<T>, rec: T): (s: Step<T>)
    ensures s.result.Success?
    ensures s.result.value.id !in store && s.result.value.rec == rec
    ensures s.store == store[s.result.value.id := rec]
  {
    var s := Create(store, rec, NoClash);
    assert s.store == store[s.result.value.id := rec];
    s
  }

  /** `First`, `patch`, `Save` on a table with no other unique column: it
      fails exactly when the id is missing. */
  function Patch<T>(store: Store<T>, id: nat, patch: T -> T): (s: Step<T>)
    ensures s.result.Failure? <==> id !in store
    ensures s.result.Failure? ==> s == Step(store, Failure(RecordNotFound))
    ensures s.result.Success? ==> s.result.value == Keyed(id, patch(store[id])) && s.store == store[id := patch(store[id])]
  {
    var s := Update(store, id, patch, NoClash);
    assert s.result.Success? ==> s.store == store[id := s.result.value.rec];
    s
  }

  /** A created record is found under its new id. */
  lemma FindAfterCreate<T>(store: Store<T>, rec: T, clash: (T, T) -> bool)
    requires Create(store, rec, clash).result.Success?
    ensures var s := Create(store, rec, clash);
            Find(s.store, s.result.value.id) == Success(s.result.value)
  {
  }

  /** Deleting what was just created gives back the store and the record. */
  lemma DeleteAfterCreate<T>(store: Store<T>, rec: T, clash: (T, T) -> bool)
    requires Create(store, rec, clash).result.Success?
    ensures var s := Create(store, rec, clash);
            var d := Delete(s.store, s.result.value.id);
            d.store == store && d.result == s.result
  {
    var s := Create(store, rec, clash);
    var d := Delete(s.store, s.result.value.id);
    assert d.store.Keys == store.Keys;
  }

  /** After a successful update, the record is found as returned and every
      other lookup answers as before. */
  lemma FindAfterUpdate<T>(store: Store<T>, id: nat, patch: T -> T, clash: (T, T) -> bool, other: nat)
    requires Update(store, id, patch, clash).result.Success?
    ensures var s := Update(store, id, patch, clash);
            Find(s.store, id) == s.result
            && (other != id ==> Find(s.store, other) == Find(store, other))
  {
  }

  /** After a delete, the id is gone and every other lookup answers as before. */
  lemma FindAfterDelete<T>(store: Store<T>, id: nat, other: nat)
    ensures var s := Delete(store, id);
            Find(s.store, id).Failure?
            && (other != id ==> Find(s.store, other) == Find(store, other))
  {
  }

  /** A successful create adds one record, a successful delete removes one. */
  lemma Sizes<T>(store: Store<T>, rec: T, clash: (T, T) -> bool, id: nat)
    ensures Create(store, rec, clash).result.Success? ==> |Create(store, rec, clash).store| == |store| + 1
    ensures Delete(store, id).result.Success? ==> |Delete(store, id).store| == |store| - 1
  {
    var c := Create(store, rec, clash);
    if c.result.Success? {
      assert c.store.Keys == store.Keys + {c.result.value.id};
    }
    var d := Delete(store, id);
    if d.result.Success? {
      assert d.store.Keys == store.Keys - {id};
    }
  }

  /** The records of the table in ascending id order. */
  function Entries<T>(store: Store<T>): (r: seq<Keyed<T>>)
    ensures |r| == |store|
    ensures forall i :: 0 <= i < |r| ==> r[i].id in store && store[r[i].id] == r[i].rec
    ensures forall i, j :: 0 <= i < j < |r| ==> r[i].id < r[j].id
    ensures forall k :: k in store ==> Keyed(k, store[k]) in r
    decreases |store|
  {
    if |store| == 0 then []
    else
      var k := MinKey(store.Keys);
      var rest := store - {k};
      assert rest.Keys == store.Keys - {k};
      var tail := Entries(rest);
      EntriesCons(store, k, rest, tail);
      [Keyed(k, store[k])] + tail
  }

  lemma EntriesCons<T>(store: Store<T>, k: nat, rest: Store<T>, tail: seq<Keyed<T>>)
    requires k in store && forall j :: j in store ==> k <= j
    requires rest == store - {k}
    requires |tail| == |rest|
    requires forall i :: 0 <= i < |tail| ==> tail[i].id in rest && rest[tail[i].id] == tail[i].rec
    requires forall i, j :: 0 <= i < j < |tail| ==> tail[i].id < tail[j].id
    requires forall j :: j in rest ==> Keyed(j, rest[j]) in tail
    ensures var r := [Keyed(k, store[k])] + tail;
            && |r| == |store|
            && (forall i :: 0 <= i < |r| ==> r[i].id in store && store[r[i].id] == r[i].rec)
            && (forall i, j :: 0 <= i < j < |r| ==> r[i].id < r[j].id)
            && (forall j :: j in store ==> Keyed(j, store[j]) in r)
  {
    var r := [Keyed(k, store[k])] + tail;
    assert rest.Keys == store.Keys - {k};
    assert |store.Keys| == |rest.Keys| + 1;
    forall i | 0 <= i < |r|
      ensures r[i].id in store && store[r[i].id] == r[i].rec
    {
      if i > 0 { assert r[i] == tail[i - 1]; }
    }
    forall i, j | 0 <= i < j < |r|
      ensures r[i].id < r[j].id
    {
      assert r[j] == tail[j - 1];
      if i > 0 { assert r[i] == tail[i - 1]; }
    }
    forall j | j in store
      ensures Keyed(j, store[j]) in r
    {
      if j != k {
        assert j in rest;
        var i :| 0 <= i < |tail| && tail[i] == Keyed(j, rest[j]);
        assert r[i + 1] == tail[i];
      }
    }
  }
}
