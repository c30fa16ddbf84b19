/** Sets and dictionaries: a hashed map and a stored count that are written together. Keys are compared by
    the language's `=`, any equality that is an equivalence and agrees with the hash, with any collisions. */
module HashedCollections {

  type Obj = nat

  datatype Option<T> = None | Some(value: T)

  datatype Semantics = Semantics(eq: (Obj, Obj) -> bool, hash: Obj -> int)

  ghost predicate Lawful(s: Semantics) {
    && (forall a :: s.eq(a, a))
    && (forall a, b :: s.eq(a, b) ==> s.eq(b, a) && s.hash(a) == s.hash(b))
    && (forall a, b, c :: s.eq(a, b) && s.eq(b, c) ==> s.eq(a, c))
  }

  // ----- The hashed map: one slot per hash, a chain of entries in each -----

  datatype Entry = Entry(key: Obj, value: Obj)

  type Slots = map<int, seq<Entry>>

  /** The place of the entry whose key equals `k`, the length of the chain if there is none. */
  function Find(s: Semantics, chain: seq<Entry>, k: Obj): (i: nat)
    ensures i <= |chain| && (i < |chain| ==> s.eq(chain[i].key, k))
    ensures forall j :: 0 <= j < i ==> !s.eq(chain[j].key, k)
  {
    if chain == [] || s.eq(chain[0].key, k) then 0 else 1 + Find(s, chain[1..], k)
  }

  function Chain(m: Slots, h: int): seq<Entry> { if h in m then m[h] else [] }

  function HashedGet(s: Semantics, m: Slots, k: Obj): Option<Obj> {
    var chain := Chain(m, s.hash(k));
    var i := Find(s, chain, k);
    if i < |chain| then Some(chain[i].value) else None
  }

  /** Stores a value under the key already there, or under `k`. */
  function HashedPut(s: Semantics, m: Slots, k: Obj, v: Obj): Slots {
    var chain := Chain(m, s.hash(k));
    var i := Find(s, chain, k);
    m[s.hash(k) := if i < |chain| then chain[i := Entry(chain[i].key, v)] else chain + [Entry(k, v)]]
  }

  function HashedRemove(s: Semantics, m: Slots, k: Obj): Slots {
    var chain := Chain(m, s.hash(k));
    var i := Find(s, chain, k);
    if i < |chain| then m[s.hash(k) := chain[..i] + chain[i + 1..]] else m
  }

  /** Every entry is in the slot of its hash, and no two keys are equal. */
  ghost predicate Ordered(s: Semantics, m: Slots) {
    && (forall h, i | h in m && 0 <= i < |m[h]| :: s.hash(m[h][i].key) == h)
    && (forall h, i, j | h in m && 0 <= i < j < |m[h]| :: !s.eq(m[h][i].key, m[h][j].key))
  }

  function Keys(m: Slots): set<Obj> { set h, i | h in m && 0 <= i < |m[h]| :: m[h][i].key }

  /** What the map stands for: its stored keys and their values. */
  ghost function View(s: Semantics, m: Slots): map<Obj, Obj> {
    map k | k in Keys(m) && HashedGet(s, m, k).Some? :: HashedGet(s, m, k).value
  }

  /** The stored key that equals `k`. */
  ghost predicate StoredAs(s: Semantics, view: map<Obj, Obj>, k: Obj, stored: Obj) { stored in view && s.eq(stored, k) }

  ghost predicate Has(s: Semantics, view: map<Obj, Obj>, k: Obj) { exists t :: StoredAs(s, view, k, t) }

  // ----- The map over equivalence classes -----

  ghost predicate Distinct(s: Semantics, view: map<Obj, Obj>) { forall a, b | a in view && b in view && a != b :: !s.eq(a, b) }

  ghost function PutView(s: Semantics, view: map<Obj, Obj>, k: Obj, v: Obj): map<Obj, Obj> {
    if Has(s, view, k) then var t :| StoredAs(s, view, k, t); view[t := v] else view[k := v]
  }

  ghost function RemoveView(s: Semantics, view: map<Obj, Obj>, k: Obj): map<Obj, Obj> {
    map t | t in view && !s.eq(t, k) :: view[t]
  }

  /** A key is found where an equal one is. */
  lemma FindIs(s: Semantics, chain: seq<Entry>, k: Obj, i: nat)
    requires Lawful(s) && i < |chain| && s.eq(chain[i].key, k)
    requires forall a, b | 0 <= a < b < |chain| :: !s.eq(chain[a].key, chain[b].key)
    ensures Find(s, chain, k) == i
  {
    var f := Find(s, chain, k);
    assert s.eq(k, chain[i].key);
    assert s.eq(chain[f].key, chain[i].key);
  }

  lemma KeyAt(s: Semantics, m: Slots, h: int, i: nat)
    requires Lawful(s) && Ordered(s, m) && h in m && i < |m[h]|
    ensures var e := m[h][i]; e.key in View(s, m) && View(s, m)[e.key] == e.value && HashedGet(s, m, e.key) == Some(e.value)
  {
    var e := m[h][i];
    assert s.hash(e.key) == h && s.eq(e.key, e.key);
    FindIs(s, m[h], e.key, i);
    assert e.key in Keys(m);
  }

  lemma KeyPlace(s: Semantics, m: Slots, k: Obj) returns (h: int, i: nat)
    requires Lawful(s) && Ordered(s, m) && k in View(s, m)
    ensures h in m && i < |m[h]| && m[h][i] == Entry(k, View(s, m)[k]) && s.hash(k) == h
  {
    h, i :| h in m && 0 <= i < |m[h]| && m[h][i].key == k;
    KeyAt(s, m, h, i);
  }

  lemma ViewIsDistinct(s: Semantics, m: Slots)
    requires Lawful(s) && Ordered(s, m)
    ensures Distinct(s, View(s, m))
  {
    forall a, b | a in View(s, m) && b in View(s, m) && a != b ensures !s.eq(a, b) {
      var h, i := KeyPlace(s, m, a);
      var g, j := KeyPlace(s, m, b);
      assert s.eq(a, b) ==> s.eq(b, a);
      if h == g && i < j { assert !s.eq(m[h][i].key, m[h][j].key); }
      if h == g && j < i { assert !s.eq(m[h][j].key, m[h][i].key); }
    }
  }

  /** Looking a key up finds the value of the stored key that equals it. */
  lemma GetIsLookup(s: Semantics, m: Slots, k: Obj)
    requires Lawful(s) && Ordered(s, m)
    ensures var view := View(s, m);
      && (HashedGet(s, m, k).Some? <==> Has(s, view, k))
      && (forall t | StoredAs(s, view, k, t) :: HashedGet(s, m, k) == Some(view[t]))
  {
    var view := View(s, m);
    var chain := Chain(m, s.hash(k));
    var f := Find(s, chain, k);
    if f < |chain| {
      KeyAt(s, m, s.hash(k), f);
      assert StoredAs(s, view, k, chain[f].key);
    }
    forall t | StoredAs(s, view, k, t) ensures HashedGet(s, m, k) == Some(view[t]) {
      var h, i := KeyPlace(s, m, t);
      assert s.hash(k) == h && chain == m[h];
      FindIs(s, m[h], k, i);
    }
  }

  lemma PutOrdered(s: Semantics, m: Slots, k: Obj, v: Obj)
    requires Lawful(s) && Ordered(s, m)
    ensures Ordered(s, HashedPut(s, m, k, v))
  {
    var h := s.hash(k);
    var n: Slots := HashedPut(s, m, k, v);
    var chain := Chain(m, h);
    var f := Find(s, chain, k);
    forall g, i, j | g in n && 0 <= i < j < |n[g]| ensures !s.eq(n[g][i].key, n[g][j].key) {
      if g == h && f < |chain| { assert n[g][i].key == chain[i].key && n[g][j].key == chain[j].key; }
    }
  }

  lemma PutEntries(s: Semantics, m: Slots, k: Obj, v: Obj, h: int, i: nat)
    requires Lawful(s) && Ordered(s, m) && h in m && i < |m[h]|
    ensures var n := HashedPut(s, m, k, v); var e := m[h][i];
      h in n && i < |n[h]| && n[h][i] == if s.eq(e.key, k) then Entry(e.key, v) else e
  {
    var chain := Chain(m, s.hash(k));
    var f := Find(s, chain, k);
    var e := m[h][i];
    if s.eq(e.key, k) {
      assert h == s.hash(k);
      FindIs(s, chain, k, i);
    }
  }

  /** Storing changes the value of the stored key that equals the key offered, or adds the key offered. */
  lemma PutIsPut(s: Semantics, m: Slots, k: Obj, v: Obj)
    requires Lawful(s) && Ordered(s, m)
    ensures Ordered(s, HashedPut(s, m, k, v)) && View(s, HashedPut(s, m, k, v)) == PutView(s, View(s, m), k, v)
    ensures |View(s, HashedPut(s, m, k, v))| == |View(s, m)| + if HashedGet(s, m, k) == None then 1 else 0
  {
    PutOrdered(s, m, k, v);
    GetIsLookup(s, m, k);
    PutViewIs(s, m, k, v);
    SelfEqual(s, k);
    hide HashedPut, HashedGet, View, Ordered, Lawful;
    PutCounts(s, View(s, m), k, v);
  }

  lemma SelfEqual(s: Semantics, k: Obj)
    requires Lawful(s)
    ensures s.eq(k, k)
  {
  }

  lemma PutCounts(s: Semantics, view: map<Obj, Obj>, k: Obj, v: Obj)
    requires s.eq(k, k)
    ensures |PutView(s, view, k, v)| == |view| + if Has(s, view, k) then 0 else 1
  {
    var now := PutView(s, view, k, v);
    if Has(s, view, k) {
      assert now.Keys == view.Keys;
      SameSize(now, view);
    } else {
      assert k !in view by { assert k in view ==> StoredAs(s, view, k, k); }
      assert now.Keys == view.Keys + {k};
      OneMore(now, view, k);
    }
  }

  lemma SameSize(a: map<Obj, Obj>, b: map<Obj, Obj>)
    requires a.Keys == b.Keys
    ensures |a| == |b|
  {
    assert |a.Keys| == |a| && |b.Keys| == |b|;
  }

  lemma OneMore(a: map<Obj, Obj>, b: map<Obj, Obj>, k: Obj)
    requires k !in b && a.Keys == b.Keys + {k}
    ensures |a| == |b| + 1
  {
    assert |a.Keys| == |a| && |b.Keys| == |b|;
  }

  lemma PutViewIs(s: Semantics, m: Slots, k: Obj, v: Obj)
    requires Lawful(s) && Ordered(s, m) && Ordered(s, HashedPut(s, m, k, v))
    ensures View(s, HashedPut(s, m, k, v)) == PutView(s, View(s, m), k, v)
  {
    hide Ordered, HashedPut, View, Lawful;
    var n := HashedPut(s, m, k, v);
    var was, now, want := View(s, m), View(s, n), PutView(s, View(s, m), k, v);
    forall t | t in want ensures t in now && now[t] == want[t] { PutHas(s, m, k, v, t); }
    forall t | t in now ensures t in want { PutHasOnly(s, m, k, v, t); }
  }

  lemma PutHas(s: Semantics, m: Slots, k: Obj, v: Obj, t: Obj)
    requires Lawful(s) && Ordered(s, m) && Ordered(s, HashedPut(s, m, k, v)) && t in PutView(s, View(s, m), k, v)
    ensures var n := HashedPut(s, m, k, v); t in View(s, n) && View(s, n)[t] == PutView(s, View(s, m), k, v)[t]
  {
    hide HashedPut, View, Ordered, Lawful;
    if t in View(s, m) {
      PutKeeps(s, m, k, v, t);
      ViewIsDistinct(s, m);
      PutViewAt(s, View(s, m), k, v, t);
    } else {
      PutAdds(s, m, k, v, t);
    }
  }

  lemma PutKeeps(s: Semantics, m: Slots, k: Obj, v: Obj, t: Obj)
    requires Lawful(s) && Ordered(s, m) && Ordered(s, HashedPut(s, m, k, v)) && t in View(s, m)
    ensures var n := HashedPut(s, m, k, v);
      t in View(s, n) && View(s, n)[t] == if s.eq(t, k) then v else View(s, m)[t]
  {
    var n := HashedPut(s, m, k, v);
    var h, i := KeyPlace(s, m, t);
    PutEntries(s, m, k, v, h, i);
    KeyAt(s, n, h, i);
  }

  lemma PutViewAt(s: Semantics, view: map<Obj, Obj>, k: Obj, v: Obj, t: Obj)
    requires Lawful(s) && Distinct(s, view) && t in view
    ensures PutView(s, view, k, v)[t] == if s.eq(t, k) then v else view[t]
  {
    if s.eq(t, k) { assert StoredAs(s, view, k, t); }
    forall u | StoredAs(s, view, k, u) && s.eq(t, k) ensures u == t {
      assert s.eq(k, t);
      assert s.eq(u, t);
    }
    assert t == k ==> s.eq(t, k);
  }

  lemma PutAdds(s: Semantics, m: Slots, k: Obj, v: Obj, t: Obj)
    requires Lawful(s) && Ordered(s, m) && Ordered(s, HashedPut(s, m, k, v)) && t !in View(s, m) && t in PutView(s, View(s, m), k, v)
    ensures var n := HashedPut(s, m, k, v); t in View(s, n) && View(s, n)[t] == v == PutView(s, View(s, m), k, v)[t]
  {
    GetIsLookup(s, m, k);
    var n: Slots := HashedPut(s, m, k, v);
    var h := s.hash(k);
    assert n[h][|n[h]| - 1] == Entry(k, v);
    KeyAt(s, n, h, |n[h]| - 1);
  }

  lemma PutHasOnly(s: Semantics, m: Slots, k: Obj, v: Obj, t: Obj)
    requires Lawful(s) && Ordered(s, m) && Ordered(s, HashedPut(s, m, k, v)) && t in View(s, HashedPut(s, m, k, v))
    ensures t in PutView(s, View(s, m), k, v)
  {
    var n: Slots := HashedPut(s, m, k, v);
    var h, i := KeyPlace(s, n, t);
    hide View, PutView, Lawful, Ordered;
    if h in m && i < |m[h]| {
      PutEntries(s, m, k, v, h, i);
      KeyAt(s, m, h, i);
    } else {
      GetIsLookup(s, m, k);
      assert t == k && HashedGet(s, m, k) == None;
    }
    hide HashedPut, HashedGet;
    PutViewHas(s, View(s, m), k, v, t);
  }

  lemma PutViewHas(s: Semantics, view: map<Obj, Obj>, k: Obj, v: Obj, t: Obj)
    requires t in view || (t == k && !Has(s, view, k))
    ensures t in PutView(s, view, k, v)
  {
  }

  lemma RemoveOrdered(s: Semantics, m: Slots, k: Obj)
    requires Lawful(s) && Ordered(s, m)
    ensures Ordered(s, HashedRemove(s, m, k))
  {
    var h := s.hash(k);
    var n: Slots := HashedRemove(s, m, k);
    var f := Find(s, Chain(m, h), k);
    forall g, i, j | g in n && 0 <= i < j < |n[g]| ensures !s.eq(n[g][i].key, n[g][j].key) {
      if g == h && n != m {
        var a, b := if i < f then i else i + 1, if j < f then j else j + 1;
        assert n[g][i] == m[g][a] && n[g][j] == m[g][b] && !s.eq(m[g][a].key, m[g][b].key);
      }
    }
    forall g, i | g in n && 0 <= i < |n[g]| ensures s.hash(n[g][i].key) == g {
      if g == h && n != m { assert n[g][i] == m[g][if i < f then i else i + 1]; }
    }
  }

  /** Removing takes away the entry of the stored key that equals the key offered, and no other. */
  lemma RemoveIsRemove(s: Semantics, m: Slots, k: Obj)
    requires Lawful(s) && Ordered(s, m)
    ensures Ordered(s, HashedRemove(s, m, k)) && View(s, HashedRemove(s, m, k)) == RemoveView(s, View(s, m), k)
    ensures |View(s, HashedRemove(s, m, k))| == |View(s, m)| - if HashedGet(s, m, k) == None then 0 else 1
  {
    RemoveOrdered(s, m, k);
    GetIsLookup(s, m, k);
    ViewIsDistinct(s, m);
    hide HashedRemove, HashedGet, View, Ordered, Lawful, RemoveView;
    RemoveViewIs(s, m, k);
    RemoveCounts(s, View(s, m), k);
  }

  lemma RemoveViewIs(s: Semantics, m: Slots, k: Obj)
    requires Lawful(s) && Ordered(s, m) && Ordered(s, HashedRemove(s, m, k))
    ensures View(s, HashedRemove(s, m, k)) == RemoveView(s, View(s, m), k)
  {
    hide HashedRemove, HashedGet, View, Ordered, Lawful;
    var now, want := View(s, HashedRemove(s, m, k)), RemoveView(s, View(s, m), k);
    forall t | t in want ensures t in now && now[t] == want[t] { RemoveLeaves(s, m, k, t); }
    forall t | t in now ensures t in want { RemoveLeavesOnly(s, m, k, t); }
  }

  lemma RemoveCounts(s: Semantics, view: map<Obj, Obj>, k: Obj)
    requires Lawful(s) && Distinct(s, view)
    ensures |RemoveView(s, view, k)| == |view| - if Has(s, view, k) then 1 else 0
  {
    var now := RemoveView(s, view, k);
    if Has(s, view, k) {
      var t :| StoredAs(s, view, k, t);
      forall u | u in view && u != t ensures !s.eq(u, k) { assert s.eq(k, t) && !s.eq(u, t); }
      assert now.Keys + {t} == view.Keys;
      OneMore(view, now, t);
    } else {
      forall u | u in view ensures !s.eq(u, k) { assert s.eq(u, k) ==> StoredAs(s, view, k, u); }
      assert now.Keys == view.Keys;
      SameSize(now, view);
    }
  }

  /** Where an entry whose key is not the one removed is afterwards. */
  lemma EntryStays(s: Semantics, m: Slots, k: Obj, h: int, i: nat) returns (j: nat)
    requires Lawful(s) && Ordered(s, m) && h in m && i < |m[h]| && !s.eq(m[h][i].key, k)
    ensures var n := HashedRemove(s, m, k); h in n && j < |n[h]| && n[h][j] == m[h][i]
  {
    var f := Find(s, Chain(m, s.hash(k)), k);
    j := if h == s.hash(k) && f < |m[h]| && i > f then i - 1 else i;
  }

  /** Where an entry left over was before, and that its key is not the one removed. */
  lemma EntryWas(s: Semantics, m: Slots, k: Obj, h: int, i: nat) returns (j: nat)
    requires Lawful(s) && Ordered(s, m)
    requires var n := HashedRemove(s, m, k); h in n && i < |n[h]|
    ensures h in m && j < |m[h]| && HashedRemove(s, m, k)[h][i] == m[h][j] && !s.eq(m[h][j].key, k)
  {
    var chain := Chain(m, s.hash(k));
    var f := Find(s, chain, k);
    j := if h == s.hash(k) && f < |chain| && i >= f then i + 1 else i;
    if h == s.hash(k) && h in m && j < |chain| && s.eq(chain[j].key, k) { FindIs(s, chain, k, j); }
  }

  lemma RemoveLeaves(s: Semantics, m: Slots, k: Obj, t: Obj)
    requires Lawful(s) && Ordered(s, m) && Ordered(s, HashedRemove(s, m, k)) && t in View(s, m) && !s.eq(t, k)
    ensures var n: Slots := HashedRemove(s, m, k); t in View(s, n) && View(s, n)[t] == View(s, m)[t]
  {
    hide *;
    var h, i := KeyPlace(s, m, t);
    var j := EntryStays(s, m, k, h, i);
    KeyAt(s, HashedRemove(s, m, k), h, j);
  }

  lemma RemoveLeavesOnly(s: Semantics, m: Slots, k: Obj, t: Obj)
    requires Lawful(s) && Ordered(s, m) && Ordered(s, HashedRemove(s, m, k)) && t in View(s, HashedRemove(s, m, k))
    ensures t in View(s, m) && !s.eq(t, k)
  {
    hide *;
    var h, i := KeyPlace(s, HashedRemove(s, m, k), t);
    var j := EntryWas(s, m, k, h, i);
    KeyAt(s, m, h, j);
  }

  // ----- What a lookup answers -----

  lemma Equals(s: Semantics, a: Obj, b: Obj, c: Obj)
    requires Lawful(s)
    ensures (s.eq(a, b) <==> s.eq(b, a)) && (s.eq(a, b) && s.eq(b, c) ==> s.eq(a, c)) && (s.eq(b, a) && s.eq(b, c) ==> s.eq(a, c))
  {
  }

  /** The value stored under the key that equals `k`. */
  ghost function LookUp(s: Semantics, view: map<Obj, Obj>, k: Obj): Option<Obj> {
    if Has(s, view, k) then var t :| StoredAs(s, view, k, t); Some(view[t]) else None
  }

  lemma LookUpIs(s: Semantics, view: map<Obj, Obj>, k: Obj, t: Obj)
    requires Lawful(s) && Distinct(s, view) && StoredAs(s, view, k, t)
    ensures LookUp(s, view, k) == Some(view[t])
  {
    var u :| StoredAs(s, view, k, u) && LookUp(s, view, k) == Some(view[u]);
    Equals(s, t, k, u);
    Equals(s, u, k, t);
  }

  /** After a store the keys equal to the one offered find the value stored, all others what they found before. */
  lemma PutLookUp(s: Semantics, view: map<Obj, Obj>, k: Obj, v: Obj, j: Obj)
    requires Lawful(s) && Distinct(s, view)
    ensures Distinct(s, PutView(s, view, k, v))
    ensures LookUp(s, PutView(s, view, k, v), j) == if s.eq(j, k) then Some(v) else LookUp(s, view, j)
    ensures PutView(s, view, k, v).Keys == if LookUp(s, view, k).Some? then view.Keys else view.Keys + {k}
  {
    var now := PutView(s, view, k, v);
    PutDistinct(s, view, k, v);
    var t := PutPlace(s, view, k, v);
    if s.eq(j, k) {
      assert s.eq(k, j) && s.eq(t, j);
      LookUpIs(s, now, j, t);
    } else if Has(s, view, j) {
      var u :| StoredAs(s, view, j, u);
      Equals(s, j, u, k);
      LookUpIs(s, view, j, u);
      assert StoredAs(s, now, j, u);
      LookUpIs(s, now, j, u);
    } else {
      forall u ensures !StoredAs(s, now, j, u) {
        if u in view { assert !StoredAs(s, view, j, u); }
        Equals(s, j, t, k);
      }
    }
  }

  lemma AddedBefore(s: Semantics, view: map<Obj, Obj>, e: Obj)
    ensures Has(s, view, e) <==> LookUp(s, view, e).Some?
  {
  }

  /** The key a store writes under. */
  lemma PutPlace(s: Semantics, view: map<Obj, Obj>, k: Obj, v: Obj) returns (t: Obj)
    requires Lawful(s) && Distinct(s, view)
    ensures s.eq(t, k) && PutView(s, view, k, v) == view[t := v] && (t in view || (t == k && !Has(s, view, k)))
  {
    if Has(s, view, k) {
      t :| StoredAs(s, view, k, t) && PutView(s, view, k, v) == view[t := v];
    } else {
      t := k;
    }
  }

  lemma PutDistinct(s: Semantics, view: map<Obj, Obj>, k: Obj, v: Obj)
    requires Lawful(s) && Distinct(s, view)
    ensures Distinct(s, PutView(s, view, k, v))
  {
    if !Has(s, view, k) {
      forall a | a in view ensures !s.eq(a, k) && !s.eq(k, a) {
        assert !StoredAs(s, view, k, a);
        assert s.eq(k, a) ==> s.eq(a, k);
      }
    }
  }

  /** After a removal the keys equal to the one offered find nothing, all others what they found before. */
  lemma RemoveLookUp(s: Semantics, view: map<Obj, Obj>, k: Obj, j: Obj)
    requires Lawful(s) && Distinct(s, view)
    ensures Distinct(s, RemoveView(s, view, k))
    ensures LookUp(s, RemoveView(s, view, k), j) == if s.eq(j, k) then None else LookUp(s, view, j)
  {
    var now := RemoveView(s, view, k);
    if s.eq(j, k) {
      forall u ensures !StoredAs(s, now, j, u) { assert s.eq(u, j) ==> s.eq(u, k); }
    } else if Has(s, view, j) {
      var u :| StoredAs(s, view, j, u);
      assert !s.eq(u, k) by { assert s.eq(j, u); }
      LookUpIs(s, view, j, u);
      assert StoredAs(s, now, j, u);
      LookUpIs(s, now, j, u);
    } else {
      forall u ensures !StoredAs(s, now, j, u) { assert !StoredAs(s, view, j, u); }
    }
  }

  // ----- The collections -----

  /** What user code does to a collection. The block of at:ifAbsentPut: may itself store. */
  datatype Action =
    | Add(element: Obj)
    | Remove(element: Obj)
    | AtPut(key: Obj, value: Obj)
    | RemoveKey(key: Obj)
    | AtIfAbsentPut(key: Obj, block: Actions, answer: Obj)

  datatype Actions = Nothing | Do(first: Action, rest: Actions)

  /** The same on the map over equivalence classes. */
  ghost function Done(s: Semantics, view: map<Obj, Obj>, a: Action): map<Obj, Obj>
    decreases a
  {
    match a
    case Add(e) => if Has(s, view, e) then view else PutView(s, view, e, e)
    case Remove(e) => RemoveView(s, view, e)
    case AtPut(k, v) => PutView(s, view, k, v)
    case RemoveKey(k) => RemoveView(s, view, k)
    case AtIfAbsentPut(k, block, v) => if Has(s, view, k) then view else PutView(s, AllDone(s, view, block), k, v)
  }

  ghost function AllDone(s: Semantics, view: map<Obj, Obj>, acts: Actions): map<Obj, Obj>
    decreases acts
  {
    match acts
    case Nothing => view
    case Do(a, rest) => AllDone(s, Done(s, view, a), rest)
  }

  class Hashed {
    const s: Semantics
    var data: Slots
    var size: int

    /** The stored count is the number of distinct keys. */
    ghost predicate Valid()
      reads this
    {
      Lawful(s) && Ordered(s, data) && size == |View(s, data)|
    }

    ghost function Contents(): map<Obj, Obj>
      reads this
    {
      View(s, data)
    }

    constructor (s: Semantics)
      requires Lawful(s)
      ensures Valid() && this.s == s && Contents() == map[]
    {
      this.s := s;
      data, size := map[], 0;
    }

    /** The one place both are written. */
    method SetHashedData(updated: Slots, count: int)
      modifies this
      ensures data == updated && size == count
    {
      data, size := updated, count;
    }

    /** add: is a no-op when an equal element is there, and keeps that one. */
    method SetAdd(e: Obj)
      requires Valid()
      modifies this
      ensures Valid() && Contents() == Done(s, old(Contents()), Add(e))
      ensures forall j :: LookUp(s, Contents(), j) ==
                if s.eq(j, e) && LookUp(s, old(Contents()), e) == None then Some(e) else LookUp(s, old(Contents()), j)
      ensures Contents().Keys == old(Contents()).Keys + if LookUp(s, old(Contents()), e).Some? then {} else {e}
    {
      ghost var was := Contents();
      ViewIsDistinct(s, data);
      GetIsLookup(s, data, e);
      AddedBefore(s, was, e);
      hide HashedGet, HashedPut, View, Ordered, PutView, LookUp, Lawful;
      if HashedGet(s, data, e) == None {
        forall j { PutLookUp(s, was, e, e, j); }
        PutLookUp(s, was, e, e, e);
        PutIsPut(s, data, e, e);
        SetHashedData(HashedPut(s, data, e, e), size + 1);
      }
    }

    /** remove: answers false, and changes nothing, when there is no equal element: NotFound. */
    method SetRemove(e: Obj) returns (found: bool)
      requires Valid()
      modifies this
      ensures Valid() && found == Has(s, old(Contents()), e)
      ensures Contents() == Done(s, old(Contents()), Remove(e)) && (!found ==> Contents() == old(Contents()))
      ensures forall j :: LookUp(s, Contents(), j) == if s.eq(j, e) then None else LookUp(s, old(Contents()), j)
    {
      ghost var was := Contents();
      ViewIsDistinct(s, data);
      forall j { RemoveLookUp(s, was, e, j); }
      GetIsLookup(s, data, e);
      RemoveIsRemove(s, data, e);
      found := HashedGet(s, data, e).Some?;
      if found { SetHashedData(HashedRemove(s, data, e), size - 1); }
    }

    /** at: answers nothing for an absent key: KeyNotFound. */
    method DictAt(k: Obj) returns (v: Option<Obj>)
      requires Valid()
      ensures v == LookUp(s, Contents(), k)
    {
      GetIsLookup(s, data, k);
      v := HashedGet(s, data, k);
    }

    method Includes(e: Obj) returns (yes: bool)
      requires Valid()
      ensures yes == Has(s, Contents(), e)
    {
      GetIsLookup(s, data, e);
      yes := HashedGet(s, data, e).Some?;
    }

    method DictStore(k: Obj, v: Obj)
      requires Valid()
      modifies this
      ensures Valid() && Contents() == Done(s, old(Contents()), AtPut(k, v))
      ensures forall j :: LookUp(s, Contents(), j) == if s.eq(j, k) then Some(v) else LookUp(s, old(Contents()), j)
      ensures Contents().Keys == old(Contents()).Keys + if LookUp(s, old(Contents()), k).Some? then {} else {k}
    {
      hide HashedPut, HashedGet, View, Ordered, PutView, LookUp, Lawful;
      ghost var was := Contents();
      ViewIsDistinct(s, data);
      forall j { PutLookUp(s, was, k, v, j); }
      PutLookUp(s, was, k, v, k);
      var fresh' := HashedGet(s, data, k) == None;
      PutIsPut(s, data, k, v);
      SetHashedData(HashedPut(s, data, k, v), size + if fresh' then 1 else 0);
    }

    method DictRemove(k: Obj) returns (v: Option<Obj>)
      requires Valid()
      modifies this
      ensures Valid() && Contents() == Done(s, old(Contents()), RemoveKey(k))
      ensures v == LookUp(s, old(Contents()), k)
      ensures forall j :: LookUp(s, Contents(), j) == if s.eq(j, k) then None else LookUp(s, old(Contents()), j)
    {
      ghost var was := Contents();
      ViewIsDistinct(s, data);
      forall j { RemoveLookUp(s, was, k, j); }
      GetIsLookup(s, data, k);
      RemoveIsRemove(s, data, k);
      v := HashedGet(s, data, k);
      if v == None { return; }
      SetHashedData(HashedRemove(s, data, k), size - 1);
    }

    /** The map is read again after the block ran, which may have stored under the same key. */
    method DictAtIfAbsentPut(k: Obj, block: Actions, answer: Obj) returns (v: Obj)
      requires Valid()
      modifies this
      ensures Valid() && Contents() == Done(s, old(Contents()), AtIfAbsentPut(k, block, answer))
      ensures v == if LookUp(s, old(Contents()), k).Some? then LookUp(s, old(Contents()), k).value else answer
      ensures LookUp(s, Contents(), k) == Some(v)
      ensures forall j | !s.eq(j, k) && LookUp(s, old(Contents()), k) == None ::
                LookUp(s, Contents(), j) == LookUp(s, AllDone(s, old(Contents()), block), j)
      decreases block, 1
    {
      hide HashedGet, View, PutView, Ordered, Lawful;
      GetIsLookup(s, data, k);
      SelfEqual(s, k);
      var found := HashedGet(s, data, k);
      if found.Some? { return found.value; }
      PerformAll(block);
      DictStore(k, answer);
      v := answer;
    }

    method Perform(a: Action)
      requires Valid()
      modifies this
      ensures Valid() && Contents() == Done(s, old(Contents()), a)
      decreases a, 0
    {
      match a
      case Add(e) => SetAdd(e);
      case Remove(e) => var _ := SetRemove(e);
      case AtPut(k, v) => DictStore(k, v);
      case RemoveKey(k) => var _ := DictRemove(k);
      case AtIfAbsentPut(k, block, v) => var _ := DictAtIfAbsentPut(k, block, v);
    }

    /** Any sequence of operations keeps the count exact and does what it does on the abstract map. */
    method PerformAll(acts: Actions)
      requires Valid()
      modifies this
      ensures Valid() && Contents() == AllDone(s, old(Contents()), acts)
      decreases acts, 0
    {
      match acts
      case Nothing =>
      case Do(a, rest) =>
        Perform(a);
        PerformAll(rest);
    }

    /** The keys as a set, counted one by one with no presence probe. `order` is the order in which the
        entries come. */
    method DictKeys(order: seq<Obj>) returns (keys: Hashed)
      requires Valid() && Enumerates(order, Contents())
      ensures keys.Valid() && keys.s == s && fresh(keys)
      ensures keys.Contents() == (map k | k in Contents() :: k) && keys.size == size
    {
      hide View, Ordered, Lawful, HashedPut;
      ViewIsDistinct(s, data);
      keys := new Hashed(s);
      var updated: Slots, count := map[], 0;
      EmptyView(s);
      for i := 0 to |order|
        invariant Ordered(s, updated) && count == i == |View(s, updated)| && unchanged(this)
        invariant View(s, updated) == Identity(order[..i])
      {
        KeyIsNew(s, Contents(), order, i, updated);
        updated := HashedPut(s, updated, order[i], order[i]);
        count := count + 1;
      }
      assert order[..|order|] == order;
      keys.SetHashedData(updated, count);
      assert Identity(order) == (map k | k in Contents() :: k);
      SameSize(keys.Contents(), Contents());
    }
  }

  lemma EmptyView(s: Semantics)
    ensures Ordered(s, map[]) && View(s, map[]) == map[]
  {
  }

  /** The keys of a map, each once. */
  ghost predicate Enumerates(order: seq<Obj>, view: map<Obj, Obj>) {
    && (forall k :: k in order <==> k in view)
    && (forall i, j :: 0 <= i < j < |order| ==> order[i] != order[j])
  }

  function Identity(keys: seq<Obj>): map<Obj, Obj> { map k | k in keys :: k }

  lemma PutNew(s: Semantics, keys: seq<Obj>, k: Obj, m: Slots)
    requires Lawful(s) && Ordered(s, m) && View(s, m) == Identity(keys) && !Has(s, Identity(keys), k)
    ensures Ordered(s, HashedPut(s, m, k, k)) && View(s, HashedPut(s, m, k, k)) == Identity(keys + [k])
    ensures |View(s, HashedPut(s, m, k, k))| == |View(s, m)| + 1
  {
    hide *;
    GetIsLookup(s, m, k);
    PutIsPut(s, m, k, k);
    IdentityGrows(s, keys, k);
  }

  /** No presence probe is needed: the next key of a dictionary equals none of those before it. */
  lemma KeyIsNew(s: Semantics, view: map<Obj, Obj>, order: seq<Obj>, i: nat, m: Slots)
    requires Lawful(s) && Distinct(s, view) && i < |order| && Enumerates(order, view)
    requires Ordered(s, m) && View(s, m) == Identity(order[..i])
    ensures Ordered(s, HashedPut(s, m, order[i], order[i]))
    ensures View(s, HashedPut(s, m, order[i], order[i])) == Identity(order[..i + 1])
    ensures |View(s, HashedPut(s, m, order[i], order[i]))| == |View(s, m)| + 1
  {
    hide *;
    NoneEqual(s, view, order, i);
    PutNew(s, order[..i], order[i], m);
    assert order[..i + 1] == order[..i] + [order[i]];
  }

  lemma NoneEqual(s: Semantics, view: map<Obj, Obj>, order: seq<Obj>, i: nat)
    requires Distinct(s, view) && i < |order| && Enumerates(order, view)
    ensures !Has(s, Identity(order[..i]), order[i])
  {
    assert order[i] in order;
    forall t | t in order[..i] ensures !s.eq(t, order[i]) { assert t in order && t != order[i]; }
  }

  lemma IdentityGrows(s: Semantics, keys: seq<Obj>, k: Obj)
    requires !Has(s, Identity(keys), k)
    ensures PutView(s, Identity(keys), k, k) == Identity(keys + [k])
  {
  }
}
