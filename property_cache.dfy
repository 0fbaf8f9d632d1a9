/** The client-side cache of the contract's listings kept by App.js: the
    property record, the pure `setProperties` / `setUserProperties`
    updaters (find-by-id, upsert, replace, remove) and the two views. */
module PropertyCache {
  import opened Wrappers

  /** The ten values `getProperty(id)` returns, in order (App.js:167-180). */
  datatype PropertyTuple = PropertyTuple(
    name: string, location: string, description: string, imageUrl: string,
    price: string, size: string, bedrooms: string, bathrooms: string,
    owner: string, isForSale: bool)

  /** A `getProperty(id)` reply together with the `isOwner(id)` reply for
      the selected account. */
  datatype Fetched = Fetched(property: PropertyTuple, isOwner: bool)

  /** `formattedProperty`: one cached entry. */
  datatype Property = Property(
    id: int, name: string, location: string, description: string, imageUrl: string,
    price: string, size: string, bedrooms: string, bathrooms: string,
    owner: string, isForSale: bool, isCurrentUserOwner: bool)

  /** Builds `formattedProperty` from the chain's replies. */
  function Format(id: int, f: Fetched): (p: Property)
    ensures p.id == id && p.isForSale == f.property.isForSale && p.isCurrentUserOwner == f.isOwner
    ensures p.owner == f.property.owner && p.name == f.property.name
  {
    var t := f.property;
    Property(id, t.name, t.location, t.description, t.imageUrl, t.price,
             t.size, t.bedrooms, t.bathrooms, t.owner, t.isForSale, f.isOwner)
  }

  /** Some entry carries `id`. */
  predicate HasId(ps: seq<Property>, id: int)
  {
    exists i :: 0 <= i < |ps| && ps[i].id == id
  }

  /** `i` is the first index of an entry carrying `id`. */
  predicate IsFirstWithId(ps: seq<Property>, id: int, i: int)
  {
    0 <= i < |ps| && ps[i].id == id && forall j :: 0 <= j < i ==> ps[j].id != id
  }

  /** No two entries share an id. */
  predicate UniqueIds(ps: seq<Property>)
  {
    forall i, j :: 0 <= i < j < |ps| ==> ps[i].id != ps[j].id
  }

  /** `ps.findIndex(p => p.id === id)`: the first matching index, or -1. */
  function FindIndex(ps: seq<Property>, id: int): (r: int)
    ensures -1 <= r < |ps|
    ensures r >= 0 ==> IsFirstWithId(ps, id, r)
    ensures r == -1 <==> !HasId(ps, id)
  {
    if |ps| == 0 then -1
    else if ps[0].id == id then 0
    else
      var k := FindIndex(ps[1..], id);
      if k < 0 then -1 else k + 1
  }

  /** The PropertyListed updater (App.js:183-194, 198-207): overwrite the
      first entry with the property's id, or append the property. */
  function Upsert(ps: seq<Property>, p: Property): (r: seq<Property>)
    ensures !HasId(ps, p.id) ==> r == ps + [p]
    ensures forall i :: IsFirstWithId(ps, p.id, i) ==> r == ps[i := p]
  {
    var i := FindIndex(ps, p.id);
    if i >= 0 then ps[i := p] else ps + [p]
  }

  /** `ps.map(q => q.id === id ? p : q)` (App.js:265-269, 333-345). */
  function ReplaceById(ps: seq<Property>, id: int, p: Property): (r: seq<Property>)
    ensures |r| == |ps|
    ensures forall i :: 0 <= i < |ps| && ps[i].id == id ==> r[i] == p
    ensures forall i :: 0 <= i < |ps| && ps[i].id != id ==> r[i] == ps[i]
  {
    if ps == [] then []
    else [if ps[0].id == id then p else ps[0]] + ReplaceById(ps[1..], id, p)
  }

  /** `ps.filter(q => q.id !== id)` (App.js:285). */
  function RemoveById(ps: seq<Property>, id: int): (r: seq<Property>)
    ensures |r| <= |ps|
    ensures !HasId(r, id)
    ensures forall q :: q in r <==> q in ps && q.id != id
    ensures IsSubsequence(r, ps)
  {
    if ps == [] then []
    else if ps[0].id == id then RemoveById(ps[1..], id)
    else [ps[0]] + RemoveById(ps[1..], id)
  }

  /** `a` is `b` with some entries dropped, order kept. */
  predicate IsSubsequence<T(==)>(a: seq<T>, b: seq<T>)
    decreases |b|
  {
    a == [] || (b != [] && if a[0] == b[0] then IsSubsequence(a[1..], b[1..]) else IsSubsequence(a, b[1..]))
  }

  /** The predicate `q => q.id !== id`. */
  function IdIsNot(id: int): Property -> bool
  {
    (q: Property) => q.id != id
  }

  /** `s.filter(keep)`. */
  function Filter(s: seq<Property>, keep: Property -> bool): (r: seq<Property>)
    ensures |r| <= |s|
    ensures forall x :: x in r <==> x in s && keep(x)
    ensures IsSubsequence(r, s)
  {
    if s == [] then []
    else if keep(s[0]) then [s[0]] + Filter(s[1..], keep)
    else Filter(s[1..], keep)
  }

  /** The Marketplace tab (App.js:853-855). */
  function MarketplaceView(ps: seq<Property>): (r: seq<Property>)
    ensures forall q :: q in r <==> q in ps && q.isForSale && !q.isCurrentUserOwner
    ensures IsSubsequence(r, ps)
  {
    Filter(ps, (q: Property) => q.isForSale && !q.isCurrentUserOwner)
  }

  /** The My Properties tab (App.js:888-890). It filters `properties`, not
      `userProperties`. */
  function MyPropertiesView(ps: seq<Property>): (r: seq<Property>)
    ensures forall q :: q in r <==> q in ps && q.isCurrentUserOwner
    ensures IsSubsequence(r, ps)
  {
    Filter(ps, (q: Property) => q.isCurrentUserOwner)
  }

  // ---- Properties of the updaters ----

  /** Delivering the same PropertyListed event twice leaves the list as one
      delivery does. */
  lemma {:induction false} UpsertIdempotent(ps: seq<Property>, p: Property)
    ensures Upsert(Upsert(ps, p), p) == Upsert(ps, p)
  {
    var r := Upsert(ps, p);
    var i := FindIndex(ps, p.id);
    if i >= 0 {
      assert r == ps[i := p];
      assert IsFirstWithId(r, p.id, i);
      assert r[i := p] == r;
    } else {
      assert r == ps + [p];
      assert IsFirstWithId(r, p.id, |ps|);
      assert r[|ps| := p] == r;
    }
  }

  /** An upsert grows the list by one exactly when the id was absent, and
      the result always holds the property. */
  lemma {:induction false} UpsertShape(ps: seq<Property>, p: Property)
    ensures |Upsert(ps, p)| == if HasId(ps, p.id) then |ps| else |ps| + 1
    ensures p in Upsert(ps, p)
  {
    var i := FindIndex(ps, p.id);
    if i >= 0 {
      assert Upsert(ps, p)[i] == p;
    } else {
      assert Upsert(ps, p)[|ps|] == p;
    }
  }

  /** An upsert keeps ids unique. */
  lemma {:induction false} UpsertKeepsUniqueIds(ps: seq<Property>, p: Property)
    requires UniqueIds(ps)
    ensures UniqueIds(Upsert(ps, p))
  {
    var i := FindIndex(ps, p.id);
    if i >= 0 {
      assert Upsert(ps, p) == ps[i := p];
    } else {
      assert Upsert(ps, p) == ps + [p];
    }
  }

  /** On a list without duplicate ids, upsert-by-id of a present id is the
      same as replace-by-id. */
  lemma {:induction false} UpsertIsReplaceWhenUnique(ps: seq<Property>, p: Property)
    requires UniqueIds(ps) && HasId(ps, p.id)
    ensures Upsert(ps, p) == ReplaceById(ps, p.id, p)
  {
    var i := FindIndex(ps, p.id);
    var r := Upsert(ps, p);
    var q := ReplaceById(ps, p.id, p);
    assert r == ps[i := p];
    forall j | 0 <= j < |ps| ensures r[j] == q[j] {
      if j != i {
        assert ps[j].id != p.id;
      }
    }
  }

  /** Replacing an id that no entry carries changes nothing. */
  lemma {:induction false} ReplaceAbsentIsIdentity(ps: seq<Property>, id: int, p: Property)
    requires !HasId(ps, id)
    ensures ReplaceById(ps, id, p) == ps
  {
    var r := ReplaceById(ps, id, p);
    forall j | 0 <= j < |ps| ensures r[j] == ps[j] {
      assert ps[j].id != id;
    }
  }

  /** Replacing by the property's own id keeps every entry's id, hence
      keeps ids unique. */
  lemma ReplaceKeepsIds(ps: seq<Property>, p: Property)
    ensures forall i :: 0 <= i < |ps| ==> ReplaceById(ps, p.id, p)[i].id == ps[i].id
    ensures UniqueIds(ps) ==> UniqueIds(ReplaceById(ps, p.id, p))
  {
  }

  /** Repeating a replace-by-id changes nothing. */
  lemma ReplaceIdempotent(ps: seq<Property>, p: Property)
    ensures ReplaceById(ReplaceById(ps, p.id, p), p.id, p) == ReplaceById(ps, p.id, p)
  {
    var r := ReplaceById(ps, p.id, p);
    var rr := ReplaceById(r, p.id, p);
    forall i | 0 <= i < |ps| ensures rr[i] == r[i] {
      assert r[i].id == ps[i].id;
    }
  }

  /** Removing an id after upserting it is the same as removing it from the
      list as it was: an upsert touches nothing but that id. */
  lemma {:induction false} RemoveAfterUpsert(ps: seq<Property>, p: Property)
    ensures RemoveById(Upsert(ps, p), p.id) == RemoveById(ps, p.id)
  {
    var i := FindIndex(ps, p.id);
    if i >= 0 {
      RemoveUpdateMatching(ps, i, p);
    } else {
      RemoveAppend(ps, p);
    }
  }

  lemma {:induction false} RemoveUpdateMatching(ps: seq<Property>, i: int, p: Property)
    requires 0 <= i < |ps| && ps[i].id == p.id
    ensures RemoveById(ps[i := p], p.id) == RemoveById(ps, p.id)
  {
    if i > 0 {
      assert ps[i := p][1..] == ps[1..][i - 1 := p];
      RemoveUpdateMatching(ps[1..], i - 1, p);
    } else {
      assert ps[i := p][1..] == ps[1..];
    }
  }

  lemma {:induction false} RemoveAppend(ps: seq<Property>, p: Property)
    ensures RemoveById(ps + [p], p.id) == RemoveById(ps, p.id)
  {
    if ps == [] {
      assert ([] + [p])[1..] == [];
    } else {
      assert (ps + [p])[1..] == ps[1..] + [p];
      RemoveAppend(ps[1..], p);
    }
  }

  /** Removing an id that no entry has changes nothing. */
  lemma {:induction false} RemoveAbsent(ps: seq<Property>, id: int)
    requires !HasId(ps, id)
    ensures RemoveById(ps, id) == ps
  {
    if ps != [] {
      assert ps[0].id != id;
      assert !HasId(ps[1..], id) by {
        forall i | 0 <= i < |ps[1..]| ensures ps[1..][i].id != id {
          assert ps[1..][i] == ps[i + 1];
        }
      }
      RemoveAbsent(ps[1..], id);
      assert [ps[0]] + ps[1..] == ps;
    }
  }

  /** Delivering the same PropertySold event twice to an account that is
      not the new owner leaves `userProperties` as one delivery does. */
  lemma RemoveIdempotent(ps: seq<Property>, id: int)
    ensures RemoveById(RemoveById(ps, id), id) == RemoveById(ps, id)
  {
    RemoveAbsent(RemoveById(ps, id), id);
  }

  /** Removing entries keeps ids unique. */
  lemma {:induction false} RemoveKeepsUniqueIds(ps: seq<Property>, id: int)
    requires UniqueIds(ps)
    ensures UniqueIds(RemoveById(ps, id))
  {
    if ps != [] {
      RemoveKeepsUniqueIds(ps[1..], id);
      if ps[0].id != id {
        var rest := RemoveById(ps[1..], id);
        forall q | q in rest ensures q.id != ps[0].id {
          assert q in ps[1..];
        }
      }
    }
  }

  /** Appending an entry whose id is already present creates a duplicate:
      what `handleListProperty` does (App.js:514-515) with its own record
      `q` when the PropertyListed listener has already upserted its record
      `p` for the same id. */
  lemma ListedThenAppendedDuplicates(ps: seq<Property>, p: Property, q: Property)
    requires q.id == p.id
    ensures !UniqueIds(Upsert(ps, p) + [q])
  {
    UpsertShape(ps, p);
    var r := Upsert(ps, p);
    var i :| 0 <= i < |r| && r[i] == p;
    assert (r + [q])[i].id == (r + [q])[|r|].id;
  }

  /** In the other order, with both ids compared as integers, the
      listener's upsert finds the appended entry, so no duplicate arises
      from a fresh id. */
  lemma AppendedThenListedIsUnique(ps: seq<Property>, p: Property)
    requires UniqueIds(ps) && !HasId(ps, p.id)
    ensures Upsert(ps + [p], p) == ps + [p]
    ensures UniqueIds(ps + [p])
  {
    assert IsFirstWithId(ps + [p], p.id, |ps|);
    assert (ps + [p])[|ps| := p] == ps + [p];
  }

  /** A filter keeps every copy of a passing entry and no copy of any other. */
  lemma {:induction false} FilterKeepsCopies(s: seq<Property>, keep: Property -> bool, x: Property)
    ensures multiset(Filter(s, keep))[x] == if keep(x) then multiset(s)[x] else 0
  {
    if s != [] {
      FilterKeepsCopies(s[1..], keep, x);
      assert s == [s[0]] + s[1..];
    }
  }

  /** Removing an id is filtering by `q.id !== id`: every entry without the
      id stays, duplicates included, in order. */
  lemma {:induction false} RemoveIsFilter(ps: seq<Property>, id: int)
    ensures RemoveById(ps, id) == Filter(ps, IdIsNot(id))
  {
    if ps != [] {
      RemoveIsFilter(ps[1..], id);
    }
  }

  /** Removing an id keeps every copy of every entry with another id. */
  lemma RemoveKeepsOtherCopies(ps: seq<Property>, id: int, q: Property)
    requires q.id != id
    ensures multiset(RemoveById(ps, id))[q] == multiset(ps)[q]
  {
    RemoveIsFilter(ps, id);
    FilterKeepsCopies(ps, IdIsNot(id), q);
  }

  lemma {:induction false} FilterAppend(s: seq<Property>, p: Property, keep: Property -> bool)
    ensures Filter(s + [p], keep) == Filter(s, keep) + (if keep(p) then [p] else [])
  {
    if s == [] {
      assert [] + [p] == [p];
    } else {
      assert (s + [p])[1..] == s[1..] + [p];
      FilterAppend(s[1..], p, keep);
    }
  }

  /** Appending an entry extends the My Properties view by that entry
      exactly when the selected account owns it. */
  lemma MyPropertiesViewAppend(s: seq<Property>, p: Property)
    ensures MyPropertiesView(s + [p]) == MyPropertiesView(s) + (if p.isCurrentUserOwner then [p] else [])
  {
    FilterAppend(s, p, (q: Property) => q.isCurrentUserOwner);
  }

  /** No entry is shown on both tabs. */
  lemma ViewsDisjoint(ps: seq<Property>, q: Property)
    ensures !(q in MarketplaceView(ps) && q in MyPropertiesView(ps))
  {
  }
}
