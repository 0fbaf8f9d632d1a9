/** The `transactionsInProgress` table of App.js. Its keys are
    `list-<n>`, `buy-<id>`, `toggle-<id>` and `price-<id>`; the four
    prefixes are distinct, so a key is a kind and a number, and the table
    (whose values are always `true`) is the set of its keys. */
module Markers {

  datatype Marker = List(key: int) | Buy(id: int) | Toggle(id: int) | Price(id: int)

  /** `{...prev, [key]: true}` (App.js:467, 594, 655, 716). */
  function Mark(m: set<Marker>, k: Marker): (r: set<Marker>)
    ensures k in r && forall x :: x != k ==> (x in r <==> x in m)
  {
    m + {k}
  }

  /** `delete updated[key]` on a copy (App.js:520, 628, 692, 750): only the
      named key goes. */
  function Unmark(m: set<Marker>, k: Marker): (r: set<Marker>)
    ensures k !in r && forall x :: x != k ==> (x in r <==> x in m)
  {
    m - {k}
  }

  /** The PropertyListed listener's clearing step (App.js:211-215). */
  function ClearListed(m: set<Marker>, id: int): (r: set<Marker>)
    ensures forall x :: x in r <==> x in m && x != List(id)
  {
    Unmark(m, List(id))
  }

  /** The PropertySold listener's clearing step (App.js:290-294). */
  function ClearSold(m: set<Marker>, id: int): (r: set<Marker>)
    ensures forall x :: x in r <==> x in m && x != Buy(id)
  {
    Unmark(m, Buy(id))
  }

  /** `updatePropertyInUI`'s clearing step (App.js:349-354): both the toggle
      and the price marker of the property go, whichever was set. */
  function ClearRefreshed(m: set<Marker>, id: int): (r: set<Marker>)
    ensures forall x :: x in r <==> x in m && x != Toggle(id) && x != Price(id)
  {
    Unmark(Unmark(m, Toggle(id)), Price(id))
  }

  /** The listing failure path (App.js:533-541): walk the keys of a copy and
      delete every one that starts with `list-`. */
  method SweepListMarkers(m: set<Marker>) returns (r: set<Marker>)
    ensures forall x :: x in r <==> x in m && !x.List?
  {
    r := m;
    var keys := m;
    while keys != {}
      invariant keys <= m
      invariant forall x :: x in r <==> x in m && (x.List? ==> x in keys)
      decreases keys
    {
      var k :| k in keys;
      if k.List? {
        r := r - {k};
      }
      keys := keys - {k};
    }
  }

  /** A listing marker is keyed by a timestamp, not by the property id
      (App.js:466-467), so the listener's clearing step for property `id`
      leaves it in place unless the two numbers coincide. */
  lemma ListingMarkerOutlivesListedEvent(m: set<Marker>, stamp: int, id: int)
    requires List(stamp) in m && stamp != id
    ensures List(stamp) in ClearListed(m, id)
  {
  }

  /** Setting a marker that was not there and deleting it again restores
      the table: the success path of a listing, a purchase, a toggle or a
      price change leaves no trace once its marker is cleared. */
  lemma MarkThenUnmark(m: set<Marker>, k: Marker)
    requires k !in m
    ensures Unmark(Mark(m, k), k) == m
  {
  }

  /** The refresh after a toggle or a price change clears the marker that
      handler set and, with it, the other kind's marker for that property. */
  lemma RefreshClearsBothKinds(m: set<Marker>, id: int, k: Marker)
    requires k == Toggle(id) || k == Price(id)
    ensures ClearRefreshed(Mark(m, k), id) == m - {Toggle(id), Price(id)}
  {
  }
}
