/**
 * The favourites set of the catalogue pages: `toggleFavorite` copies the set
 * of product ids and then deletes the id if present, adds it otherwise
 * (AllProducts and ProductList do this identically).
 */
module Favorites {

  /** The set after toggling `id`: only `id` changes membership. */
  function Toggle(favorites: set<int>, id: int): (r: set<int>)
    ensures id in r <==> id !in favorites
    ensures forall x :: x != id ==> (x in r <==> x in favorites)
  {
    if id in favorites then favorites - {id} else favorites + {id}
  }

  /** Toggling the same id twice restores the original set. */
  lemma ToggleTwice(favorites: set<int>, id: int)
    ensures Toggle(Toggle(favorites, id), id) == favorites
  {
  }

  /** Toggles of different ids commute. */
  lemma ToggleCommutes(favorites: set<int>, a: int, b: int)
    ensures Toggle(Toggle(favorites, a), b) == Toggle(Toggle(favorites, b), a)
  {
  }
}
