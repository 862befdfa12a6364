/** The favorites store: the persisted list of favorite product uuids and the
    toggle performed by a click on a product's favorite button. */
module Favorites {
  import opened Sequences
  import opened Catalog
  import opened Filters

  /** `JSON.parse(localStorage.getItem('favoriteProducts')) || []`: a missing slot reads as `[]`. */
  function Load(stored: Option<seq<string>>): seq<string> {
    match stored
    case None => []
    case Some(ids) => ids
  }

  function Differs(uuid: string): string -> bool {
    v => v != uuid
  }

  /** The list written back after toggling `uuid`: every occurrence removed if it
      was present, otherwise `uuid` pushed at the end. */
  function Toggled(favorites: seq<string>, uuid: string): (r: seq<string>)
    ensures uuid in r <==> uuid !in favorites
    ensures forall v :: v != uuid ==> (v in r <==> v in favorites)
    ensures uuid in favorites ==> IsSubsequence(r, favorites)
    ensures uuid in favorites ==>
      forall v :: multiset(r)[v] == if v == uuid then 0 else multiset(favorites)[v]
    ensures uuid !in favorites ==> |r| == |favorites| + 1 && r[..|favorites|] == favorites
  {
    if uuid in favorites then
      FilterMultiset(Differs(uuid), favorites);
      FilterMembers(Differs(uuid), favorites);
      FilterIsSubsequence(Differs(uuid), favorites);
      Filter(Differs(uuid), favorites)
    else
      favorites + [uuid]
  }

  /** Two toggles restore every id's membership, and restore the list itself when the
      first toggle added `uuid`. */
  lemma ToggleTwice(favorites: seq<string>, uuid: string)
    ensures forall v :: v in Toggled(Toggled(favorites, uuid), uuid) <==> v in favorites
    ensures uuid !in favorites ==> Toggled(Toggled(favorites, uuid), uuid) == favorites
  {
    if uuid !in favorites {
      FilterAppend(Differs(uuid), favorites, [uuid]);
      FilterKeepsAll(Differs(uuid), favorites);
    }
  }

  /** After a toggle, the favorites filter keeps the toggled product exactly when it has
      just become a favorite, and treats every other product as before. */
  lemma FilterByFavoritesAfterToggle(products: seq<Product>, favorites: seq<string>, uuid: string)
    ensures forall p :: p in products && p.uuid == uuid ==>
      (p in FilterByFavorites(products, Toggled(favorites, uuid)) <==> uuid !in favorites)
    ensures forall p: Product :: p.uuid != uuid ==>
      (p in FilterByFavorites(products, Toggled(favorites, uuid)) <==> p in FilterByFavorites(products, favorites))
  {
  }

  /** The persisted favorites list, held in memory. */
  class FavoritesStore {
    var favorites: seq<string>

    constructor (stored: Option<seq<string>>)
      ensures favorites == Load(stored)
    {
      favorites := Load(stored);
    }

    predicate IsFavorite(uuid: string)
      reads this
    {
      uuid in favorites
    }

    /** The click on the favorite button of product `uuid`: reads the list, removes or
        pushes `uuid`, writes the list back and returns the button's new glyph. */
    method HandleFavoriteButtonClick(uuid: string) returns (glyph: string)
      modifies this
      ensures favorites == Toggled(old(favorites), uuid)
      ensures IsFavorite(uuid) <==> !old(IsFavorite(uuid))
      ensures glyph == if IsFavorite(uuid) then "★" else "☆"
    {
      var favoriteProducts := favorites;
      var isFavorite := uuid in favoriteProducts;
      if isFavorite {
        var updatedFavorites := Filter(Differs(uuid), favoriteProducts);
        favorites := updatedFavorites;
        glyph := "☆";
      } else {
        favoriteProducts := favoriteProducts + [uuid];
        favorites := favoriteProducts;
        glyph := "★";
      }
    }
  }
}
