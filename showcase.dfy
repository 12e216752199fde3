/**
 * The home page's product showcase (`ProductList`): a fixed catalogue of six
 * products, a category filter, favourites and the add-to-cart candidate.
 * Prices are whole cents (89.99 is 8999).
 */
module Showcase {
  import opened Wrappers
  import opened Seqs
  import CartApi
  import Favorites

  datatype Product = Product(
    id: int,
    name: string,
    category: string,
    price: int,
    rating: int,
    image: string,
    popular: bool)

  const AllCategory := "All"

  /** The filter buttons, in display order. */
  const Categories: seq<string> := [AllCategory, "Disney", "Superhero", "80s", "Birthday", "Games"]

  /** Number of stars drawn for a rating. */
  const StarCount := 5

  const Products: seq<Product> := [
    Product(1, "Disney Princess Castle Backdrop", "Disney", 8999, 5, "", true),
    Product(2, "Superhero Photo Booth Props", "Superhero", 4599, 5, "", true),
    Product(3, "Retro 80s Disco Ball Set", "80s", 6599, 4, "", false),
    Product(4, "Birthday Balloon Arch Kit", "Birthday", 7999, 5, "", true),
    Product(5, "Premium Table Decoration Set", "Birthday", 5599, 4, "", false),
    Product(6, "Party Games Activity Kit", "Games", 3999, 5, "", true)
  ]

  /** The ids are 1 to 6 in order, hence distinct. */
  lemma ProductIds()
    ensures |Products| == 6
    ensures forall i :: 0 <= i < |Products| ==> Products[i].id == i + 1
  {
  }

  /** Every product's category has a filter button, and none is the catch-all. */
  lemma ProductCategoriesListed()
    ensures forall p :: p in Products ==> p.category in Categories && p.category != AllCategory
  {
  }

  /** The products shown for the selected filter button. */
  function FilteredProducts(selected: string): (r: seq<Product>)
    ensures selected == AllCategory ==> r == Products
    ensures selected != AllCategory ==> IsSubsequence(r, Products)
    ensures selected != AllCategory ==> forall p :: p in r <==> p in Products && p.category == selected
  {
    if selected == AllCategory then Products
    else
      var keep := (p: Product) => p.category == selected;
      FilterFacts(Products, keep);
      Filter(Products, keep)
  }

  /** Every button other than "All" shows at least one product. */
  lemma EveryCategoryShowsSomething()
    ensures forall i :: 1 <= i < |Categories| ==> FilteredProducts(Categories[i]) != []
  {
    var shown := [0, 0, 1, 2, 3, 5];
    forall i | 1 <= i < |Categories|
      ensures FilteredProducts(Categories[i]) != []
    {
      var p := Products[shown[i]];
      assert p in Products && p.category == Categories[i];
      assert p in FilteredProducts(Categories[i]);
    }
  }

  /** The object handed to `addToCart`: the product's own id, name, price, image and category. */
  function CartCandidate(p: Product): (r: CartApi.Candidate)
    ensures r.id == p.id && r.name == p.name && r.price == Some(p.price)
    ensures r.image == p.image && r.category == p.category && r.descricao == None
  {
    CartApi.Candidate(p.id, p.name, None, Some(p.price), p.image, p.category)
  }

  // ---------------------------------------------------------------------------
  // rating stars

  /** The five stars of a rating: star `index` is filled when `index < rating`. */
  function Stars(rating: int): (r: seq<bool>)
    ensures |r| == StarCount
    ensures forall i :: 0 <= i < StarCount ==> (r[i] <==> i < rating)
  {
    seq(StarCount, index => index < rating)
  }

  function CountFilled(stars: seq<bool>): nat {
    if stars == [] then 0
    else CountFilled(stars[..|stars| - 1]) + (if stars[|stars| - 1] then 1 else 0)
  }

  /** Of the first `n` stars, as many are filled as the rating allows, clamped to `0..n`. */
  lemma {:induction false} FilledPrefix(n: nat, rating: int)
    ensures CountFilled(seq(n, index => index < rating)) ==
      if rating <= 0 then 0 else if rating >= n then n else rating
  {
    if n > 0 {
      var s := seq(n, index => index < rating);
      assert s[..n - 1] == seq(n - 1, index => index < rating);
      FilledPrefix(n - 1, rating);
    }
  }

  /** For a rating between 0 and 5, exactly that many stars are filled. */
  lemma FilledStars(rating: int)
    requires 0 <= rating <= StarCount
    ensures CountFilled(Stars(rating)) == rating
  {
    FilledPrefix(StarCount, rating);
  }

  // ---------------------------------------------------------------------------
  // the section's state

  class ShowcasePage {
    var selectedCategory: string
    var favorites: set<int>

    constructor ()
      ensures selectedCategory == AllCategory && favorites == {}
    {
      selectedCategory := AllCategory;
      favorites := {};
    }

    /** A press on a filter button. */
    method SelectCategory(category: string)
      modifies this`selectedCategory
      ensures selectedCategory == category
    {
      selectedCategory := category;
    }

    /** `toggleFavorite`: copies the set, then deletes or adds the id. */
    method ToggleFavorite(id: int)
      modifies this`favorites
      ensures favorites == Favorites.Toggle(old(favorites), id)
    {
      var next := favorites;
      if id in next {
        next := next - {id};
      } else {
        next := next + {id};
      }
      favorites := next;
    }

    /** The grid's contents for the current selection. */
    function Visible(): (r: seq<Product>)
      reads this
      ensures IsSubsequence(r, Products)
      ensures selectedCategory == AllCategory ==> r == Products
      ensures selectedCategory != AllCategory ==> forall p :: p in r <==> p in Products && p.category == selectedCategory
    {
      assert IsSubsequence(Products, Products) by {
        FilterKeepsAll(Products, (p: Product) => true);
        FilterIsSubsequence(Products, (p: Product) => true);
      }
      FilteredProducts(selectedCategory)
    }
  }
}
