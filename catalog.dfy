/**
 * The full catalogue page (`AllProducts`): records fetched from the API are
 * normalised into products, the sidebar lists their distinct categories in
 * sorted order, and the grid shows the products that match the selected
 * category and the name search.
 */
module Catalog {
  import opened Wrappers
  import opened Text
  import opened Seqs
  import opened Fields
  import Favorites
  import CartApi

  /** A product record as the API returns it. */
  datatype ApiProduct = ApiProduct(
    id: int,
    nome: string,
    descricao: Option<string>,
    imagem_url: string,
    tags: TagsField)

  /** A product as the page keeps it. */
  datatype Product = Product(
    id: int,
    nome: string,
    descricao: string,
    imagem_url: string,
    tags: seq<string>,
    category: string,
    popular: bool)

  const NoDescription: string := "Este item não possui descrição."
  const FallbackCategory: string := "Outros"

  // ---------------------------------------------------------------------------
  // Normalising API records

  /**
   * The tag list of a record: a list is kept exactly as delivered, a string
   * becomes its comma-separated pieces, each trimmed, and anything else gives
   * no tags. Trimmed pieces have no white space at their ends and no comma,
   * and there is one more piece than there are commas.
   */
  function NormalizeTags(tags: TagsField): (r: seq<string>)
    ensures tags.TagList? ==> r == tags.list
    ensures tags.TagAbsent? ==> r == []
    ensures tags.TagText? ==> |r| == CountChar(tags.text, ',') + 1
    ensures tags.TagText? ==> forall i :: 0 <= i < |r| ==> ',' !in r[i] && Trim(r[i]) == r[i]
  {
    match tags
    case TagList(list) => list
    case TagAbsent => []
    case TagText(text) =>
      var pieces := Split(text, ',');
      SplitCount(text, ',');
      var r := seq(|pieces|, i requires 0 <= i < |pieces| => Trim(pieces[i]));
      assert forall i :: 0 <= i < |r| ==> ',' !in r[i] && Trim(r[i]) == r[i] by {
        forall i | 0 <= i < |r| ensures ',' !in r[i] && Trim(r[i]) == r[i] {
          TrimmedPiece(pieces[i]);
        }
      }
      r
  }

  /** The trim of a comma-free piece is comma-free and its own trim. */
  lemma TrimmedPiece(piece: string)
    requires ',' !in piece
    ensures ',' !in Trim(piece) && Trim(Trim(piece)) == Trim(piece)
  {
    TrimSlice(piece);
    TrimIdempotent(piece);
    assert Trim(piece) == piece[LeadingSpaces(piece)..LeadingSpaces(piece) + |Trim(piece)|];
  }

  /** The number of occurrences of `c` in `s`. */
  function CountChar(s: string, c: char): nat {
    if s == [] then 0 else (if s[0] == c then 1 else 0) + CountChar(s[1..], c)
  }

  lemma {:induction false} SplitCount(s: string, sep: char)
    ensures |Split(s, sep)| == CountChar(s, sep) + 1
  {
    if s != [] {
      SplitCount(s[1..], sep);
    }
  }

  /** A tag string without white space is exactly the comma-join of its tags. */
  lemma TagTextRoundTrip(text: string)
    requires forall k :: 0 <= k < |text| ==> !IsSpace(text[k])
    ensures Join(NormalizeTags(TagText(text)), ',') == text
  {
    var pieces := Split(text, ',');
    JoinSplit(text, ',');
    PiecesHaveNoSpace(text, ',');
    forall i | 0 <= i < |pieces| ensures Trim(pieces[i]) == pieces[i] {
      TrimNoSpaceEnds(pieces[i]);
    }
    assert NormalizeTags(TagText(text)) == pieces;
  }

  /**
   * A tag string written as comma-separated segments normalises to those
   * segments, each trimmed, in order. Every string is such a join (of its own
   * split), so this fixes every piece of every tag string.
   */
  lemma TagTextPieces(segments: seq<string>)
    requires |segments| >= 1
    requires forall i :: 0 <= i < |segments| ==> ',' !in segments[i]
    ensures NormalizeTags(TagText(Join(segments, ','))) == seq(|segments|, i requires 0 <= i < |segments| => Trim(segments[i]))
  {
    SplitJoin(segments, ',');
  }

  lemma {:induction false} PiecesHaveNoSpace(s: string, sep: char)
    requires forall k :: 0 <= k < |s| ==> !IsSpace(s[k])
    ensures forall i, k :: 0 <= i < |Split(s, sep)| && 0 <= k < |Split(s, sep)[i]| ==> !IsSpace(Split(s, sep)[i][k])
  {
    if s != [] {
      PiecesHaveNoSpace(s[1..], sep);
      var rest := Split(s[1..], sep);
      if s[0] != sep {
        var first := [s[0]] + rest[0];
        assert forall k :: 0 <= k < |first| ==> !IsSpace(first[k]) by {
          forall k | 0 <= k < |first| ensures !IsSpace(first[k]) {
            if k > 0 { assert first[k] == rest[0][k - 1]; }
          }
        }
      }
    }
  }

  /** The primary category: the first tag, or "Outros" when there are none. */
  function PrimaryCategory(tags: seq<string>): (r: string)
    ensures tags != [] ==> r == tags[0]
    ensures tags == [] ==> r == FallbackCategory
  {
    if |tags| > 0 then tags[0] else FallbackCategory
  }

  /** An API record formatted for the page. */
  function FormatProduct(p: ApiProduct): (r: Product)
    ensures r.id == p.id && r.nome == p.nome && r.imagem_url == p.imagem_url
    ensures r.tags == NormalizeTags(p.tags) && r.category == PrimaryCategory(r.tags)
    ensures r.descricao == if p.descricao.Some? && p.descricao.value != "" then p.descricao.value else NoDescription
    ensures r.popular
  {
    var tags := NormalizeTags(p.tags);
    Product(
      p.id,
      p.nome,
      if p.descricao.Some? && p.descricao.value != "" then p.descricao.value else NoDescription,
      p.imagem_url,
      tags,
      PrimaryCategory(tags),
      true)
  }

  /** The whole response, formatted record by record in order. */
  function FormatProducts(ps: seq<ApiProduct>): (r: seq<Product>)
    ensures |r| == |ps|
    ensures forall i :: 0 <= i < |ps| ==> r[i] == FormatProduct(ps[i])
  {
    seq(|ps|, i requires 0 <= i < |ps| => FormatProduct(ps[i]))
  }

  /**
   * For a tag string the category is the text before its first comma,
   * trimmed; this is "" for the empty string and for a string that starts
   * with a comma or with blanks followed by a comma.
   */
  lemma TextCategory(p: ApiProduct)
    requires p.tags.TagText?
    ensures var first := Split(p.tags.text, ',')[0];
      && first <= p.tags.text
      && ',' !in first
      && (|first| < |p.tags.text| ==> p.tags.text[|first|] == ',')
      && FormatProduct(p).category == Trim(first)
  {
    SplitFirst(p.tags.text, ',');
  }

  /** The product's category is its first tag or the fallback "Outros". */
  lemma CategoryComesFromTags(p: ApiProduct)
    ensures var r := FormatProduct(p);
      (r.tags != [] && r.category == r.tags[0]) || (r.tags == [] && r.category == FallbackCategory)
  {
  }

  // ---------------------------------------------------------------------------
  // The sidebar's tag list

  /**
   * `allTags`: the distinct non-empty categories, sorted. The loop fills a set
   * (kept in insertion order, as a JavaScript `Set` is) and then sorts it.
   */
  method AllTags(products: seq<Product>) returns (tags: seq<string>)
    ensures StrictlySorted(tags)
    ensures NoDuplicates(tags)
    ensures forall t :: t in tags <==> t != "" && exists k :: 0 <= k < |products| && products[k].category == t
  {
    var inserted: seq<string> := [];
    var i := 0;
    while i < |products|
      invariant 0 <= i <= |products|
      invariant NoDuplicates(inserted)
      invariant forall t :: t in inserted <==> t != "" && exists k :: 0 <= k < i && products[k].category == t
    {
      var c := products[i].category;
      if c != "" && c !in inserted {
        inserted := inserted + [c];
      }
      i := i + 1;
    }
    tags := Sort(inserted);
    PermutationKeepsNoDuplicates(inserted, tags);
    SortedDistinctIsStrict(tags);
    forall t ensures t in tags <==> t in inserted {
      assert t in tags <==> t in multiset(tags);
      assert t in inserted <==> t in multiset(inserted);
    }
  }

  // ---------------------------------------------------------------------------
  // Filtering

  /**
   * With no tag selected every product passes; otherwise the categories must
   * agree ignoring case, so a product passes its own category and only
   * categories of its length.
   */
  function MatchesTag(p: Product, selectedTag: Option<string>): (r: bool)
    ensures selectedTag.None? || selectedTag == Some(p.category) ==> r
    ensures r && selectedTag.Some? ==> |selectedTag.value| == |p.category|
    ensures selectedTag.Some? ==> (r <==> SameLetters(p.category, selectedTag.value))
  {
    if selectedTag.Some? then
      SameLettersIgnoreCase(p.category, selectedTag.value);
      EqualsIgnoreCase(p.category, selectedTag.value)
    else true
  }

  /** The two texts have the same length and agree letter by letter once lowered. */
  predicate SameLetters(a: string, b: string) {
    |a| == |b| && forall i :: 0 <= i < |a| ==> LowerChar(a[i]) == LowerChar(b[i])
  }

  /** Comparing the lowered texts is comparing them letter by letter, lowered. */
  lemma SameLettersIgnoreCase(a: string, b: string)
    ensures EqualsIgnoreCase(a, b) <==> SameLetters(a, b)
  {
    if SameLetters(a, b) {
      assert ToLower(a) == ToLower(b);
    }
  }

  /**
   * The name contains the search term, ignoring case: the term occurs in the
   * lowered name at some position, so it is no longer than the name, and the
   * empty search matches every product.
   */
  function MatchesSearch(p: Product, searchTerm: string): (r: bool)
    ensures r <==> exists i :: OccursAt(ToLower(p.nome), ToLower(searchTerm), i)
    ensures r ==> |searchTerm| <= |p.nome|
    ensures searchTerm == "" ==> r
  {
    ContainsIff(ToLower(p.nome), ToLower(searchTerm));
    ContainsEmpty(ToLower(p.nome));
    Contains(ToLower(p.nome), ToLower(searchTerm))
  }

  /**
   * `filteredProducts`: the tag filter followed by the name filter. The result
   * is an order-preserving subsequence of the catalogue and holds exactly the
   * products that pass both tests.
   */
  function FilteredProducts(all: seq<Product>, selectedTag: Option<string>, searchTerm: string): (r: seq<Product>)
    ensures IsSubsequence(r, all)
    ensures forall p :: p in r <==> p in all && MatchesTag(p, selectedTag) && MatchesSearch(p, searchTerm)
    ensures forall p :: multiset(r)[p] == if MatchesTag(p, selectedTag) && MatchesSearch(p, searchTerm) then multiset(all)[p] else 0
  {
    var byTag := (p: Product) => MatchesTag(p, selectedTag);
    var bySearch := (p: Product) => MatchesSearch(p, searchTerm);
    var both := (p: Product) => MatchesTag(p, selectedTag) && MatchesSearch(p, searchTerm);
    FilterFilter(all, byTag, bySearch, both);
    FilterFacts(all, both);
    Filter(Filter(all, byTag), bySearch)
  }

  /** With no tag selected and an empty search, every product is shown in catalogue order. */
  lemma NoFilterShowsAll(all: seq<Product>)
    ensures FilteredProducts(all, None, "") == all
  {
    var byTag := (p: Product) => MatchesTag(p, None);
    var bySearch := (p: Product) => MatchesSearch(p, "");
    FilterKeepsAll(all, byTag);
    forall i | 0 <= i < |all| ensures bySearch(all[i]) {
      ContainsEmpty(ToLower(all[i].nome));
    }
    FilterKeepsAll(all, bySearch);
  }

  /** The candidate handed to `addToCart` from the catalogue grid. */
  function CatalogCandidate(p: Product): (c: CartApi.Candidate)
    ensures c.id == p.id && c.name == p.nome && c.descricao == Some(p.descricao)
    ensures c.image == p.imagem_url && c.category == p.category && c.price.None?
  {
    CartApi.Candidate(p.id, p.nome, Some(p.descricao), None, p.imagem_url, p.category)
  }

  // ---------------------------------------------------------------------------
  // The page state

  /** The initial selection: the URL's `tag` parameter, where an empty one counts as none (`tagFromUrl || null`). */
  function InitialTag(params: map<string, string>): (r: Option<string>)
    ensures r.Some? <==> "tag" in params && params["tag"] != ""
    ensures r.Some? ==> r.value == params["tag"]
  {
    if "tag" in params && params["tag"] != "" then Some(params["tag"]) else None
  }

  /** The query parameters `handleTagSelect` writes: `{tag}` for a non-empty tag, none otherwise. */
  function TagParams(tag: Option<string>): (r: map<string, string>)
    ensures tag.Some? && tag.value != "" ==> r == map["tag" := tag.value]
    ensures !(tag.Some? && tag.value != "") ==> r == map[]
  {
    if tag.Some? && tag.value != "" then map["tag" := tag.value] else map[]
  }

  /** Selecting a tag through the sidebar and reloading the page restores the same selection. */
  lemma TagParamsRoundTrip(tag: Option<string>)
    ensures InitialTag(TagParams(tag)) == if tag == Some("") then None else tag
  {
  }

  class CatalogPage {
    var searchParams: map<string, string>
    var allProducts: seq<Product>
    var searchTerm: string
    var isLoading: bool
    var selectedTag: Option<string>
    var favorites: set<int>

    /** Mounting the page with the current query parameters; the fetch starts, so the page is loading. */
    constructor (params: map<string, string>)
      ensures searchParams == params && selectedTag == InitialTag(params)
      ensures allProducts == [] && searchTerm == "" && isLoading && favorites == {}
    {
      searchParams := params;
      allProducts := [];
      searchTerm := "";
      isLoading := true;
      selectedTag := InitialTag(params);
      favorites := {};
    }

    /** The end of `fetchProducts`: the formatted list on success, an empty list on failure. */
    method FinishLoading(response: Option<seq<ApiProduct>>)
      modifies this`allProducts, this`isLoading
      ensures allProducts == if response.Some? then FormatProducts(response.value) else []
      ensures !isLoading
    {
      if response.Some? {
        allProducts := FormatProducts(response.value);
      } else {
        allProducts := [];
      }
      isLoading := false;
    }

    method SetSearchTerm(term: string)
      modifies this`searchTerm
      ensures searchTerm == term
    {
      searchTerm := term;
    }

    /** `handleTagSelect`: the selection becomes `tag`; the URL carries it only when it is non-empty. */
    method HandleTagSelect(tag: Option<string>)
      modifies this`selectedTag, this`searchParams
      ensures selectedTag == tag
      ensures searchParams == TagParams(tag)
    {
      selectedTag := tag;
      if tag.Some? && tag.value != "" {
        searchParams := map["tag" := tag.value];
      } else {
        searchParams := map[];
      }
    }

    /** `toggleFavorite`: flips the membership of one id. */
    method ToggleFavorite(id: int)
      modifies this`favorites
      ensures favorites == Favorites.Toggle(old(favorites), id)
    {
      var next := favorites;
      if id in next {
        next := next - {id};
      } else {
        next := next + {id};
      }
      favorites := next;
    }

    /** The grid's contents for the current state. */
    function Visible(): (r: seq<Product>)
      reads this
      ensures IsSubsequence(r, allProducts)
      ensures forall p :: p in r <==> p in allProducts && MatchesTag(p, selectedTag) && MatchesSearch(p, searchTerm)
      ensures forall p :: multiset(r)[p] == if MatchesTag(p, selectedTag) && MatchesSearch(p, searchTerm) then multiset(allProducts)[p] else 0
    {
      FilteredProducts(allProducts, selectedTag, searchTerm)
    }
  }
}
