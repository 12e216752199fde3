/**
 * The product page (`ProductDetailPage`): the `galeria` field normalised to
 * a gallery, the category fallback, the main image and the add-to-cart
 * object.
 *
 * The gallery is whatever value the normalisation produces: `JSON.parse` of a
 * string may return a value other than an array, and the page then reads
 * `length` and `[0]` of that value, so galleries are `Json` values. The
 * request is the parameter `response`; the toasts are the flag `errorShown`.
 */
module Detail {
  import opened Wrappers
  import opened Json
  import opened Fields

  const DefaultCategory := "Geral"

  /** `res.data.produto`; `galeria` is `None` when the field is missing. */
  datatype ApiDetail = ApiDetail(id: int, nome: string, descricao: Option<string>, tags: TagsField, galeria: Option<Json>)

  /** The formatted item the page renders. */
  datatype Item = Item(id: int, nome: string, descricao: Option<string>, tags: TagsField, galeria: Json, category: TagsField)

  /** The object handed to `addToCart` by this page: no price, the first gallery entry as image. */
  datatype DetailCandidate = DetailCandidate(id: int, name: string, descricao: Option<string>, image: Json, category: TagsField)

  /** JavaScript truthiness of the `tags` field. */
  predicate TagsTruthy(tags: TagsField) {
    match tags
    case TagList(_) => true
    case TagText(text) => text != ""
    case TagAbsent => false
  }

  /** `data.tags || 'Geral'`: the category shown in the badge is never empty. */
  function Category(tags: TagsField): (r: TagsField)
    ensures TagsTruthy(tags) ==> r == tags
    ensures !TagsTruthy(tags) ==> r == TagText(DefaultCategory)
    ensures TagsTruthy(r)
  {
    if TagsTruthy(tags) then tags else TagText(DefaultCategory)
  }

  /**
   * `value.length` as far as a comparison with a number sees it: the length
   * of an array or a string, and `0` for values without `length` (their
   * `undefined > n` is false). `null` is not asked: reading its `length` throws.
   */
  function Length(gallery: Json): (r: nat)
    ensures gallery.JArray? ==> r == |gallery.elems|
    ensures gallery.JString? ==> r == |gallery.str|
    ensures !gallery.JArray? && !gallery.JString? ==> r == 0
  {
    match gallery
    case JArray(elems) => |elems|
    case JString(s) => |s|
    case _ => 0
  }

  /** `value[0]` of a gallery with `length > 0`: its first element, or the first character of a string. */
  function First(gallery: Json): (r: Json)
    requires Length(gallery) > 0
    ensures gallery.JArray? ==> r == gallery.elems[0]
    ensures gallery.JString? ==> r == JString([gallery.str[0]])
  {
    match gallery
    case JArray(elems) => elems[0]
    case JString(s) => JString([s[0]])
  }

  /** `galeria.length > 0 ? galeria[0] : ''` */
  function CartImage(gallery: Json): (r: Json)
    ensures Length(gallery) > 0 ==> r == First(gallery)
    ensures Length(gallery) == 0 ==> r == JString("")
  {
    if Length(gallery) > 0 then First(gallery) else JString("")
  }

  /** The thumbnail strip is drawn for more than one picture. */
  function ShowThumbnails(gallery: Json): (r: bool)
    ensures r <==> Length(gallery) > 1
    ensures gallery.JArray? ==> (r <==> |gallery.elems| > 1)
    ensures r ==> Length(gallery) > 0 && CartImage(gallery) == First(gallery)
  {
    Length(gallery) > 1
  }

  /**
   * The gallery made of `data.galeria`. A missing or falsy `galeria` gives
   * `[]`; a string is parsed, and one that does not parse becomes the
   * one-picture gallery `[galeria]`; an array is kept; any other value gives `[]`.
   */
  function Gallery(raw: Option<Json>, parse: string -> Option<Json>): (r: Json)
    ensures raw.None? || !Truthy(raw.value) ==> r == JArray([])
    ensures raw.Some? && raw.value.JString? && raw.value.str != "" ==>
      r == (match parse(raw.value.str) case Some(parsed) => parsed case None => JArray([raw.value]))
    ensures raw.Some? && raw.value.JArray? ==> r == raw.value
    ensures raw.Some? && Truthy(raw.value) && !raw.value.JString? && !raw.value.JArray? ==> r == JArray([])
  {
    match raw
    case None => JArray([])
    case Some(JString(s)) => if s == "" then JArray([]) else parse(s).GetOr(JArray([JString(s)]))
    case Some(JArray(elems)) => JArray(elems)
    case Some(_) => JArray([])
  }

  /** A gallery string that does not parse is shown as the single picture it names, without thumbnails. */
  lemma UnparsableGaleriaIsOnePicture(s: string, parse: string -> Option<Json>)
    requires s != "" && parse(s).None?
    ensures var g := Gallery(Some(JString(s)), parse);
      Length(g) == 1 && CartImage(g) == JString(s) && !ShowThumbnails(g)
  {
  }

  /** The normalisation as the page performs it, reassigning `galeriaArray` branch by branch. */
  method NormaliseGaleria(raw: Option<Json>, parse: string -> Option<Json>) returns (gallery: Json)
    ensures gallery == Gallery(raw, parse)
  {
    gallery := JArray([]);
    if raw.Some? && Truthy(raw.value) {
      if raw.value.JString? {
        var parsed := parse(raw.value.str);
        if parsed.Some? {
          gallery := parsed.value;
        } else {
          gallery := JArray([raw.value]);
        }
      } else if raw.value.JArray? {
        gallery := raw.value;
      }
    }
  }

  class DetailPage {
    var item: Option<Item>
    var isLoading: bool
    var mainImage: Json
    var errorShown: bool

    /** A stored item carries the category derived from its own tags. */
    predicate Valid()
      reads this
    {
      item.Some? ==> item.value.category == Category(item.value.tags)
    }

    constructor ()
      ensures Valid()
      ensures item == None && isLoading && mainImage == JString("") && !errorShown
    {
      item := None;
      isLoading := true;
      mainImage := JString("");
      errorShown := false;
    }

    /**
     * The end of `fetchItem`. `response` is `None` when the request fails
     * or carries no product. A gallery that parsed to `null` throws when
     * its `length` is read after the item was already stored.
     */
    method FinishFetch(response: Option<ApiDetail>, parse: string -> Option<Json>)
      requires Valid()
      modifies this`item, this`isLoading, this`mainImage, this`errorShown
      ensures Valid() && !isLoading
      ensures response.None? ==> item == old(item) && mainImage == old(mainImage) && errorShown
      ensures response.Some? ==>
        var data := response.value;
        && item.Some?
        && item.value == Item(data.id, data.nome, data.descricao, data.tags, Gallery(data.galeria, parse), Category(data.tags))
        && (item.value.galeria.JNull? ==> mainImage == old(mainImage) && errorShown)
        && (!item.value.galeria.JNull? ==>
              (errorShown == old(errorShown) &&
               mainImage == if Length(item.value.galeria) > 0 then First(item.value.galeria) else old(mainImage)))
      ensures response.Some? && old(mainImage) == JString("") && !item.value.galeria.JNull? ==>
        mainImage == CartImage(item.value.galeria)
    {
      if response.None? {
        errorShown := true;
        isLoading := false;
        return;
      }
      var data := response.value;
      var gallery := NormaliseGaleria(data.galeria, parse);
      item := Some(Item(data.id, data.nome, data.descricao, data.tags, gallery, Category(data.tags)));
      if gallery.JNull? {
        errorShown := true;
      } else if Length(gallery) > 0 {
        mainImage := First(gallery);
      }
      isLoading := false;
    }

    /** A click on thumbnail `index` makes its picture the main image. */
    method SelectThumbnail(index: nat)
      requires item.Some? && item.value.galeria.JArray? && ShowThumbnails(item.value.galeria)
      requires index < |item.value.galeria.elems|
      modifies this`mainImage
      ensures mainImage == item.value.galeria.elems[index]
    {
      mainImage := item.value.galeria.elems[index];
    }

    /** `handleAddToCart`: the first gallery picture (or `''`) with the item's own id, name, description and category. */
    function AddToCartCandidate(): (r: DetailCandidate)
      reads this
      requires Valid() && item.Some?
      ensures r.id == item.value.id && r.name == item.value.nome && r.descricao == item.value.descricao
      ensures r.category == item.value.category && TagsTruthy(r.category)
      ensures r.image == CartImage(item.value.galeria)
    {
      var it := item.value;
      DetailCandidate(it.id, it.nome, it.descricao, CartImage(it.galeria), it.category)
    }
  }
}
