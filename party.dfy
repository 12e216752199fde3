/**
 * The party-builder wizard (`MakeParty`): loose items are fetched and given a
 * category, and the user walks through the seventeen steps of `ETAPAS_FESTA`,
 * seeing at each step the items of that step's category.
 */
module Party {
  import opened Wrappers
  import opened Text
  import opened Seqs
  import opened Json
  import opened Fields
  import CartApi

  /** `ETAPAS_FESTA`: the wizard's steps, in order. */
  const Steps: seq<string> := [
    "Pratos", "Suportes", "Vasos", "Arranjos de Flor", "Piruliteiras", "Bolo (Maquetes)", "Cilindros",
    "Mesas", "Cubos", "Palcos", "Painéis de Tecido", "Suporte para Painéis", "Painéis de Madeira",
    "Tapetes", "Totens", "Elementos", "Outros"]

  const FallbackCategory: string := "Outros"
  const FinishLabel: string := "Finalizar"

  /** An item record as the API returns it. */
  datatype ItemApi = ItemApi(
    id: int,
    nome: string,
    descricao: Option<string>,
    imagem_url: string,
    categoria: Option<string>,
    tags: TagsField)

  /** An item as the wizard keeps it. */
  datatype PartyItem = PartyItem(id: int, nome: string, descricao: string, imagem_url: string, category: string)

  // ---------------------------------------------------------------------------
  // Category derivation

  /**
   * The `tags` field as the JavaScript value it is (a missing field is
   * `undefined`, falsy like `null`): a string only for tag text, an array of
   * the tags' strings for a list, and falsy exactly when missing or empty text.
   */
  function TagsValue(tags: TagsField): (r: Json)
    ensures r.JString? <==> tags.TagText?
    ensures tags.TagList? ==> r.JArray? && |r.elems| == |tags.list| && forall i :: 0 <= i < |tags.list| ==> r.elems[i] == JString(tags.list[i])
    ensures !Truthy(r) <==> tags.TagAbsent? || tags == TagText("")
  {
    match tags
    case TagList(list) => JArray(seq(|list|, i requires 0 <= i < |list| => JString(list[i])))
    case TagText(text) => JString(text)
    case TagAbsent => JNull
  }

  /** Only a string that starts with `[` or `"[` is handed to `JSON.parse`. */
  function LooksLikeJson(s: string): (r: bool)
    ensures r <==> (|s| >= 1 && s[0] == '[') || (|s| >= 2 && s[0] == '"' && s[1] == '[')
  {
    "[" <= s || "\"[" <= s
  }

  /**
   * `tagsData` after the optional parse: only JSON-looking tag text is parsed,
   * a failed parse keeps the original string, anything else is the field's value.
   */
  function TagsData(tags: TagsField, parse: string -> Option<Json>): (r: Json)
    ensures !tags.TagText? ==> r == TagsValue(tags)
    ensures tags.TagText? && (!LooksLikeJson(tags.text) || parse(tags.text).None?) ==> r == JString(tags.text)
    ensures tags.TagText? && LooksLikeJson(tags.text) && parse(tags.text).Some? ==> r == parse(tags.text).value
  {
    var raw := TagsValue(tags);
    if raw.JString? && LooksLikeJson(raw.str) && parse(raw.str).Some? then parse(raw.str).value else raw
  }

  /** The record has a `categoria` with some character that is not white space. */
  function HasCategoria(item: ItemApi): (r: bool)
    ensures r <==> item.categoria.Some? && exists k :: 0 <= k < |item.categoria.value| && !IsSpace(item.categoria.value[k])
  {
    if item.categoria.Some? then TrimBlank(item.categoria.value); Trim(item.categoria.value) != "" else false
  }

  /**
   * The category the tags propose, before the final trim: the trimmed first
   * element of a non-empty array, the trimmed first comma-separated piece of a
   * string, and "Outros" otherwise. `None` stands for the `TypeError` that
   * calling `trim` on a first array element that is not a string throws.
   */
  function TagCategory(tagsData: Json): (r: Option<string>)
    ensures r.None? <==> tagsData.JArray? && |tagsData.elems| > 0 && !tagsData.elems[0].JString?
    ensures !Truthy(tagsData) ==> r == Some(FallbackCategory)
  {
    if !Truthy(tagsData) then Some(FallbackCategory)
    else match tagsData
      case JArray(elems) =>
        if |elems| == 0 then Some(FallbackCategory)
        else if elems[0].JString? then Some(Trim(elems[0].str))
        else None
      case JString(s) => Some(Trim(Split(s, ',')[0]))
      case _ => Some(FallbackCategory)
  }

  /** The final trim, with "Outros" for a blank result: trimmed and never empty. */
  function FinalCategory(raw: string): (r: string)
    ensures r != "" && Trim(r) == r
    ensures Trim(raw) != "" ==> r == Trim(raw)
    ensures Trim(raw) == "" ==> r == FallbackCategory
  {
    TrimIdempotent(raw);
    TrimNoSpaceEnds(FallbackCategory);
    var t := Trim(raw);
    if t == "" then FallbackCategory else t
  }

  /**
   * The category of an item: a non-blank `categoria` wins over any tags;
   * otherwise the tags' proposal; the result is trimmed and never empty,
   * falling back to "Outros".
   */
  function PartyCategory(item: ItemApi, parse: string -> Option<Json>): (r: Option<string>)
    ensures HasCategoria(item) ==> r == Some(Trim(item.categoria.value))
    ensures !HasCategoria(item) ==> (r.None? <==> TagCategory(TagsData(item.tags, parse)).None?)
    ensures r.Some? ==> r.value != "" && Trim(r.value) == r.value
  {
    if HasCategoria(item) then Some(FinalCategory(item.categoria.value))
    else
      match TagCategory(TagsData(item.tags, parse))
      case None => None
      case Some(c) => Some(FinalCategory(c))
  }

  /**
   * The derivation as the loader writes it, reassigning `rawCategory` and
   * `tagsData` step by step; it computes `PartyCategory`.
   */
  method DeriveCategory(item: ItemApi, parse: string -> Option<Json>) returns (category: Option<string>)
    ensures category == PartyCategory(item, parse)
  {
    var rawCategory := FallbackCategory;
    var tagsData := TagsValue(item.tags);
    if tagsData.JString? && LooksLikeJson(tagsData.str) {
      var parsed := parse(tagsData.str);
      if parsed.Some? {
        tagsData := parsed.value;
      }
    }
    assert tagsData == TagsData(item.tags, parse);
    var proposal := TagCategory(tagsData);
    if item.categoria.Some? && Trim(item.categoria.value) != "" {
      rawCategory := item.categoria.value;
    } else if Truthy(tagsData) {
      if tagsData.JArray? && |tagsData.elems| > 0 {
        if !tagsData.elems[0].JString? {
          assert proposal.None?;
          return None;
        }
        rawCategory := Trim(tagsData.elems[0].str);
      } else if tagsData.JString? {
        rawCategory := Trim(Split(tagsData.str, ',')[0]);
      }
      assert proposal == Some(rawCategory);
    } else {
      assert proposal == Some(rawCategory);
    }
    category := Some(FinalCategory(rawCategory));
  }

  /** A categoria that is not blank decides the category, whatever the tags say. */
  lemma CategoriaTakesPrecedence(item: ItemApi, tags: TagsField, parse: string -> Option<Json>)
    requires HasCategoria(item)
    ensures PartyCategory(item, parse) == PartyCategory(item.(tags := tags), parse)
  {
  }

  /** Without a categoria, a tag list's trimmed first element is the category, or "Outros" when blank. */
  lemma TagListCategory(item: ItemApi, parse: string -> Option<Json>)
    requires !HasCategoria(item) && item.tags.TagList? && |item.tags.list| > 0
    ensures PartyCategory(item, parse) == Some(FinalCategory(item.tags.list[0]))
  {
    var first := item.tags.list[0];
    var j := TagsData(item.tags, parse);
    assert j == TagsValue(item.tags);
    assert j.JArray? && |j.elems| > 0 && j.elems[0] == JString(first);
    assert TagCategory(j) == Some(Trim(first));
    FinalCategoryOfTrim(first);
  }

  /** Trimming before the final step changes nothing. */
  lemma FinalCategoryOfTrim(raw: string)
    ensures FinalCategory(Trim(raw)) == FinalCategory(raw)
  {
    TrimIdempotent(raw);
  }

  /**
   * Without a categoria, a tag string that is not JSON-looking, or that
   * `JSON.parse` rejects, gives the trimmed text before its first comma, or
   * "Outros" when that is blank.
   */
  lemma TagTextCategory(item: ItemApi, parse: string -> Option<Json>)
    requires !HasCategoria(item) && item.tags.TagText?
    requires !LooksLikeJson(item.tags.text) || parse(item.tags.text).None?
    ensures var first := Split(item.tags.text, ',')[0];
      && first <= item.tags.text && ',' !in first
      && PartyCategory(item, parse) == Some(FinalCategory(first))
  {
    var text := item.tags.text;
    SplitFirst(text, ',');
    assert TagsData(item.tags, parse) == JString(text);
    TextProposal(text);
  }

  /**
   * Without a categoria, a JSON-looking tag string that parses to an array
   * gives the array's first element after the final trim, "Outros" for an
   * empty array, and throws (`None`) when that first element is not a string.
   */
  lemma ParsedArrayCategory(item: ItemApi, parse: string -> Option<Json>, elems: seq<Json>)
    requires !HasCategoria(item) && item.tags.TagText? && LooksLikeJson(item.tags.text)
    requires parse(item.tags.text) == Some(JArray(elems))
    ensures elems == [] ==> PartyCategory(item, parse) == Some(FallbackCategory)
    ensures elems != [] && elems[0].JString? ==> PartyCategory(item, parse) == Some(FinalCategory(elems[0].str))
    ensures elems != [] && !elems[0].JString? ==> PartyCategory(item, parse).None?
  {
    assert TagsData(item.tags, parse) == JArray(elems);
    if elems == [] {
      assert TagCategory(JArray(elems)) == Some(FallbackCategory);
      FallbackIsFinal();
    } else if elems[0].JString? {
      assert TagCategory(JArray(elems)) == Some(Trim(elems[0].str));
      FinalCategoryOfTrim(elems[0].str);
    } else {
      assert TagCategory(JArray(elems)).None?;
    }
  }

  /** "Outros" survives the final trim unchanged. */
  lemma FallbackIsFinal()
    ensures FinalCategory(FallbackCategory) == FallbackCategory
  {
    TrimNoSpaceEnds(FallbackCategory);
  }

  /**
   * Without a categoria, a JSON-looking tag string that parses to a string
   * gives the parsed string's first comma-separated piece after the final trim.
   */
  lemma ParsedStringCategory(item: ItemApi, parse: string -> Option<Json>, text: string)
    requires !HasCategoria(item) && item.tags.TagText? && LooksLikeJson(item.tags.text)
    requires parse(item.tags.text) == Some(JString(text))
    ensures PartyCategory(item, parse) == Some(FinalCategory(Split(text, ',')[0]))
  {
    assert TagsData(item.tags, parse) == JString(text);
    TextProposal(text);
  }

  /**
   * Without a categoria, tags that are missing, an empty string, an empty
   * list, or JSON that parses to something neither an array nor a string
   * leave the initial "Outros".
   */
  lemma NoTagsCategory(item: ItemApi, parse: string -> Option<Json>)
    requires !HasCategoria(item)
    requires || item.tags.TagAbsent?
             || item.tags == TagText("")
             || item.tags == TagList([])
             || (item.tags.TagText? && LooksLikeJson(item.tags.text) && parse(item.tags.text).Some?
                 && !parse(item.tags.text).value.JArray? && !parse(item.tags.text).value.JString?)
    ensures PartyCategory(item, parse) == Some(FallbackCategory)
  {
    var j := TagsData(item.tags, parse);
    if item.tags == TagList([]) {
      assert j == JArray([]);
    } else if item.tags.TagAbsent? {
      assert j == JNull;
    } else if item.tags == TagText("") {
      assert j == JString("");
    }
    assert TagCategory(j) == Some(FallbackCategory);
    FallbackIsFinal();
  }

  /** The proposal of a tag string ends, after the final trim, as its first comma-separated piece does. */
  lemma TextProposal(text: string)
    ensures TagCategory(JString(text)).Some?
    ensures FinalCategory(TagCategory(JString(text)).value) == FinalCategory(Split(text, ',')[0])
  {
    var first := Split(text, ',')[0];
    if text == "" {
      assert TagCategory(JString(text)) == Some(FallbackCategory);
      FallbackIsFinal();
      assert first == "" && Trim(first) == "";
    } else {
      assert TagCategory(JString(text)) == Some(Trim(first));
      FinalCategoryOfTrim(first);
    }
  }

  /** An item record formatted for the wizard; `None` when deriving its category throws. */
  function FormatItem(item: ItemApi, parse: string -> Option<Json>): (r: Option<PartyItem>)
    ensures r.Some? <==> PartyCategory(item, parse).Some?
    ensures r.Some? ==> r.value.category == PartyCategory(item, parse).value
    ensures r.Some? ==> r.value.id == item.id && r.value.nome == item.nome && r.value.imagem_url == item.imagem_url
    ensures r.Some? && item.descricao.Some? ==> r.value.descricao == item.descricao.value
    ensures r.Some? && item.descricao.None? ==> r.value.descricao == ""
  {
    match PartyCategory(item, parse)
    case None => None
    case Some(c) => Some(PartyItem(item.id, item.nome, item.descricao.GetOr(""), item.imagem_url, c))
  }

  /** The callback of the `map` over the response, for one record. */
  method FormatOne(item: ItemApi, parse: string -> Option<Json>) returns (r: Option<PartyItem>)
    ensures r == FormatItem(item, parse)
  {
    var category := DeriveCategory(item, parse);
    if category.None? {
      return None;
    }
    r := Some(PartyItem(item.id, item.nome, item.descricao.GetOr(""), item.imagem_url, category.value));
  }

  /**
   * The `map` over the response: it succeeds exactly when every record
   * formats, and then holds the formatted records in order; `None` when one
   * of them throws.
   */
  function FormatAll(data: seq<ItemApi>, parse: string -> Option<Json>): (r: Option<seq<PartyItem>>)
    ensures r.Some? <==> forall i :: 0 <= i < |data| ==> FormatItem(data[i], parse).Some?
    ensures r.Some? ==> |r.value| == |data| && forall i :: 0 <= i < |data| ==> Some(r.value[i]) == FormatItem(data[i], parse)
  {
    TryMapElements(data, item => FormatItem(item, parse));
    TryMap(data, item => FormatItem(item, parse))
  }

  /**
   * The loader's `map`: formats record after record with `DeriveCategory`
   * and stops at the first that throws.
   */
  method FormatItems(data: seq<ItemApi>, parse: string -> Option<Json>) returns (r: Option<seq<PartyItem>>)
    ensures r == FormatAll(data, parse)
  {
    var format := item => FormatItem(item, parse);
    var out: seq<PartyItem> := [];
    var i := 0;
    while i < |data|
      invariant 0 <= i <= |data|
      invariant TryMap(data[..i], format) == Some(out)
    {
      var formatted := FormatOne(data[i], parse);
      assert format(data[i]) == formatted;
      if formatted.None? {
        TryMapStops(data, i, format);
        return None;
      }
      TryMapStep(data, i, format, out);
      out := out + [formatted.value];
      i := i + 1;
    }
    assert data[..i] == data;
    r := Some(out);
  }

  /** The items of one step: those whose category equals the step's name, ignoring case. */
  function ItemsOfStep(items: seq<PartyItem>, stepName: string): (r: seq<PartyItem>)
    ensures IsSubsequence(r, items)
    ensures forall x :: x in r <==> x in items && EqualsIgnoreCase(x.category, stepName)
    ensures forall x :: multiset(r)[x] == if EqualsIgnoreCase(x.category, stepName) then multiset(items)[x] else 0
  {
    var keep := (x: PartyItem) => EqualsIgnoreCase(x.category, stepName);
    FilterFacts(items, keep);
    Filter(items, keep)
  }

  /** The candidate handed to `addToCart` from a step. */
  function PartyCandidate(item: PartyItem): (c: CartApi.Candidate)
    ensures c.id == item.id && c.name == item.nome && c.descricao == Some(item.descricao)
    ensures c.image == item.imagem_url && c.category == item.category && c.price.None?
  {
    CartApi.Candidate(item.id, item.nome, Some(item.descricao), None, item.imagem_url, item.category)
  }

  // ---------------------------------------------------------------------------
  // The wizard state

  class PartyWizard {
    var items: seq<PartyItem>
    var isLoading: bool
    var currentStepIndex: int
    var isFinished: bool

    /** The step index always names a step. */
    ghost predicate Valid()
      reads this
    {
      0 <= currentStepIndex < |Steps|
    }

    constructor ()
      ensures Valid()
      ensures items == [] && isLoading && currentStepIndex == 0 && !isFinished
    {
      items := [];
      isLoading := true;
      currentStepIndex := 0;
      isFinished := false;
    }

    /**
     * The end of `fetchItems`: on success with every record formatted, the
     * items are replaced; when the request fails or a record throws, the items
     * stay as they were.
     */
    method FinishLoading(response: Option<seq<ItemApi>>, parse: string -> Option<Json>)
      requires Valid()
      modifies this`items, this`isLoading
      ensures Valid() && !isLoading
      ensures response.Some? && FormatAll(response.value, parse).Some? ==> items == FormatAll(response.value, parse).value
      ensures !(response.Some? && FormatAll(response.value, parse).Some?) ==> items == old(items)
    {
      if response.Some? {
        var formatted := FormatItems(response.value, parse);
        if formatted.Some? {
          items := formatted.value;
        }
      }
      isLoading := false;
    }

    function CurrentCategoryName(): string
      reads this
      requires Valid()
    {
      Steps[currentStepIndex]
    }

    /** `currentStepItems`: nothing once finished, otherwise the items of the current step, in order. */
    function CurrentStepItems(): (r: seq<PartyItem>)
      reads this
      requires Valid()
      ensures isFinished ==> r == []
      ensures !isFinished ==> IsSubsequence(r, items)
      ensures !isFinished ==> forall x :: x in r <==> x in items && EqualsIgnoreCase(x.category, Steps[currentStepIndex])
      ensures !isFinished ==> forall x :: multiset(r)[x] == if EqualsIgnoreCase(x.category, Steps[currentStepIndex]) then multiset(items)[x] else 0
    {
      if isFinished then [] else ItemsOfStep(items, CurrentCategoryName())
    }

    /** The "next" hint: the following step's name, or "Finalizar" at the last step. */
    function NextLabel(): (r: string)
      reads this
      requires Valid()
      ensures r == FinishLabel <==> currentStepIndex == |Steps| - 1
      ensures currentStepIndex < |Steps| - 1 ==> r == Steps[currentStepIndex + 1]
    {
      if currentStepIndex + 1 < |Steps| then Steps[currentStepIndex + 1] else FinishLabel
    }

    /** `handleNext`: advance below the last step; at the last step finish and stay there. */
    method Next()
      requires Valid()
      modifies this`currentStepIndex, this`isFinished
      ensures Valid()
      ensures old(currentStepIndex) < |Steps| - 1 ==> currentStepIndex == old(currentStepIndex) + 1 && isFinished == old(isFinished)
      ensures old(currentStepIndex) == |Steps| - 1 ==> currentStepIndex == old(currentStepIndex) && isFinished
    {
      if currentStepIndex < |Steps| - 1 {
        currentStepIndex := currentStepIndex + 1;
      } else {
        isFinished := true;
      }
    }

    /** `handlePrev`: step back and leave the finished screen; at the first step nothing changes. */
    method Prev()
      requires Valid()
      modifies this`currentStepIndex, this`isFinished
      ensures Valid()
      ensures old(currentStepIndex) > 0 ==> currentStepIndex == old(currentStepIndex) - 1 && !isFinished
      ensures old(currentStepIndex) == 0 ==> currentStepIndex == 0 && isFinished == old(isFinished)
    {
      if currentStepIndex > 0 {
        currentStepIndex := currentStepIndex - 1;
        isFinished := false;
      }
    }

    /** "Começar de novo": back to the first step, not finished. */
    method Restart()
      modifies this`currentStepIndex, this`isFinished
      ensures Valid()
      ensures currentStepIndex == 0 && !isFinished
    {
      isFinished := false;
      currentStepIndex := 0;
    }
  }

  /** Seventeen steps, so the last index is 16. */
  lemma StepCount()
    ensures |Steps| == 17
    ensures Steps[|Steps| - 1] == FallbackCategory
  {
  }

  /** Pressing "next" from the first step reaches the finished screen after exactly seventeen presses. */
  method WalkThrough() returns (w: PartyWizard)
    ensures w.Valid() && w.isFinished && w.currentStepIndex == |Steps| - 1
  {
    w := new PartyWizard();
    var presses := 0;
    while presses < |Steps|
      invariant w.Valid() && 0 <= presses <= |Steps|
      invariant presses < |Steps| ==> w.currentStepIndex == presses && !w.isFinished
      invariant presses == |Steps| ==> w.currentStepIndex == |Steps| - 1 && w.isFinished
    {
      w.Next();
      presses := presses + 1;
    }
  }
}
