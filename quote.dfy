/**
 * The cart sheet (`Cart`): the quote request handed to WhatsApp, the header
 * texts, and the requests its buttons send to the cart store.
 *
 * `encodeURIComponent` is the parameter `encode`; opening the window is left
 * out.
 */
module Quote {
  import opened Wrappers
  import opened Text
  import opened CartApi

  const PhoneNumber := "5561996291414"
  const Greeting := "Olá!\n\nGostaria de solicitar um orçamento para os seguintes itens:\n\n"
  const Closing := "\n\nObrigado!"
  const UrlPrefix := "https://wa.me/" + PhoneNumber + "?text="
  const EmptyDescription := "Seu carrinho está vazio"
  const PlaceholderImage := "https://placehold.co/100x100?text=Sem+Foto"

  // ---------------------------------------------------------------------------
  // the quote message

  /**
   * One line of the order, `"<quantity>x <name>"`. It reads back as its
   * item: `parseInt` of the line is the quantity, and what follows the
   * quantity and `"x "` is the name.
   */
  function OrderLine(item: CartItem): (r: string)
    ensures ParseInt(r) == Some(item.quantity)
    ensures var n := |IntToString(item.quantity)|;
      n + 2 <= |r| && r[..n] == IntToString(item.quantity) && r[n..n + 2] == "x " && r[n + 2..] == item.name
  {
    var q := IntToString(item.quantity);
    ParseIntOfIntToString(item.quantity, "x " + item.name);
    assert q + "x " + item.name == q + ("x " + item.name);
    q + "x " + item.name
  }

  /** The lines of the order, one per cart item, in cart order. */
  function OrderLines(items: seq<CartItem>): (r: seq<string>)
    ensures |r| == |items|
    ensures forall i :: 0 <= i < |items| ==> r[i] == OrderLine(items[i])
  {
    if items == [] then [] else [OrderLine(items[0])] + OrderLines(items[1..])
  }

  /**
   * `items.map(...).join('\n')`: empty exactly for an empty cart, and, when
   * no name breaks a line, one line per item in cart order (splitting at the
   * line breaks gives the lines back).
   */
  function OrderList(items: seq<CartItem>): (r: string)
    ensures r == "" <==> items == []
    ensures items != [] && SingleLineNames(items) ==> Split(r, '\n') == OrderLines(items)
  {
    var lines := OrderLines(items);
    if items == [] then ""
    else
      OrderListNonEmpty(lines);
      LinesSplit(items);
      Join(lines, '\n')
  }

  /** With no name breaking a line, the order lines are split back out of their join. */
  lemma LinesSplit(items: seq<CartItem>)
    requires items != []
    ensures SingleLineNames(items) ==> Split(Join(OrderLines(items), '\n'), '\n') == OrderLines(items)
  {
    var lines := OrderLines(items);
    if SingleLineNames(items) {
      forall i | 0 <= i < |lines|
        ensures '\n' !in lines[i]
      {
        OrderLineSingleLine(items[i]);
      }
      SplitJoin(lines, '\n');
    }
  }

  /** The message of the quote request: the fixed greeting, the order list and the fixed closing. */
  function Message(items: seq<CartItem>): (r: string)
    ensures |Greeting| + |Closing| <= |r|
    ensures r[..|Greeting|] == Greeting && r[|r| - |Closing|..] == Closing
    ensures r[|Greeting|..|r| - |Closing|] == OrderList(items)
  {
    ConcatSlices(Greeting, OrderList(items), Closing);
    Greeting + OrderList(items) + Closing
  }

  /** The link opened by "Solicitar Orçamento": the `wa.me` link of the shop's number, its text the encoded message. */
  function WhatsAppUrl(items: seq<CartItem>, encode: string -> string): (r: string)
    ensures UrlPrefix <= r && r[|UrlPrefix|..] == encode(Message(items))
  {
    UrlPrefix + encode(Message(items))
  }

  /** No item name breaks a line of the order. */
  predicate SingleLineNames(items: seq<CartItem>) {
    forall i :: 0 <= i < |items| ==> '\n' !in items[i].name
  }

  /** Different cart lines give different order lines (quantity or name differ). */
  lemma OrderLineInjective(a: CartItem, b: CartItem)
    requires OrderLine(a) == OrderLine(b)
    ensures a.quantity == b.quantity && a.name == b.name
  {
  }

  /** A line breaks only where its name does. */
  lemma OrderLineSingleLine(item: CartItem)
    requires '\n' !in item.name
    ensures '\n' !in OrderLine(item)
  {
    var q := IntToString(item.quantity);
    IntToStringChars(item.quantity);
    assert '\n' !in q by {
      forall i | 0 <= i < |q| ensures q[i] != '\n' {
        assert IsDigit(q[i]) || q[i] == '-';
      }
    }
    NotInConcat(q, "x ", item.name, '\n');
  }

  /** A character in none of three strings is not in their concatenation. */
  lemma NotInConcat(a: string, b: string, c: string, x: char)
    requires x !in a && x !in b && x !in c
    ensures x !in a + b + c
  {
  }

  /** The three parts of a concatenation are its slices. */
  lemma ConcatSlices(a: string, b: string, c: string)
    ensures var s := a + b + c;
      |a| + |c| <= |s| && s[..|a|] == a && s[|s| - |c|..] == c && s[|a|..|s| - |c|] == b
  {
  }



  /** A join of lines whose first has at least three characters is not empty. */
  lemma OrderListNonEmpty(lines: seq<string>)
    requires lines != [] && |lines[0]| >= 3
    ensures Join(lines, '\n') != ""
  {
    if |lines| > 1 {
      assert |Join(lines, '\n')| >= |lines[0]|;
    }
  }

  /**
   * With an injective `encode`, the link determines the order: two carts
   * whose names stay on one line and that give the same link have the same
   * quantities and names, line by line.
   */
  lemma UrlDeterminesOrder(a: seq<CartItem>, b: seq<CartItem>, encode: string -> string)
    requires forall x, y :: encode(x) == encode(y) ==> x == y
    requires SingleLineNames(a) && SingleLineNames(b)
    requires WhatsAppUrl(a, encode) == WhatsAppUrl(b, encode)
    ensures |a| == |b|
    ensures forall i :: 0 <= i < |a| ==> a[i].quantity == b[i].quantity && a[i].name == b[i].name
  {
    var ua, ub := WhatsAppUrl(a, encode), WhatsAppUrl(b, encode);
    assert encode(Message(a)) == ua[|UrlPrefix|..];
    assert encode(Message(b)) == ub[|UrlPrefix|..];
    assert OrderList(a) == OrderList(b);
    if a != [] && b != [] {
      assert OrderLines(a) == OrderLines(b);
      forall i | 0 <= i < |a|
        ensures a[i].quantity == b[i].quantity && a[i].name == b[i].name
      {
        OrderLineInjective(a[i], b[i]);
      }
    }
  }

  // ---------------------------------------------------------------------------
  // header texts

  /**
   * The count badge on the trigger button is drawn. For a count that is not
   * negative that is exactly when the description under the title is not the
   * empty-cart text.
   */
  function ShowBadge(totalItems: int): (r: bool)
    ensures totalItems >= 0 ==> (r <==> CartDescriptionAsWritten(totalItems) != EmptyDescription)
  {
    totalItems > 0
  }

  /** The count one is written `"1"`. */
  lemma OneText()
    ensures IntToString(1) == "1"
  {
    assert NatToString(1) == "1";
  }

  /** `Seu carrinho está vazio`, as its first character shows, is no counted text. */
  lemma CountedText(totalItems: int, suffix: string)
    requires suffix != [] && suffix[0] == ' '
    ensures ParseInt(IntToString(totalItems) + suffix) == Some(totalItems)
    ensures IntToString(totalItems) + suffix != EmptyDescription
  {
    ParseIntOfIntToString(totalItems, suffix);
    IntToStringChars(totalItems);
    assert (IntToString(totalItems) + suffix)[0] == IntToString(totalItems)[0];
  }

  /**
   * The sheet's description under "Meu Orçamento" as the source writes it:
   * the suffix `"ns"` is appended to the word `"item"`, so a count other than
   * one reads `"itemns"`. It is the empty-cart text exactly for a count of
   * zero, and otherwise starts with the count: `parseInt` of it gives the
   * count back.
   */
  function CartDescriptionAsWritten(totalItems: int): (r: string)
    ensures r == EmptyDescription <==> totalItems == 0
    ensures totalItems != 0 ==> ParseInt(r) == Some(totalItems)
    ensures totalItems == 1 ==> r == "1" + " item no seu orçamento"
    ensures totalItems != 0 && totalItems != 1 ==> r == IntToString(totalItems) + " itemns no seu orçamento"
  {
    if totalItems == 0 then EmptyDescription
    else
      var suffix := if totalItems != 1 then " itemns no seu orçamento" else " item no seu orçamento";
      CountedText(totalItems, suffix);
      OneText();
      IntToString(totalItems) + suffix
  }

  /**
   * The description as evidently intended, with the Portuguese plural
   * `"itens"`; the same two properties hold.
   */
  function CartDescription(totalItems: int): (r: string)
    ensures r == EmptyDescription <==> totalItems == 0
    ensures totalItems != 0 ==> ParseInt(r) == Some(totalItems)
    ensures totalItems == 1 ==> r == "1" + " item no seu orçamento"
    ensures totalItems != 0 && totalItems != 1 ==> r == IntToString(totalItems) + " itens no seu orçamento"
  {
    if totalItems == 0 then EmptyDescription
    else
      var suffix := if totalItems != 1 then " itens no seu orçamento" else " item no seu orçamento";
      CountedText(totalItems, suffix);
      OneText();
      IntToString(totalItems) + suffix
  }

  /** For every count other than zero and one the written description misspells the plural, and so differs from the intended one. */
  lemma CartDescriptionAsWrittenMisspells(totalItems: int)
    requires totalItems != 0 && totalItems != 1
    ensures CartDescriptionAsWritten(totalItems) == IntToString(totalItems) + " itemns no seu orçamento"
    ensures CartDescriptionAsWritten(totalItems) != CartDescription(totalItems)
  {
    SuffixesDiffer(IntToString(totalItems), " itemns no seu orçamento", " itens no seu orçamento", 4);
  }

  /** The two agree on an empty cart and on a single item. */
  lemma CartDescriptionAsWrittenSingular(totalItems: int)
    requires totalItems == 0 || totalItems == 1
    ensures CartDescriptionAsWritten(totalItems) == CartDescription(totalItems)
  {
  }

  /** A non-empty cart's description says "itens" exactly when the count is not one. */
  lemma CartDescriptionPlural(totalItems: int)
    requires totalItems != 0
    ensures CartDescription(totalItems) == IntToString(totalItems) + " itens no seu orçamento" <==> totalItems != 1
  {
    if totalItems == 1 {
      SuffixesDiffer(IntToString(1), " item no seu orçamento", " itens no seu orçamento", 5);
    }
  }

  /** Two texts with a common head differ when their tails differ at some position. */
  lemma SuffixesDiffer(head: string, a: string, b: string, k: nat)
    requires k < |a| && k < |b| && a[k] != b[k]
    ensures head + a != head + b
  {
    assert (head + a)[|head| + k] == a[k];
    assert (head + b)[|head| + k] == b[k];
  }

  /** With the corrected text, too, the badge is drawn exactly when the description is not the empty-cart text. */
  lemma BadgeAndDescriptionAgree(totalItems: int)
    requires totalItems >= 0
    ensures ShowBadge(totalItems) <==> CartDescription(totalItems) != EmptyDescription
  {
  }

  /** The empty-cart view replaces the item list exactly when the quote would list no item. */
  function ShowEmptyState(items: seq<CartItem>): (r: bool)
    ensures r <==> OrderList(items) == ""
  {
    |items| == 0
  }

  /** The thumbnail of a cart line: its image, or the placeholder when it has none. */
  function ItemImage(item: CartItem): (r: string)
    ensures r != ""
    ensures item.image != "" ==> r == item.image
    ensures item.image == "" ==> r == PlaceholderImage
  {
    if item.image != "" then item.image else PlaceholderImage
  }

  // ---------------------------------------------------------------------------
  // the buttons of a cart line

  /** The minus button: ask for one less of this line. */
  function Decrease(item: CartItem): (r: CartCall)
    ensures r.UpdateQuantity? && r.id == item.id && r.quantity == item.quantity - 1
  {
    UpdateQuantity(item.id, item.quantity - 1)
  }

  /** The plus button: ask for one more of this line. */
  function Increase(item: CartItem): (r: CartCall)
    ensures r.UpdateQuantity? && r.id == item.id && r.quantity == item.quantity + 1
  {
    UpdateQuantity(item.id, item.quantity + 1)
  }

  /** The trash button: ask to remove this line. */
  function Remove(item: CartItem): (r: CartCall)
    ensures r.RemoveFromCart? && r.id == item.id
  {
    RemoveFromCart(item.id)
  }

  /**
   * A press of minus followed, once the store shows the requested quantity,
   * by a press of plus asks for the original quantity again, and the other
   * way round.
   */
  lemma DecreaseIncreaseCancel(item: CartItem)
    ensures Increase(item.(quantity := Decrease(item).quantity)) == UpdateQuantity(item.id, item.quantity)
    ensures Decrease(item.(quantity := Increase(item).quantity)) == UpdateQuantity(item.id, item.quantity)
  {
  }
}
