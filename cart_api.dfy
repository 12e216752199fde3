/**
 * The interface of the cart store (`useCart()`), which is not part of this
 * model: the views only build candidates and requests for it and read its
 * `items` and `totalItems`. What the store does with a request is unknown here.
 */
module CartApi {
  import opened Wrappers

  /** The object passed to `addToCart`. Prices are whole cents. */
  datatype Candidate = Candidate(
    id: int,
    name: string,
    descricao: Option<string>,
    price: Option<int>,
    image: string,
    category: string)

  /** A line of the cart as the cart view reads it from the store. */
  datatype CartItem = CartItem(id: int, name: string, quantity: int, image: string, category: string)

  /** A call a view makes on the store. */
  datatype CartCall =
    | AddToCart(candidate: Candidate)
    | UpdateQuantity(id: int, quantity: int)
    | RemoveFromCart(id: int)
    | ClearCart
}
