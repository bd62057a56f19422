/** The exchange's book of signed net positions, one entry per product with a non-zero net size. */
module Exchange {

  type Book = b: map<int, int> | forall p <- b :: b[p] != 0 witness map[]

  function Net(book: Book, product: int): int {
    if product in book then book[product] else 0
  }

  function WithNet(book: Book, product: int, net: int): Book {
    if net == 0 then book - {product} else book[product := net]
  }

  /** A market SELL of `size` lots. */
  function Sell(book: Book, product: int, size: int): Book {
    WithNet(book, product, Net(book, product) - size)
  }

  /** A reduce-only BUY: it shrinks a short towards zero and can never turn it into a long. */
  function BuyReduceOnly(book: Book, product: int, size: int): Book {
    if Net(book, product) >= 0 then book
    else if Net(book, product) + size >= 0 then WithNet(book, product, 0)
    else WithNet(book, product, Net(book, product) + size)
  }
}
