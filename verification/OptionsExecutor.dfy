/** One option leg and the venue it trades on, call by call.  What the network does to a request is
    its `Fate`, chosen by the caller's environment. */
module OptionsExecutor {
  import opened Common
  import opened Exchange

  /** `reaches`: the exchange acts on the request; `replies`: its answer gets back to the bot. */
  datatype Fate = Fate(reaches: bool, replies: bool)

  datatype Reply = Accepted | NoPosition | Failed

  class Venue {
    var book: Book

    constructor () ensures book == map[] { book := map[]; }

    method PlaceSell(product: int, size: int, fate: Fate) returns (reply: Reply)
      modifies this
      ensures book == if fate.reaches then Sell(old(book), product, size) else old(book)
      ensures reply == if fate.reaches && fate.replies then Accepted else Failed
    {
      if fate.reaches { book := Sell(book, product, size); }
      reply := if fate.reaches && fate.replies then Accepted else Failed;
    }

    /** A reduce-only buy is refused when there is no short to reduce. */
    method PlaceReduceOnlyBuy(product: int, size: int, fate: Fate) returns (reply: Reply)
      modifies this
      ensures book == if fate.reaches then BuyReduceOnly(old(book), product, size) else old(book)
      ensures reply == CloseReply(old(book), product, fate)
    {
      reply := CloseReply(book, product, fate);
      if fate.reaches { book := BuyReduceOnly(book, product, size); }
    }
  }

  function CloseReply(book: Book, product: int, fate: Fate): Reply {
    if !fate.reaches || !fate.replies then Failed
    else if Net(book, product) < 0 then Accepted else NoPosition
  }

  class OptionsExecutor {
    var productId: Option<int>
    var size: int
    const venue: Venue

    constructor (venue: Venue)
      ensures this.venue == venue && productId == None && size == 0
    {
      this.venue, productId, size := venue, None, 0;
    }

    /** open_option_by_premium once a contract is chosen.  `average` is the price the order reply carries,
        `seen` what each of the two position queries answers if it gets through: an entry price, or
        none.  Returns whether it raised, and the entry price, which falls back on the mark. */
    method OpenByPremium(product: int, lots: int, mark: real, fate: Fate, average: Option<real>, queryOk: bool,
                         first: Option<real>, second: Option<real>)
      returns (raised: bool, fill: Option<real>)
      requires lots > 0
      modifies this, venue
      ensures old(productId).Some? ==>
        productId == old(productId) && venue.book == old(venue.book) && !raised && fill == None
      ensures old(productId).None? ==>
        && venue.book == (if fate.reaches then Sell(old(venue.book), product, lots) else old(venue.book))
        && raised == (productId == None)
        && (productId == Some(product) || productId == None)
      // Starting from a flat product, the leg is tracked with its exact live size unless the reply was
      // lost after the order executed and the position query failed too.
      ensures old(productId).None? && Net(old(venue.book), product) == 0 ==>
        var tracked := if productId == Some(product) then size else 0;
        (Net(venue.book, product) == -tracked <==> !(fate.reaches && !fate.replies && !queryOk))
      // A leg that is tracked always comes with an entry price: the reply's or the position's, and
      // when that is missing the position's again, unless it is missing or zero, and then the mark.
      ensures old(productId).None? ==> (fill.Some? <==> !raised)
      ensures old(productId).None? && !raised ==>
        var told := if fate.reaches && fate.replies then average else first;
        fill == if told.Some? then told else Some(if second.Some? && second.value != 0.0 then second.value else mark)
    {
      if productId.Some? { return false, None; }
      var reply := venue.PlaceSell(product, lots, fate);
      fill := average;
      if reply == Failed {
        var found := queryOk && Net(venue.book, product) != 0;
        if !found { return true, None; }
        fill := first;
      }
      productId, size := Some(product), lots;
      if fill.None? {
        fill := Some(if second.Some? && second.value != 0.0 then second.value else mark);
      }
      raised := false;
    }

    /** close_option: tracking is dropped only on an accepted close or a "no position" refusal; `filled` tells that
        there was a short and its close came back. */
    method CloseOption(fate: Fate) returns (raised: bool, filled: bool)
      modifies this, venue
      ensures raised == (old(productId).Some? && !(fate.reaches && fate.replies))
      ensures filled == (old(productId).Some? && fate.reaches && fate.replies && Net(old(venue.book), old(productId).value) < 0)
      ensures productId == (if raised then old(productId) else None)
      ensures old(productId).Some? ==> size == if raised then old(size) else 0
      ensures venue.book ==
        if old(productId).Some? && fate.reaches then BuyReduceOnly(old(venue.book), old(productId).value, old(size))
        else old(venue.book)
    {
      if productId.None? { return false, false; }
      var reply := venue.PlaceReduceOnlyBuy(productId.value, size, fate);
      if reply == Failed { return true, false; }
      productId, size := None, 0;
      raised, filled := false, reply == Accepted;
    }
  }
}
