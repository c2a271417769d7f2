/** The online auction of onlineAuction/onlineAuctionMediatorDP.js: an item
    whose status, highest bid and highest bidder change as bids arrive, the
    mediator that registers bidders and judges their bids, and the bidders who
    keep a history of their accepted bids. Amounts are exact reals. */
module Auction {
  import opened Common

  datatype AuctionStatus = Pending | Active | Completed | Cancelled

  /** Why the mediator refuses a bid, or that it accepts it. */
  datatype Verdict = NotActive | NotHigher | OverLimit | Accepted

  /** The part of an auction item that bids change, with the highest bidder named. */
  datatype Standing = Standing(status: AuctionStatus, highestBid: real, highestBidder: Option<string>)

  /** OnlineAuctionMediator.placeBid's checks, in order: the auction must be
      active, the bid must beat the highest bid, and a positive limit must not
      be exceeded (a limit of 0 means no limit). */
  function Judge(s: Standing, limit: real, amount: real): Verdict {
    if s.status != Active then NotActive
    else if amount <= s.highestBid then NotHigher
    else if limit > 0.0 && amount > limit then OverLimit
    else Accepted
  }

  /** The standing after a bid: an accepted bid becomes the highest; a refused one changes nothing. */
  function AfterBid(s: Standing, bidder: string, limit: real, amount: real): Standing {
    if Judge(s, limit, amount) == Accepted then s.(highestBid := amount, highestBidder := Some(bidder)) else s
  }

  /** AuctionItem.endAuction: sold when the highest bid reaches the reserve price. */
  function EndStatus(highestBid: real, reservePrice: real): (r: AuctionStatus)
    ensures r == Completed <==> highestBid >= reservePrice
    ensures r == Cancelled <==> highestBid < reservePrice
  {
    if highestBid >= reservePrice then Completed else Cancelled
  }

  /** A bid as placed by a bidder: who, with what limit, for how much. */
  datatype Bid = Bid(bidder: string, limit: real, amount: real)

  /** The standing after a series of bids, first bid first. */
  function Bids(s: Standing, bids: seq<Bid>): Standing
    decreases |bids|
  {
    if bids == [] then s else Bids(AfterBid(s, bids[0].bidder, bids[0].limit, bids[0].amount), bids[1..])
  }

  class AuctionItem {
    const id: string
    const name: string
    const startingPrice: real
    const reservePrice: real
    var currentHighestBid: real
    var highestBidder: Option<Bidder>
    var status: AuctionStatus

    /** The item's standing, with the highest bidder by name. */
    function Current(): Standing
      reads this
    {
      Standing(status, currentHighestBid, if highestBidder.Some? then Some(highestBidder.value.name) else None)
    }

    /** A new item waits to be started, at its starting price, without a bidder. */
    constructor(id: string, name: string, startingPrice: real, reservePrice: real)
      ensures this.id == id && this.name == name
      ensures this.startingPrice == startingPrice && this.reservePrice == reservePrice
      ensures Current() == Standing(Pending, startingPrice, None)
    {
      this.id := id;
      this.name := name;
      this.startingPrice := startingPrice;
      this.reservePrice := reservePrice;
      currentHighestBid := startingPrice;
      highestBidder := None;
      status := Pending;
    }

    method StartAuction()
      modifies this
      ensures status == Active
      ensures currentHighestBid == old(currentHighestBid) && highestBidder == old(highestBidder)
    {
      status := Active;
    }

    method EndAuction()
      modifies this
      ensures status == EndStatus(currentHighestBid, reservePrice)
      ensures currentHighestBid == old(currentHighestBid) && highestBidder == old(highestBidder)
    {
      status := if currentHighestBid >= reservePrice then Completed else Cancelled;
    }
  }

  /** An individual bidder; the abstract colleague's placeBid is this one. */
  class Bidder {
    const name: string
    const mediator: Mediator
    var maxBidLimit: real
    var currentBidAmount: real
    var bidHistory: seq<real>

    constructor(name: string, mediator: Mediator)
      ensures this.name == name && this.mediator == mediator
      ensures maxBidLimit == 0.0 && currentBidAmount == 0.0 && bidHistory == []
    {
      this.name := name;
      this.mediator := mediator;
      maxBidLimit := 0.0;
      currentBidAmount := 0.0;
      bidHistory := [];
    }

    method SetMaxBidLimit(amount: real)
      modifies this
      ensures maxBidLimit == amount
      ensures currentBidAmount == old(currentBidAmount) && bidHistory == old(bidHistory)
    {
      maxBidLimit := amount;
    }

    /** Places a bid through the mediator and records it only when it is accepted. */
    method PlaceBid(amount: real) returns (accepted: bool)
      modifies this, mediator.auction
      ensures accepted <==> Judge(old(mediator.auction.Current()), old(maxBidLimit), amount) == Accepted
      ensures mediator.auction.Current() == AfterBid(old(mediator.auction.Current()), name, old(maxBidLimit), amount)
      ensures maxBidLimit == old(maxBidLimit)
      ensures accepted ==> currentBidAmount == amount && bidHistory == old(bidHistory) + [amount]
      ensures !accepted ==> currentBidAmount == old(currentBidAmount) && bidHistory == old(bidHistory)
    {
      accepted := mediator.PlaceBid(this, amount);
      if accepted {
        currentBidAmount := amount;
        bidHistory := bidHistory + [amount];
      }
    }
  }

  class Mediator {
    var bidders: map<string, Bidder>
    const auction: AuctionItem

    constructor(auction: AuctionItem)
      ensures this.auction == auction && bidders == map[]
    {
      this.auction := auction;
      bidders := map[];
    }

    /** Registers a bidder under a name that is not taken yet. */
    method RegisterBidder(bidder: Bidder) returns (ok: bool)
      modifies this
      ensures ok <==> bidder.name !in old(bidders)
      ensures bidders == if ok then old(bidders)[bidder.name := bidder] else old(bidders)
    {
      if bidder.name !in bidders {
        bidders := bidders[bidder.name := bidder];
        return true;
      }
      return false;
    }

    /** Judges a bid; an accepted bid becomes the item's highest. The bidder
        need not be registered. Notifying the other bidders only prints. */
    method PlaceBid(bidder: Bidder, amount: real) returns (accepted: bool)
      modifies auction
      ensures accepted <==> Judge(old(auction.Current()), bidder.maxBidLimit, amount) == Accepted
      ensures accepted ==> auction.currentHighestBid == amount && auction.highestBidder == Some(bidder)
      ensures auction.Current() == AfterBid(old(auction.Current()), bidder.name, bidder.maxBidLimit, amount)
      ensures auction.status == old(auction.status)
    {
      if auction.status != Active {
        return false;
      }
      if amount <= auction.currentHighestBid {
        return false;
      }
      if bidder.maxBidLimit > 0.0 && amount > bidder.maxBidLimit {
        return false;
      }
      auction.currentHighestBid := amount;
      auction.highestBidder := Some(bidder);
      return true;
    }
  }

  // ---------------------------------------------------------------------
  // Properties of bidding

  /** An accepted bid strictly raises the highest bid, and only an active
      auction accepts; a refused bid leaves the standing as it was. */
  lemma AcceptedRaises(s: Standing, bidder: string, limit: real, amount: real)
    ensures Judge(s, limit, amount) == Accepted ==>
      s.status == Active && AfterBid(s, bidder, limit, amount).highestBid > s.highestBid &&
      (limit > 0.0 ==> amount <= limit)
    ensures Judge(s, limit, amount) != Accepted ==> AfterBid(s, bidder, limit, amount) == s
    ensures AfterBid(s, bidder, limit, amount).status == s.status
  {
  }

  /** Over any series of bids the highest bid never falls and the status never
      changes; if the highest bid moved, the auction was active. */
  lemma {:induction false} BidsNeverLower(s: Standing, bids: seq<Bid>)
    ensures Bids(s, bids).highestBid >= s.highestBid
    ensures Bids(s, bids).status == s.status
    ensures s.status != Active ==> Bids(s, bids) == s
    decreases |bids|
  {
    if bids != [] {
      AcceptedRaises(s, bids[0].bidder, bids[0].limit, bids[0].amount);
      BidsNeverLower(AfterBid(s, bids[0].bidder, bids[0].limit, bids[0].amount), bids[1..]);
    }
  }

  /** The demonstration: a watch starting at 1000 with reserve 1500; Alice
      (limit 2000) bids 1200, Bob (1800) 1300, Charlie (2500) 1500 and Alice
      1600. Every bid is accepted and the auction closes sold to Alice at 1600. */
  lemma DemoAuction()
    ensures var bids := [Bid("Alice", 2000.0, 1200.0), Bid("Bob", 1800.0, 1300.0),
                         Bid("Charlie", 2500.0, 1500.0), Bid("Alice", 2000.0, 1600.0)];
      var closing := Bids(Standing(Active, 1000.0, None), bids);
      closing == Standing(Active, 1600.0, Some("Alice")) && EndStatus(closing.highestBid, 1500.0) == Completed
  {
    var bids := [Bid("Alice", 2000.0, 1200.0), Bid("Bob", 1800.0, 1300.0),
                 Bid("Charlie", 2500.0, 1500.0), Bid("Alice", 2000.0, 1600.0)];
    assert bids[1..][1..][1..][1..] == [];
  }
}
