/** The alternate bid route: adding a bid to an auction's participant list
    under a strictly-higher rule, and editing or deleting a stored bid with no
    rule at all. Auctions are addressed by position; bids by an id drawn from
    a counter, kept in a map so that deletion removes them. A missing or
    non-numeric amount is `None`. */
module UserBids {
  import opened Common

  /** The fields of an auction this route reads and writes. */
  datatype BoardAuction = BoardAuction(currentBid: Option<int>, participants: seq<nat>)

  datatype UserBid = UserBid(auctionId: nat, userId: Option<string>, bidAmount: Option<int>)

  datatype RouteError = AuctionMissing | NotHigher | BidMissing

  /** The refusal test `bidAmount <= currentBid`: a comparison with a missing
      (undefined) value is false, so only two present amounts can refuse a bid.
      `None` stands for an absent field only: a JSON `null` amount compares as 0
      and would be refused whenever the current bid is non-negative. */
  function Refused(amount: Option<int>, current: Option<int>): (r: bool)
    ensures r <==> amount.Some? && current.Some? && amount.value <= current.value
    ensures !r && amount.Some? && current.Some? ==> amount.value > current.value
  {
    match (amount, current)
    case (Some(x), Some(c)) => x <= c
    case _ => false
  }

  /** A bid with no amount is admitted and clears the auction's current bid,
      after which any amount at all is admitted. */
  lemma MissingAmountClearsFloor(current: Option<int>, later: int)
    ensures !Refused(None, current)
    ensures !Refused(Some(later), None)
  {
  }

  class BidBoard {
    var auctions: seq<BoardAuction>
    var bids: map<nat, UserBid>
    var nextId: nat

    /** Every id handed out so far is below the counter, so a new id is unused. */
    ghost predicate Valid()
      reads this
    {
      && (forall k :: k in bids ==> k < nextId)
      && (forall i, j :: 0 <= i < |auctions| && 0 <= j < |auctions[i].participants| ==>
            auctions[i].participants[j] < nextId)
    }

    constructor (initial: seq<BoardAuction>)
      requires forall i :: 0 <= i < |initial| ==> initial[i].participants == []
      ensures Valid()
      ensures auctions == initial && bids == map[] && nextId == 0
    {
      auctions, bids, nextId := initial, map[], 0;
    }

    /** POST `/:auctionId/bid`: 404 for an unknown auction, 400 when the amount
        is not above the current bid; otherwise the bid is stored under a new
        id, the id is appended to the auction's participants and the amount
        becomes the current bid. */
    method AddBid(auctionId: nat, userId: Option<string>, amount: Option<int>) returns (r: Result<nat, RouteError>)
      requires Valid()
      modifies this
      ensures Valid()
      ensures auctionId >= old(|auctions|) ==> r == Err(AuctionMissing) && unchanged(this)
      ensures auctionId < old(|auctions|) && Refused(amount, old(auctions[auctionId].currentBid)) ==>
        r == Err(NotHigher) && unchanged(this)
      ensures auctionId < old(|auctions|) && !Refused(amount, old(auctions[auctionId].currentBid)) ==>
        && r == Ok(old(nextId)) && old(nextId) !in old(bids)
        && bids == old(bids)[old(nextId) := UserBid(auctionId, userId, amount)]
        && nextId == old(nextId) + 1
        && auctions == old(auctions)[auctionId :=
             BoardAuction(amount, old(auctions[auctionId].participants) + [old(nextId)])]
    {
      if auctionId >= |auctions| {
        return Err(AuctionMissing);
      }
      var a := auctions[auctionId];
      if Refused(amount, a.currentBid) {
        return Err(NotHigher);
      }
      var id := nextId;
      bids := bids[id := UserBid(auctionId, userId, amount)];
      nextId := nextId + 1;
      a := a.(participants := a.participants + [id]);
      a := a.(currentBid := amount);
      auctions := auctions[auctionId := a];
      r := Ok(id);
    }

    /** PUT `/:bidId`: 404 for an unknown bid; otherwise only the amount is
        replaced, with no comparison against the auction. */
    method EditBid(bidId: nat, amount: Option<int>) returns (r: Option<RouteError>)
      requires Valid()
      modifies this
      ensures Valid()
      ensures bidId !in old(bids) ==> r == Some(BidMissing) && unchanged(this)
      ensures bidId in old(bids) ==>
        && r.None?
        && bids == old(bids)[bidId := old(bids[bidId]).(bidAmount := amount)]
        && auctions == old(auctions) && nextId == old(nextId)
    {
      if bidId !in bids {
        return Some(BidMissing);
      }
      var bid := bids[bidId];
      bids := bids[bidId := bid.(bidAmount := amount)];
      r := None;
    }

    /** DELETE `/:bidId`: 404 for an unknown bid; otherwise the bid is removed,
        while the auction's participant list keeps its id. */
    method DeleteBid(bidId: nat) returns (r: Option<RouteError>)
      requires Valid()
      modifies this
      ensures Valid()
      ensures bidId !in old(bids) ==> r == Some(BidMissing) && unchanged(this)
      ensures bidId in old(bids) ==>
        && r.None? && bidId !in bids
        && bids == old(bids) - {bidId}
        && auctions == old(auctions) && nextId == old(nextId)
    {
      if bidId !in bids {
        return Some(BidMissing);
      }
      bids := bids - {bidId};
      r := None;
    }
  }
}
