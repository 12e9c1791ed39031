/** The auction handlers as steps on an in-memory store. The store holds the
    auction, bid and notification collections; an auction's or a bid's id is its
    position in its collection. Each handler reads, validates and writes back in
    one step, and its postcondition ties the new collections to the rules of
    AuctionEngine and AuctionNotices. */
module AuctionStore {
  import opened Common
  import opened AuctionEngine
  import opened AuctionNotices

  class Store {
    var auctions: seq<Auction>
    var bids: seq<Bid>
    var notifications: seq<Notification>

    ghost predicate Valid()
      reads this
    {
      && (forall i :: 0 <= i < |auctions| ==> auctions[i].id == i)
      && (forall i :: 0 <= i < |bids| ==> bids[i].id == i && bids[i].auction < |auctions|)
    }

    constructor ()
      ensures Valid()
      ensures auctions == [] && bids == [] && notifications == []
    {
      auctions, bids, notifications := [], [], [];
    }

    /** `createAuction`: validates the request and stores the new auction. */
    method CreateAuction(req: CreateRequest, user: Option<UserId>, now: int) returns (r: Result<nat, CreateError>)
      requires Valid()
      modifies this
      ensures Valid()
      ensures var made := NewAuction(req, user, old(|auctions|), now);
        && (made.Err? ==> r == Err(made.error) && auctions == old(auctions))
        && (made.Ok? ==> r == Ok(old(|auctions|)) && auctions == old(auctions) + [made.value])
      ensures bids == old(bids) && notifications == old(notifications)
    {
      var made := NewAuction(req, user, |auctions|, now);
      if made.Err? {
        return Err(made.error);
      }
      r := Ok(|auctions|);
      auctions := auctions + [made.value];
    }

    /** `placeBid`: the price rule, then the token and e-mail checks, then the
        bid is recorded, the auction's price and leader are overwritten, its id
        is appended to the auction's bids, and a bid receipt is stored. */
    method PlaceBid(id: nat, bidder: UserId, amount: Option<int>, hasToken: bool, emailCookie: Option<string>, now: int)
      returns (r: Result<nat, BidError>)
      requires Valid()
      modifies this
      ensures Valid()
      ensures id >= old(|auctions|) ==> r == Err(AuctionNotFound) && unchanged(this)
      ensures id < old(|auctions|) ==>
        var a := old(auctions[id]);
        var why := BidRejection(a, amount, hasToken, emailCookie);
        && (why.Some? ==> r == Err(why.value) && unchanged(this))
        && (why.None? ==>
              && r == Ok(old(|bids|))
              && auctions == old(auctions)[id := WithBid(a, old(|bids|), bidder, emailCookie.value, amount.value)]
              && bids == old(bids) + [Bid(old(|bids|), id, Some(bidder), amount.value, now)]
              && notifications == old(notifications) + [Notification(bidder, BidPlaced(a.name), BidSuccess)])
    {
      if id >= |auctions| {
        return Err(AuctionNotFound);
      }
      var a := auctions[id];
      if amount.Some? && amount.value < a.currentPrice + a.minimumBidIncrement {
        return Err(BidTooLow);
      }
      if !hasToken {
        return Err(NoToken);
      }
      if !Present(emailCookie) {
        return Err(NoEmailCookie);
      }
      if amount.None? {
        // the auction fails validation on save without a price; nothing is written
        return Err(SaveFailed);
      }
      var bidId := |bids|;
      var bid := Bid(bidId, id, Some(bidder), amount.value, now);
      a := a.(currentPrice := amount.value);
      a := a.(highestBidder := Some(bidder));
      a := a.(highestBidderEmail := emailCookie);
      a := a.(bids := a.bids + [bidId]);
      auctions := auctions[id := a];
      bids := bids + [bid];
      notifications := notifications + [Notification(bidder, BidPlaced(a.name), BidSuccess)];
      r := Ok(bidId);
    }

    /** `endAuctions`, the scheduled sweep: every active auction whose expiry has
        passed is closed at its current price with a payment deadline. */
    method EndAuctions(now: int)
      requires Valid()
      modifies this
      ensures Valid()
      ensures auctions == Swept(old(auctions), now)
      ensures bids == old(bids) && notifications == old(notifications)
    {
      for i := 0 to |auctions|
        invariant |auctions| == |old(auctions)|
        invariant forall k :: 0 <= k < i ==> auctions[k] == Swept(old(auctions), now)[k]
        invariant forall k :: i <= k < |auctions| ==> auctions[k] == old(auctions)[k]
        invariant bids == old(bids) && notifications == old(notifications)
      {
        var a := auctions[i];
        if a.status == Active && a.expiresAt <= now {
          a := a.(status := Ended);
          a := a.(finalPrice := Some(a.currentPrice));
          a := a.(paymentDeadline := Some(now + PaymentWindowMs));
          auctions := auctions[i := a];
        }
      }
    }

    /** `checkAndEndAuctions`, the unscheduled twin: closes the same auctions at
        their current price, sets no payment deadline, and attempts to fill in a
        missing winner e-mail from the user records. */
    method CheckAndEndAuctions(directory: map<UserId, string>, now: int)
      requires Valid()
      modifies this
      ensures Valid()
      ensures auctions == CheckSwept(old(auctions), now, directory)
      ensures bids == old(bids) && notifications == old(notifications)
    {
      for i := 0 to |auctions|
        invariant |auctions| == |old(auctions)|
        invariant forall k :: 0 <= k < i ==> auctions[k] == CheckSwept(old(auctions), now, directory)[k]
        invariant forall k :: i <= k < |auctions| ==> auctions[k] == old(auctions)[k]
        invariant bids == old(bids) && notifications == old(notifications)
      {
        var a := auctions[i];
        if a.status == Active && a.expiresAt <= now {
          var email := RepairedEmail(a, directory);
          a := a.(status := Ended);
          a := a.(finalPrice := Some(a.currentPrice));
          a := a.(highestBidderEmail := email);
          auctions := auctions[i := a];
        }
      }
    }

    /** `forceEndAuctions`: every active auction is closed at its current price,
        whatever its expiry; no payment deadline is set. */
    method ForceEndAuctions()
      requires Valid()
      modifies this
      ensures Valid()
      ensures auctions == ForceSwept(old(auctions))
      ensures bids == old(bids) && notifications == old(notifications)
    {
      for i := 0 to |auctions|
        invariant |auctions| == |old(auctions)|
        invariant forall k :: 0 <= k < i ==> auctions[k] == ForceSwept(old(auctions))[k]
        invariant forall k :: i <= k < |auctions| ==> auctions[k] == old(auctions)[k]
        invariant bids == old(bids) && notifications == old(notifications)
      {
        var a := auctions[i];
        if a.status == Active {
          a := a.(status := Ended);
          a := a.(finalPrice := Some(a.currentPrice));
          auctions := auctions[i := a];
        }
      }
    }

    /** `forceEndAuctionById`: an unknown id and an ended auction are refused
        and change nothing; otherwise that one auction is force-closed. */
    method ForceEndAuctionById(id: nat) returns (r: Option<ForceEndError>)
      requires Valid()
      modifies this
      ensures Valid()
      ensures id >= old(|auctions|) ==> r == Some(EndNotFound) && unchanged(this)
      ensures id < old(|auctions|) && old(auctions[id]).status == Ended ==>
        r == Some(AlreadyEnded) && unchanged(this)
      ensures id < old(|auctions|) && old(auctions[id]).status == Active ==>
        r.None? && auctions == old(auctions)[id := ForceClosed(old(auctions[id]))]
      ensures bids == old(bids) && notifications == old(notifications)
    {
      if id >= |auctions| {
        return Some(EndNotFound);
      }
      var a := auctions[id];
      if a.status == Ended {
        return Some(AlreadyEnded);
      }
      a := a.(status := Ended);
      a := a.(finalPrice := Some(a.currentPrice));
      auctions := auctions[id := a];
      r := None;
    }

    /** `forceExpirePayment`: on an ended auction, repairs a missing payment
        deadline, then hands the win to the second-ranked bid on the auction. */
    method ForceExpirePayment(id: nat, directory: map<UserId, string>, now: int) returns (r: Option<ReassignError>)
      requires Valid()
      modifies this
      ensures Valid()
      ensures id >= old(|auctions|) ==> r == Some(PaymentNotFound) && unchanged(this)
      ensures id < old(|auctions|) ==>
        var (after, err) := ExpirePayment(old(auctions[id]), old(bids), directory, now);
        r == err && auctions == old(auctions)[id := after]
      ensures bids == old(bids) && notifications == old(notifications)
    {
      if id >= |auctions| {
        return Some(PaymentNotFound);
      }
      var a := auctions[id];
      if a.status != Ended {
        return Some(StillActive);
      }
      var ranked := RankedBids(bids, id);
      ghost var out := ReassignFrom(a, ranked, directory, now);
      assert ExpirePayment(a, bids, directory, now) == out;
      if a.paymentDeadline.None? {
        a := a.(paymentDeadline := Some(now));
      }
      if |ranked| <= 1 {
        r := Some(NoNextBidder);
      } else {
        var next := ranked[1];
        if next.user.None? {
          r := Some(NextBidderMissing);
        } else {
          var email := EmailOf(directory, next.user.value);
          if email.None? {
            r := Some(NextBidderNoEmail);
          } else {
            a := a.(highestBidder := next.user, highestBidderEmail := email,
                    finalPrice := Some(next.amount), paymentDeadline := Some(now + PaymentWindowMs));
            r := None;
          }
        }
      }
      assert out == (a, r);
      auctions := auctions[id := a];
    }

    /** `handleAuctionNotifications`: the "ending soon" pass, then the "you won"
        pass, each creating a notice only when no equal one exists. */
    method HandleAuctionNotifications(directory: map<UserId, string>, now: int)
      requires Valid()
      modifies this
      ensures Valid()
      ensures notifications == Notify(auctions, directory, now, old(notifications))
      ensures auctions == old(auctions) && bids == old(bids)
    {
      for i := 0 to |auctions|
        invariant auctions == old(auctions) && bids == old(bids)
        invariant Pass(auctions[i..], notifications, WarningRule(directory, now))
               == Pass(auctions, old(notifications), WarningRule(directory, now))
      {
        PassStep(auctions, i, notifications, WarningRule(directory, now));
        var n := WarningFor(auctions[i], directory, now);
        if n.Some? && n.value !in notifications {
          notifications := notifications + [n.value];
        }
      }
      assert auctions[|auctions|..] == [];
      ghost var warned := notifications;
      for i := 0 to |auctions|
        invariant auctions == old(auctions) && bids == old(bids)
        invariant Pass(auctions[i..], notifications, EndRule(directory, now))
               == Pass(auctions, warned, EndRule(directory, now))
      {
        PassStep(auctions, i, notifications, EndRule(directory, now));
        var n := EndNoticeFor(auctions[i], directory, now);
        if n.Some? && n.value !in notifications {
          notifications := notifications + [n.value];
        }
      }
    }
  }
}
