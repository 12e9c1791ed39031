/** The auction records and the pure rules of the auction lifecycle in
    controllers/auctionController.js: creation, bid admission, the two expiry
    sweeps, the administrative force-close paths and the payment-timeout
    reassignment. Each rule is a function from the records it reads to the
    record it writes back; the store in auction_store.dfy applies them in place. */
module AuctionEngine {
  import opened Common
  import opened Ranking

  type UserId = string

  datatype Status = Active | Ended

  /** An auction document as the controller reads and writes it. */
  datatype Auction = Auction(
    id: nat,
    name: string,
    description: string,
    image: string,
    category: string,
    owner: UserId,
    startingPrice: int,
    currentPrice: int,
    minimumBidIncrement: int,
    expiresAt: int,
    status: Status,
    highestBidder: Option<UserId>,
    highestBidderEmail: Option<string>,
    bids: seq<nat>,
    finalPrice: Option<int>,
    paymentDeadline: Option<int>,
    winner: Option<UserId>)

  /** A bid document; `user` may be missing in stored data. */
  datatype Bid = Bid(id: nat, auction: nat, user: Option<UserId>, amount: int, createdAt: int)

  const DefaultBidIncrement: int := 10
  const AuctionLifetimeMs: int := 5 * MinuteMs
  const PaymentWindowMs: int := 5 * MinuteMs
  const DefaultImage: string := "https://example.com/default.jpg"

  /** The fourteen category keys an auction may be listed under. */
  const Categories: seq<string> := [
    "designer_toys", "vinyl_figures", "resin_figures", "blind_box",
    "anime_figures", "movie_game_collectibles", "robot_mecha",
    "soft_vinyl", "kaiju_monsters", "diy_custom", "retro_vintage",
    "limited_edition", "gunpla_models", "plastic_models"]

  // ---------------------------------------------------------------- creation

  datatype CreateRequest = CreateRequest(
    name: Option<string>,
    description: Option<string>,
    startingPrice: Option<int>,
    minimumBidIncrement: Option<int>,
    image: Option<string>,
    category: Option<string>)

  datatype CreateError = MissingFields | InvalidCategory | Unauthorized

  /** `!startingPrice` rejects an absent price and the price 0 alike. */
  predicate PriceGiven(p: Option<int>) {
    p.Some? && p.value != 0
  }

  /** Validates a creation request in the handler's order and builds the new
      auction: missing fields first, then the category, then the caller's id. */
  function NewAuction(req: CreateRequest, user: Option<UserId>, id: nat, now: int): (r: Result<Auction, CreateError>)
    ensures r == Err(MissingFields) <==>
      !Present(req.name) || !PriceGiven(req.startingPrice) || !Present(req.category)
    ensures r == Err(InvalidCategory) <==>
      Present(req.name) && PriceGiven(req.startingPrice) && Present(req.category)
      && req.category.value !in Categories
    ensures r == Err(Unauthorized) <==>
      Present(req.name) && PriceGiven(req.startingPrice) && Present(req.category)
      && req.category.value in Categories && !Present(user)
    ensures r.Ok? ==>
      && r.value.id == id
      && r.value.owner == user.value
      && r.value.category in Categories
      && r.value.startingPrice == req.startingPrice.value
      && r.value.currentPrice == r.value.startingPrice
      && r.value.minimumBidIncrement ==
           (if req.minimumBidIncrement.Some? then req.minimumBidIncrement.value else DefaultBidIncrement)
      && r.value.expiresAt == now + AuctionLifetimeMs
      && r.value.status == Active
      && r.value.bids == []
      && r.value.highestBidder.None?
      && r.value.finalPrice.None? && r.value.paymentDeadline.None?
  {
    if !Present(req.name) || !PriceGiven(req.startingPrice) || !Present(req.category) then
      Err(MissingFields)
    else if req.category.value !in Categories then
      Err(InvalidCategory)
    else if !Present(user) then
      Err(Unauthorized)
    else
      Ok(Auction(
        id := id,
        name := req.name.value,
        description := if Present(req.description) then req.description.value else "",
        image := if Present(req.image) then req.image.value else DefaultImage,
        category := req.category.value,
        owner := user.value,
        startingPrice := req.startingPrice.value,
        currentPrice := req.startingPrice.value,
        minimumBidIncrement :=
          if req.minimumBidIncrement.Some? then req.minimumBidIncrement.value else DefaultBidIncrement,
        expiresAt := now + AuctionLifetimeMs,
        status := Active,
        highestBidder := None,
        highestBidderEmail := None,
        bids := [],
        finalPrice := None,
        paymentDeadline := None,
        winner := None))
  }

  // ---------------------------------------------------------- bid admission

  datatype BidError = AuctionNotFound | BidTooLow | NoToken | NoEmailCookie | SaveFailed

  predicate TooLow(a: Auction, amount: Option<int>) {
    amount.Some? && amount.value < a.currentPrice + a.minimumBidIncrement
  }

  /** Why a bid on an existing auction is refused, or None when it is admitted.
      The price rule comes first, then the access token, then the e-mail cookie.
      An absent amount slips past the price rule (a comparison with an undefined
      amount is false) and is refused only when the auction is saved. */
  function BidRejection(a: Auction, amount: Option<int>, hasToken: bool, emailCookie: Option<string>): (r: Option<BidError>)
    ensures r == Some(BidTooLow) <==> TooLow(a, amount)
    ensures r == Some(NoToken) <==> !TooLow(a, amount) && !hasToken
    ensures r == Some(NoEmailCookie) <==> !TooLow(a, amount) && hasToken && !Present(emailCookie)
    ensures r == Some(SaveFailed) <==> amount.None? && hasToken && Present(emailCookie)
    ensures r.None? <==>
      amount.Some? && amount.value >= a.currentPrice + a.minimumBidIncrement
      && hasToken && Present(emailCookie)
  {
    if TooLow(a, amount) then Some(BidTooLow)
    else if !hasToken then Some(NoToken)
    else if !Present(emailCookie) then Some(NoEmailCookie)
    else if amount.None? then Some(SaveFailed)
    else None
  }

  /** The auction after an admitted bid: new price, new leader, one more bid id. */
  function WithBid(a: Auction, bidId: nat, bidder: UserId, email: string, amount: int): (r: Auction)
    ensures r.currentPrice == amount && r.highestBidder == Some(bidder) && r.highestBidderEmail == Some(email)
    ensures r.bids == a.bids + [bidId]
    ensures r.(currentPrice := a.currentPrice, highestBidder := a.highestBidder,
               highestBidderEmail := a.highestBidderEmail, bids := a.bids) == a
  {
    a.(currentPrice := amount, highestBidder := Some(bidder),
       highestBidderEmail := Some(email), bids := a.bids + [bidId])
  }

  /** An admitted bid raises the price by at least the increment, appends exactly
      its id and leaves the earlier bid ids, the lifecycle fields and the
      settlement fields as they were. */
  lemma AdmittedBidRaisesPrice(a: Auction, bidId: nat, bidder: UserId, email: string, amount: int)
    requires BidRejection(a, Some(amount), true, Some(email)) == None
    ensures var b := WithBid(a, bidId, bidder, email, amount);
      && b.currentPrice >= a.currentPrice + a.minimumBidIncrement
      && b.highestBidder == Some(bidder)
      && |b.bids| == |a.bids| + 1 && b.bids[..|a.bids|] == a.bids && b.bids[|a.bids|] == bidId
      && b.status == a.status && b.expiresAt == a.expiresAt
      && b.finalPrice == a.finalPrice && b.paymentDeadline == a.paymentDeadline
      && b.startingPrice == a.startingPrice && b.minimumBidIncrement == a.minimumBidIncrement
  {
  }

  /** Admission reads only the price fields: an ended or expired auction, the
      owner bidding on their own auction, and the current leader bidding again
      are all admitted on the same terms. */
  lemma AdmissionIgnoresLifecycle(a: Auction, s: Status, t: int, leader: Option<UserId>, owner: UserId,
                                  amount: Option<int>, hasToken: bool, email: Option<string>)
    ensures BidRejection(a.(status := s, expiresAt := t, highestBidder := leader, owner := owner),
                         amount, hasToken, email)
         == BidRejection(a, amount, hasToken, email)
  {
  }

  /** One bid request as the handler receives it. */
  datatype BidAttempt = BidAttempt(bidder: UserId, amount: Option<int>, hasToken: bool, emailCookie: Option<string>)

  /** The auction after a series of bid requests, bid ids being handed out from `nextBidId`. */
  function Replay(a: Auction, attempts: seq<BidAttempt>, nextBidId: nat): Auction
    decreases |attempts|
  {
    if attempts == [] then a
    else
      var t := attempts[0];
      if BidRejection(a, t.amount, t.hasToken, t.emailCookie).None? then
        Replay(WithBid(a, nextBidId, t.bidder, t.emailCookie.value, t.amount.value), attempts[1..], nextBidId + 1)
      else
        Replay(a, attempts[1..], nextBidId)
  }

  /** With a non-negative increment the price never falls over any series of bid
      requests, and earlier bid ids are never rewritten. */
  lemma {:induction false} PriceNeverFalls(a: Auction, attempts: seq<BidAttempt>, nextBidId: nat)
    requires a.minimumBidIncrement >= 0
    ensures var b := Replay(a, attempts, nextBidId);
      && b.currentPrice >= a.currentPrice
      && a.bids <= b.bids
      && b.status == a.status && b.minimumBidIncrement == a.minimumBidIncrement
    decreases |attempts|
  {
    if attempts != [] {
      var t := attempts[0];
      if BidRejection(a, t.amount, t.hasToken, t.emailCookie).None? {
        var a' := WithBid(a, nextBidId, t.bidder, t.emailCookie.value, t.amount.value);
        PriceNeverFalls(a', attempts[1..], nextBidId + 1);
      } else {
        PriceNeverFalls(a, attempts[1..], nextBidId);
      }
    }
  }

  /** Creation accepts any increment, so a negative one lets an admitted bid
      lower the price. */
  lemma NegativeIncrementLowersPrice()
    ensures var req := CreateRequest(Some("lot"), None, Some(100), Some(-20), None, Some("blind_box"));
      var r := NewAuction(req, Some("seller"), 0, 0);
      && r.Ok?
      && BidRejection(r.value, Some(90), true, Some("b@x.io")) == None
      && WithBid(r.value, 0, "bidder", "b@x.io", 90).currentPrice < r.value.currentPrice
  {
    assert "blind_box" in Categories;
  }

  // ----------------------------------------------------------- expiry sweeps

  predicate DueForClose(a: Auction, now: int) {
    a.status == Active && a.expiresAt <= now
  }

  /** The scheduled sweep's change to one auction. */
  function Closed(a: Auction, now: int): Auction {
    a.(status := Ended, finalPrice := Some(a.currentPrice), paymentDeadline := Some(now + PaymentWindowMs))
  }

  /** The whole store after the scheduled sweep at `now`. */
  function Swept(s: seq<Auction>, now: int): (r: seq<Auction>)
    ensures |r| == |s|
    ensures forall i :: 0 <= i < |r| ==> !DueForClose(r[i], now) && r[i].id == s[i].id
  {
    seq(|s|, i requires 0 <= i < |s| => if DueForClose(s[i], now) then Closed(s[i], now) else s[i])
  }

  /** The sweep closes every due auction at its current price with a payment
      deadline five minutes out, touches nothing else, and leaves nothing due. */
  lemma SweepClosesExactlyTheDue(s: seq<Auction>, now: int, i: nat)
    requires i < |s|
    ensures var r := Swept(s, now);
      && (DueForClose(s[i], now) ==>
            r[i].status == Ended && r[i].finalPrice == Some(s[i].currentPrice)
            && r[i].paymentDeadline == Some(now + PaymentWindowMs)
            && r[i].currentPrice == s[i].currentPrice && r[i].highestBidder == s[i].highestBidder)
      && (!DueForClose(s[i], now) ==> r[i] == s[i])
      && !DueForClose(r[i], now)
  {
  }

  /** A second sweep at the same instant is a no-op. */
  lemma SweepIdempotent(s: seq<Auction>, now: int)
    ensures Swept(Swept(s, now), now) == Swept(s, now)
  {
  }

  /** An auction closes exactly once: a later sweep neither reopens nor
      re-prices it, nor moves its payment deadline. */
  lemma ClosedOnce(s: seq<Auction>, t1: int, t2: int, i: nat)
    requires i < |s| && DueForClose(s[i], t1)
    ensures Swept(Swept(s, t1), t2)[i] == Swept(s, t1)[i]
  {
  }

  /** The force-close change to one auction: no payment deadline is set. */
  function ForceClosed(a: Auction): Auction {
    a.(status := Ended, finalPrice := Some(a.currentPrice))
  }

  /** The store after every active auction is force-closed, whatever its expiry. */
  function ForceSwept(s: seq<Auction>): (r: seq<Auction>)
    ensures |r| == |s|
    ensures forall i :: 0 <= i < |r| ==> r[i].status == Ended && r[i].id == s[i].id
  {
    seq(|s|, i requires 0 <= i < |s| => if s[i].status == Active then ForceClosed(s[i]) else s[i])
  }

  /** Force-closing leaves no auction active, prices each closed one at its
      current price, and never touches payment deadlines or ended auctions. */
  lemma ForceSweepClosesAllActive(s: seq<Auction>, i: nat)
    requires i < |s|
    ensures var r := ForceSwept(s);
      && r[i].status == Ended
      && r[i].paymentDeadline == s[i].paymentDeadline
      && (s[i].status == Active ==> r[i].finalPrice == Some(s[i].currentPrice))
      && (s[i].status == Ended ==> r[i] == s[i])
  {
  }

  /** The e-mail an unscheduled sweep leaves on a closed auction: the winner's
      address is read through the user record and, when neither that read nor the
      stored address yields one, read again from the same user record. */
  function RepairedEmail(a: Auction, directory: map<UserId, string>): Option<string> {
    var populated := if a.highestBidder.Some? then EmailOf(directory, a.highestBidder.value) else None;
    var winnerEmail := if populated.Some? then populated else a.highestBidderEmail;
    if !Present(winnerEmail) && a.highestBidder.Some? then
      match EmailOf(directory, a.highestBidder.value)
      case Some(e) => Some(e)
      case None => a.highestBidderEmail
    else a.highestBidderEmail
  }

  /** The address of a user, None for an unknown user or an empty address. */
  function EmailOf(directory: map<UserId, string>, u: UserId): (r: Option<string>)
    ensures r.Some? <==> u in directory && directory[u] != ""
    ensures r.Some? ==> r.value == directory[u]
  {
    if u in directory && directory[u] != "" then Some(directory[u]) else None
  }

  /** Both reads see the same user record, so the repair branch never writes:
      the unscheduled sweep never changes the stored winner e-mail. */
  lemma RepairNeverFires(a: Auction, directory: map<UserId, string>)
    ensures RepairedEmail(a, directory) == a.highestBidderEmail
  {
  }

  /** The unscheduled sweep's change to one auction: closed at its current price,
      no payment deadline. */
  function CheckClosed(a: Auction, directory: map<UserId, string>): Auction {
    a.(status := Ended, finalPrice := Some(a.currentPrice), highestBidderEmail := RepairedEmail(a, directory))
  }

  function CheckSwept(s: seq<Auction>, now: int, directory: map<UserId, string>): (r: seq<Auction>)
    ensures |r| == |s|
    ensures forall i :: 0 <= i < |r| ==> !DueForClose(r[i], now) && r[i].id == s[i].id
  {
    seq(|s|, i requires 0 <= i < |s| => if DueForClose(s[i], now) then CheckClosed(s[i], directory) else s[i])
  }

  /** The unscheduled sweep is the scheduled one without the payment deadline. */
  lemma CheckSweepIsSweepWithoutDeadline(s: seq<Auction>, now: int, directory: map<UserId, string>, i: nat)
    requires i < |s|
    ensures CheckSwept(s, now, directory)[i] ==
      Swept(s, now)[i].(paymentDeadline := s[i].paymentDeadline)
  {
    RepairNeverFires(s[i], directory);
  }

  datatype ForceEndError = EndNotFound | AlreadyEnded

  /** The single-auction force-close: refused for an ended auction. */
  function ForceEndOne(a: Auction): (r: Result<Auction, ForceEndError>)
    ensures r.Err? <==> a.status == Ended
    ensures r.Err? ==> r.error == AlreadyEnded
    ensures r.Ok? ==> r.value == ForceSwept([a])[0]
  {
    if a.status == Ended then Err(AlreadyEnded) else Ok(ForceClosed(a))
  }

  // ------------------------------------------------- payment-timeout reassignment

  datatype ReassignError = PaymentNotFound | StillActive | NoNextBidder | NextBidderMissing | NextBidderNoEmail

  function AmountOf(b: Bid): int { b.amount }

  /** The stored bids on one auction, in store order. */
  function BidsFor(bids: seq<Bid>, id: nat): (r: seq<Bid>)
    ensures forall b :: b in r <==> b in bids && b.auction == id
    ensures |r| <= |bids|
  {
    if bids == [] then []
    else (if bids[0].auction == id then [bids[0]] else []) + BidsFor(bids[1..], id)
  }

  /** The stored bids on one auction, highest amount first. */
  function RankedBids(bids: seq<Bid>, id: nat): (r: seq<Bid>)
    ensures SortedDesc(r, AmountOf)
    ensures multiset(r) == multiset(BidsFor(bids, id))
  {
    SortDesc(BidsFor(bids, id), AmountOf)
  }

  /** The first-ranked bid is a stored bid on the auction and no bid on the
      auction is higher. */
  lemma TopRankedBid(bids: seq<Bid>, id: nat)
    requires RankedBids(bids, id) != []
    ensures var r := RankedBids(bids, id);
      && r[0] in bids && r[0].auction == id
      && (forall b :: b in bids && b.auction == id ==> b.amount <= r[0].amount)
  {
    var r := RankedBids(bids, id);
    assert r[0] in multiset(BidsFor(bids, id));
    forall b | b in bids && b.auction == id
      ensures b.amount <= r[0].amount
    {
      assert b in multiset(BidsFor(bids, id));
      var k :| 0 <= k < |r| && r[k] == b;
    }
  }

  /** The outcome of forcing a payment timeout on an ended auction, and the
      auction as saved. A missing payment deadline is first set to `now` and that
      repair is saved even when the request is then refused. */
  function ExpirePayment(a: Auction, bids: seq<Bid>, directory: map<UserId, string>, now: int)
    : (r: (Auction, Option<ReassignError>))
    ensures r.0.id == a.id && r.0.status == a.status && r.0.currentPrice == a.currentPrice && r.0.bids == a.bids
    ensures r.1.None? ==> a.status == Ended && r.0.highestBidder.Some? && r.0.highestBidderEmail.Some?
  {
    if a.status != Ended then (a, Some(StillActive))
    else ReassignFrom(a, RankedBids(bids, a.id), directory, now)
  }

  /** The ended-auction part of the timeout, given the auction's bids ranked by amount. */
  function ReassignFrom(a: Auction, ranked: seq<Bid>, directory: map<UserId, string>, now: int)
    : (r: (Auction, Option<ReassignError>))
    ensures r.0.id == a.id && r.0.status == a.status && r.0.currentPrice == a.currentPrice && r.0.bids == a.bids
    ensures r.0.paymentDeadline.Some?
    ensures r.1.None? <==>
      |ranked| >= 2 && ranked[1].user.Some? && EmailOf(directory, ranked[1].user.value).Some?
  {
    var repaired := if a.paymentDeadline.None? then a.(paymentDeadline := Some(now)) else a;
    if |ranked| <= 1 then (repaired, Some(NoNextBidder))
    else
      var next := ranked[1];
      if next.user.None? then (repaired, Some(NextBidderMissing))
      else match EmailOf(directory, next.user.value)
        case None => (repaired, Some(NextBidderNoEmail))
        case Some(email) =>
          (repaired.(highestBidder := next.user, highestBidderEmail := Some(email),
                     finalPrice := Some(next.amount), paymentDeadline := Some(now + PaymentWindowMs)),
           None)
  }

  /** A successful reassignment given the ranking: the second-ranked bidder leads
      at its amount with a fresh five-minute deadline; price, status and bid list
      stay as they were. */
  lemma ReassignFromSecond(a: Auction, ranked: seq<Bid>, directory: map<UserId, string>, now: int)
    requires ReassignFrom(a, ranked, directory, now).1.None?
    ensures var b := ReassignFrom(a, ranked, directory, now).0;
      && |ranked| >= 2
      && b.highestBidder == ranked[1].user && b.highestBidder.Some?
      && EmailOf(directory, b.highestBidder.value) == b.highestBidderEmail
      && b.finalPrice == Some(ranked[1].amount)
      && b.paymentDeadline == Some(now + PaymentWindowMs)
      && b.currentPrice == a.currentPrice && b.status == a.status && b.bids == a.bids
  {
  }

  /** A successful reassignment hands the win to the second-ranked bid on the
      auction: that bid is on this auction, only one bid on it can outrank it, and
      its bidder now leads at its amount with a fresh five-minute deadline. */
  lemma ReassignTakesSecondRanked(a: Auction, bids: seq<Bid>, directory: map<UserId, string>, now: int)
    requires ExpirePayment(a, bids, directory, now).1.None?
    ensures var b := ExpirePayment(a, bids, directory, now).0;
      var ranked := RankedBids(bids, a.id);
      && |ranked| >= 2
      && b.highestBidder == ranked[1].user && b.highestBidder.Some?
      && b.finalPrice == Some(ranked[1].amount)
      && b.paymentDeadline == Some(now + PaymentWindowMs)
      && ranked[1] in bids && ranked[1].auction == a.id
      && (forall y :: y in multiset(BidsFor(bids, a.id)) - multiset{ranked[0]} ==> y.amount <= ranked[1].amount)
      && (forall y :: y in bids && y.auction == a.id ==> y.amount <= ranked[0].amount)
      && b.currentPrice == a.currentPrice && b.status == Ended && b.bids == a.bids
  {
    var ranked := RankedBids(bids, a.id);
    var own := BidsFor(bids, a.id);
    assert ExpirePayment(a, bids, directory, now) == ReassignFrom(a, ranked, directory, now);
    ReassignFromSecond(a, ranked, directory, now);
    TopTwo(own, AmountOf);
    assert ranked[1] in multiset(own);
    assert ranked[1] in own;
    forall y | y in bids && y.auction == a.id
      ensures y.amount <= ranked[0].amount
    {
      assert y in own;
      assert y in multiset(own);
    }
  }

  /** The refusals, in order: an active auction, then fewer than two bids, then a
      second-ranked bid without a user, then a user without an address. Every
      refusal leaves the bidder and the price untouched. */
  lemma ExpirePaymentRefusals(a: Auction, bids: seq<Bid>, directory: map<UserId, string>, now: int)
    ensures var (b, err) := ExpirePayment(a, bids, directory, now);
      var ranked := RankedBids(bids, a.id);
      && (err == Some(StillActive) <==> a.status != Ended)
      && (err == Some(NoNextBidder) <==> a.status == Ended && |ranked| <= 1)
      && (err == Some(NextBidderMissing) <==> a.status == Ended && |ranked| > 1 && ranked[1].user.None?)
      && (err == Some(NextBidderNoEmail) <==>
            a.status == Ended && |ranked| > 1 && ranked[1].user.Some?
            && EmailOf(directory, ranked[1].user.value).None?)
      && (a.status == Ended ==> b.paymentDeadline.Some?)
      && (a.status == Ended && a.paymentDeadline.None? && err.Some? ==> b.paymentDeadline == Some(now))
      && (err.Some? ==> b == a.(paymentDeadline := b.paymentDeadline)
                        && (a.paymentDeadline.Some? ==> b == a))
  {
  }

  /** There is no cascade: forcing the timeout again, with the same bids, picks
      the same bidder at the same price, never the third-ranked one. Among tied
      amounts "the same bidder" rests on the ranking's tie order. */
  lemma NoCascade(a: Auction, bids: seq<Bid>, directory: map<UserId, string>, t1: int, t2: int)
    requires ExpirePayment(a, bids, directory, t1).1.None?
    ensures var once := ExpirePayment(a, bids, directory, t1).0;
      var twice := ExpirePayment(once, bids, directory, t2);
      && twice.1.None?
      && twice.0.highestBidder == once.highestBidder
      && twice.0.finalPrice == once.finalPrice
  {
    var ranked := RankedBids(bids, a.id);
    assert ExpirePayment(a, bids, directory, t1) == ReassignFrom(a, ranked, directory, t1);
    var once := ExpirePayment(a, bids, directory, t1).0;
    assert once.id == a.id && once.status == Ended;
    assert ExpirePayment(once, bids, directory, t2) == ReassignFrom(once, ranked, directory, t2);
  }

  /** Bids of 50 by A, 70 by B and 90 by C on auction 7. */
  const ThreeBids: seq<Bid> :=
    [Bid(0, 7, Some("A"), 50, 1), Bid(1, 7, Some("B"), 70, 2), Bid(2, 7, Some("C"), 90, 3)]

  lemma ThreeBidsRanked()
    ensures RankedBids(ThreeBids, 7) == [ThreeBids[2], ThreeBids[1], ThreeBids[0]]
  {
    ThreeBidsOwn();
    ThreeBidsSorted();
  }

  lemma ThreeBidsOwn()
    ensures BidsFor(ThreeBids, 7) == ThreeBids
  {
    var bs := ThreeBids;
    assert BidsFor(bs[2..], 7) == [bs[2]];
    assert BidsFor(bs[1..], 7) == [bs[1], bs[2]];
  }

  lemma ThreeBidsSorted()
    ensures SortDesc(ThreeBids, AmountOf) == [ThreeBids[2], ThreeBids[1], ThreeBids[0]]
  {
    var bs := ThreeBids;
    assert bs == [bs[0], bs[1], bs[2]];
    RisingThreeReversed(bs[0], bs[1], bs[2], AmountOf);
  }

  /** A second-ranked bid whose user has an address always takes the win. */
  lemma SecondWithEmailSucceeds(a: Auction, ranked: seq<Bid>, directory: map<UserId, string>, now: int)
    requires |ranked| >= 2 && ranked[1].user.Some? && EmailOf(directory, ranked[1].user.value).Some?
    ensures var (b, err) := ReassignFrom(a, ranked, directory, now);
      err.None? && b.highestBidder == ranked[1].user && b.finalPrice == Some(ranked[1].amount)
  {
  }

  /** With those bids, and B reachable by e-mail, the first forced timeout hands
      the win to B at 70, and a second one hands it to B at 70 again, never on to A. */
  lemma RepeatedTimeoutPicksSameBidder(a: Auction, directory: map<UserId, string>, t1: int, t2: int)
    requires a.id == 7 && a.status == Ended
    requires "B" in directory && directory["B"] != ""
    ensures var once := ExpirePayment(a, ThreeBids, directory, t1);
      var twice := ExpirePayment(once.0, ThreeBids, directory, t2);
      && once.1.None? && once.0.highestBidder == Some("B") && once.0.finalPrice == Some(70)
      && twice.1.None? && twice.0.highestBidder == Some("B") && twice.0.finalPrice == Some(70)
  {
    ThreeBidsRanked();
    var ranked := RankedBids(ThreeBids, 7);
    assert ranked[1] == Bid(1, 7, Some("B"), 70, 2);
    assert ExpirePayment(a, ThreeBids, directory, t1) == ReassignFrom(a, ranked, directory, t1);
    SecondWithEmailSucceeds(a, ranked, directory, t1);
    NoCascade(a, ThreeBids, directory, t1, t2);
  }
}
