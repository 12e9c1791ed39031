/** The read-only views over the auction store: the winning-bid filter behind
    `getMyWinningBids` and the listing built by `getAllAuctions`. */
module AuctionViews {
  import opened Common
  import opened Ranking
  import opened AuctionEngine

  function CreatedAtOf(b: Bid): int { b.createdAt }

  function ExpiresAtOf(a: Auction): int { a.expiresAt }

  /** A bid counts as won when its auction (looked up by id) has ended and the
      bid's amount equals the auction's current price. */
  predicate Wins(auctions: seq<Auction>, b: Bid) {
    b.auction < |auctions| && auctions[b.auction].status == Ended
    && b.amount == auctions[b.auction].currentPrice
  }

  /** The stored bids placed by `user`, in store order. */
  function BidsBy(bids: seq<Bid>, user: UserId): (r: seq<Bid>)
    ensures forall b :: b in r <==> b in bids && b.user == Some(user)
  {
    if bids == [] then []
    else (if bids[0].user == Some(user) then [bids[0]] else []) + BidsBy(bids[1..], user)
  }

  /** Keeps the won bids of `s`, in order. */
  function KeepWins(auctions: seq<Auction>, s: seq<Bid>): (r: seq<Bid>)
    ensures forall b :: b in r <==> b in s && Wins(auctions, b)
    ensures SortedDesc(s, CreatedAtOf) ==> SortedDesc(r, CreatedAtOf)
  {
    if s == [] then []
    else
      var rest := KeepWins(auctions, s[1..]);
      if Wins(auctions, s[0]) then
        assert forall k :: 0 <= k < |rest| ==> rest[k] in s[1..];
        assert SortedDesc(s, CreatedAtOf) ==> forall k :: 0 <= k < |rest| ==> rest[k].createdAt <= s[0].createdAt;
        [s[0]] + rest
      else rest
  }

  /** The bids `user` has won, newest first: exactly the user's bids whose
      auction has ended at that bid's amount. */
  function WinningBids(auctions: seq<Auction>, bids: seq<Bid>, user: UserId): (r: seq<Bid>)
    ensures forall b :: b in r <==> b in bids && b.user == Some(user) && Wins(auctions, b)
    ensures SortedDesc(r, CreatedAtOf)
  {
    var mine := SortDesc(BidsBy(bids, user), CreatedAtOf);
    assert forall b :: b in mine <==> b in multiset(mine);
    KeepWins(auctions, mine)
  }

  /** The filter compares with the current price, which a payment-timeout
      reassignment leaves at the top bid: the bidder the win was handed to never
      sees a lower second-ranked bid among their winning bids, while the top
      bid stays listed for its own bidder. */
  lemma ReassignedWinIsNotListed(auctions: seq<Auction>, bids: seq<Bid>, directory: map<UserId, string>, now: int, i: nat)
    requires i < |auctions| && auctions[i].id == i
    requires ExpirePayment(auctions[i], bids, directory, now).1.None?
    ensures var after := auctions[i := ExpirePayment(auctions[i], bids, directory, now).0];
      var ranked := RankedBids(bids, i);
      && (ranked[1].amount < auctions[i].currentPrice ==>
            ranked[1] !in WinningBids(after, bids, ranked[1].user.value))
      && (ranked[0].amount == auctions[i].currentPrice && ranked[0].user.Some? ==>
            ranked[0] in WinningBids(after, bids, ranked[0].user.value))
  {
    var a := auctions[i];
    var ranked := RankedBids(bids, i);
    assert a.status == Ended;
    var out := ReassignFrom(a, ranked, directory, now);
    assert ExpirePayment(a, bids, directory, now) == out;
    ReassignFromSecond(a, ranked, directory, now);
    TopRankedBid(bids, i);
    assert ranked[1] in multiset(BidsFor(bids, i));
    var after := auctions[i := out.0];
    assert after[i].status == Ended && after[i].currentPrice == a.currentPrice;
    var loser := ranked[1];
    if loser.amount < a.currentPrice {
      assert !Wins(after, loser);
    }
    if ranked[0].amount == a.currentPrice {
      assert Wins(after, ranked[0]);
    }
  }

  // ------------------------------------------------------------- the listing

  /** One row of the listing. */
  datatype AuctionView = AuctionView(
    id: nat,
    name: string,
    image: string,
    currentPrice: int,
    status: Status,
    expiresAt: int,
    winner: Option<UserId>,
    winningBid: Option<int>,
    highestBidder: Option<UserId>)

  const ListingDefaultImage: string := "/default-image.jpg"

  /** The row for one auction: an active auction shows its highest stored bid
      (when it has one) as price and leader; an ended one shows its stored
      winner and its current price as the winning bid. */
  function ViewOf(a: Auction, bids: seq<Bid>): (v: AuctionView)
    ensures v.id == a.id && v.status == a.status && v.expiresAt == a.expiresAt
    ensures a.status == Ended ==>
      v.currentPrice == a.currentPrice && v.winningBid == Some(a.currentPrice)
      && v.winner == a.winner && v.highestBidder.None?
    ensures a.status == Active && BidsFor(bids, a.id) == [] ==>
      v.currentPrice == a.currentPrice && v.winningBid.None? && v.winner.None? && v.highestBidder.None?
    ensures a.status == Active && BidsFor(bids, a.id) != [] ==>
      && v.winningBid.None? && v.winner.None?
      && (exists b :: b in bids && b.auction == a.id && b.amount == v.currentPrice && b.user == v.highestBidder)
      && (forall b :: b in bids && b.auction == a.id ==> b.amount <= v.currentPrice)
  {
    var ranked := RankedBids(bids, a.id);
    var active := a.status == Active;
    var top := ranked != [] && active;
    if top then
      TopRankedBid(bids, a.id);
      AuctionView(a.id, a.name, if a.image != "" then a.image else ListingDefaultImage,
                  ranked[0].amount, a.status, a.expiresAt, None, None, ranked[0].user)
    else
      assert active ==> |BidsFor(bids, a.id)| == |multiset(ranked)| == 0;
      AuctionView(a.id, a.name, if a.image != "" then a.image else ListingDefaultImage,
                  a.currentPrice, a.status, a.expiresAt,
                  if a.status == Ended then a.winner else None,
                  if a.status == Ended then Some(a.currentPrice) else None,
                  None)
  }

  function Views(s: seq<Auction>, bids: seq<Bid>): (r: seq<AuctionView>)
    ensures |r| == |s|
    ensures forall k :: 0 <= k < |s| ==> r[k] == ViewOf(s[k], bids)
  {
    if s == [] then [] else [ViewOf(s[0], bids)] + Views(s[1..], bids)
  }

  /** The listing: one row per stored auction, latest expiry first. */
  function AllAuctions(auctions: seq<Auction>, bids: seq<Bid>): (r: seq<AuctionView>)
    ensures |r| == |auctions|
    ensures forall i, j :: 0 <= i < j < |r| ==> r[i].expiresAt >= r[j].expiresAt
    ensures forall a :: a in auctions ==> ViewOf(a, bids) in r
    ensures forall v :: v in r ==> exists a :: a in auctions && v == ViewOf(a, bids)
  {
    var sorted := SortDesc(auctions, ExpiresAtOf);
    ViewsMatch(sorted, bids);
    assert forall a :: a in auctions <==> a in multiset(sorted);
    Views(sorted, bids)
  }

  /** Each auction of `s` has its row among the rows, and each row is some auction's. */
  lemma ViewsMatch(s: seq<Auction>, bids: seq<Bid>)
    ensures forall a :: a in s ==> ViewOf(a, bids) in Views(s, bids)
    ensures forall v :: v in Views(s, bids) ==> exists a :: a in s && v == ViewOf(a, bids)
  {
    var r := Views(s, bids);
    forall a | a in s
      ensures ViewOf(a, bids) in r
    {
      var k :| 0 <= k < |s| && s[k] == a;
      assert r[k] == ViewOf(a, bids);
    }
    forall v | v in r
      ensures exists a :: a in s && v == ViewOf(a, bids)
    {
      var k :| 0 <= k < |r| && r[k] == v;
      assert s[k] in s;
    }
  }
}
