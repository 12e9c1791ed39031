/** The notification collection the auction handlers write to: the bid receipt
    written by `placeBid`, and the deduplicated "ending soon" and "you won"
    notices written by `handleAuctionNotifications`. Delivery is not modelled;
    a notification is a stored record of (user, message, type). */
module AuctionNotices {
  import opened Common
  import opened AuctionEngine

  datatype NoticeKind = BidSuccess | TimeWarning | AuctionEnd

  /** Every message is a fixed template around the auction's name. */
  datatype Message = BidPlaced(auctionName: string) | EndingSoon(auctionName: string) | YouWon(auctionName: string)

  datatype Notification = Notification(user: UserId, message: Message, kind: NoticeKind)

  const WarningWindowMs: int := 5 * MinuteMs

  /** The leader of an auction as the populated reference sees it: None when
      there is no leader or the leader's user record does not exist. */
  function Leader(a: Auction, directory: map<UserId, string>): (r: Option<UserId>)
    ensures r.Some? <==> a.highestBidder.Some? && a.highestBidder.value in directory
    ensures r.Some? ==> r == a.highestBidder
  {
    if a.highestBidder.Some? && a.highestBidder.value in directory then a.highestBidder else None
  }

  /** The "ending soon" notice an active auction expiring within five minutes
      calls for, addressed to its leader. */
  function WarningFor(a: Auction, directory: map<UserId, string>, now: int): (r: Option<Notification>)
    ensures r.Some? <==>
      && a.status == Active && now <= a.expiresAt <= now + WarningWindowMs
      && a.highestBidder.Some? && a.highestBidder.value in directory
    ensures r.Some? ==> Some(r.value.user) == a.highestBidder && r.value.kind == TimeWarning
  {
    if a.status == Active && now <= a.expiresAt <= now + WarningWindowMs && Leader(a, directory).Some? then
      Some(Notification(Leader(a, directory).value, EndingSoon(a.name), TimeWarning))
    else None
  }

  /** The "you won" notice an ended, expired auction calls for, addressed to its leader. */
  function EndNoticeFor(a: Auction, directory: map<UserId, string>, now: int): (r: Option<Notification>)
    ensures r.Some? <==>
      a.status == Ended && a.expiresAt <= now && a.highestBidder.Some? && a.highestBidder.value in directory
    ensures r.Some? ==> Some(r.value.user) == a.highestBidder && r.value.kind == AuctionEnd
  {
    if a.status == Ended && a.expiresAt <= now && Leader(a, directory).Some? then
      Some(Notification(Leader(a, directory).value, YouWon(a.name), AuctionEnd))
    else None
  }

  function WarningRule(directory: map<UserId, string>, now: int): Auction -> Option<Notification> {
    a => WarningFor(a, directory, now)
  }

  function EndRule(directory: map<UserId, string>, now: int): Auction -> Option<Notification> {
    a => EndNoticeFor(a, directory, now)
  }

  /** Creates the candidate unless an equal notification already exists. */
  function AddOnce(notes: seq<Notification>, candidate: Option<Notification>): seq<Notification> {
    if candidate.Some? && candidate.value !in notes then notes + [candidate.value] else notes
  }

  /** One pass over the auctions in store order under one notice rule. */
  function Pass(s: seq<Auction>, notes: seq<Notification>, rule: Auction -> Option<Notification>): (r: seq<Notification>)
    ensures notes <= r && |r| <= |notes| + |s|
    decreases |s|
  {
    if s == [] then notes else Pass(s[1..], AddOnce(notes, rule(s[0])), rule)
  }

  /** A pass from position `i` is the rule's step at `i` followed by the pass from `i + 1`. */
  lemma PassStep(s: seq<Auction>, i: nat, notes: seq<Notification>, rule: Auction -> Option<Notification>)
    requires i < |s|
    ensures Pass(s[i..], notes, rule) == Pass(s[i + 1..], AddOnce(notes, rule(s[i])), rule)
  {
    assert s[i..][1..] == s[i + 1..];
  }

  /** The notification collection after `handleAuctionNotifications` at `now`:
      the warning pass, then the end-notice pass. */
  function Notify(s: seq<Auction>, directory: map<UserId, string>, now: int, notes: seq<Notification>): (r: seq<Notification>)
    ensures notes <= r && |r| <= |notes| + 2 * |s|
  {
    Pass(s, Pass(s, notes, WarningRule(directory, now)), EndRule(directory, now))
  }

  ghost predicate NoDuplicates(s: seq<Notification>) {
    forall i, j :: 0 <= i < j < |s| ==> s[i] != s[j]
  }

  /** A pass only appends; what it appends is new, free of duplicates, and each
      appended notice is the rule's notice for some auction. */
  lemma {:induction false} PassAppendsFreshNotices(s: seq<Auction>, notes: seq<Notification>, rule: Auction -> Option<Notification>)
    ensures var r := Pass(s, notes, rule);
      && notes <= r
      && NoDuplicates(r[|notes|..])
      && (forall n :: n in r[|notes|..] ==> n !in notes)
      && (forall n :: n in r[|notes|..] ==> exists a :: a in s && rule(a) == Some(n))
    decreases |s|
  {
    if s != [] {
      var next := AddOnce(notes, rule(s[0]));
      PassAppendsFreshNotices(s[1..], next, rule);
      var r := Pass(s, notes, rule);
      assert r == Pass(s[1..], next, rule);
      assert |next[|notes|..]| <= 1;
      FreshThenFresh(notes, next, r);
      assert r[|notes|..] == next[|notes|..] + r[|next|..];
      forall n | n in r[|notes|..]
        ensures exists a :: a in s && rule(a) == Some(n)
      {
        if n in r[|next|..] {
          var a :| a in s[1..] && rule(a) == Some(n);
          assert a in s;
        } else {
          assert s[0] in s;
        }
      }
    }
  }

  /** After a pass every auction's notice exists. */
  lemma {:induction false} PassCovers(s: seq<Auction>, notes: seq<Notification>, rule: Auction -> Option<Notification>)
    ensures forall a :: a in s && rule(a).Some? ==> rule(a).value in Pass(s, notes, rule)
    decreases |s|
  {
    if s != [] {
      var next := AddOnce(notes, rule(s[0]));
      PassCovers(s[1..], next, rule);
      PassAppendsFreshNotices(s[1..], next, rule);
      forall a | a in s && rule(a).Some?
        ensures rule(a).value in Pass(s, notes, rule)
      {
        if a != s[0] {
          assert a in s[1..];
        } else {
          assert rule(a).value in next;
          assert next <= Pass(s[1..], next, rule);
        }
      }
    }
  }

  /** A pass whose every notice already exists writes nothing. */
  lemma {:induction false} PassSaturated(s: seq<Auction>, notes: seq<Notification>, rule: Auction -> Option<Notification>)
    requires forall a :: a in s && rule(a).Some? ==> rule(a).value in notes
    ensures Pass(s, notes, rule) == notes
    decreases |s|
  {
    if s != [] {
      assert s[0] in s;
      assert AddOnce(notes, rule(s[0])) == notes;
      forall a | a in s[1..] && rule(a).Some?
        ensures rule(a).value in notes
      {
        assert a in s;
      }
      PassSaturated(s[1..], notes, rule);
    }
  }

  /** Running the notification job again at the same instant creates nothing. */
  lemma NotifyIdempotent(s: seq<Auction>, directory: map<UserId, string>, now: int, notes: seq<Notification>)
    ensures Notify(s, directory, now, Notify(s, directory, now, notes)) == Notify(s, directory, now, notes)
  {
    var warn := WarningRule(directory, now);
    var end := EndRule(directory, now);
    var w1 := Pass(s, notes, warn);
    var once := Pass(s, w1, end);
    PassCovers(s, notes, warn);
    PassAppendsFreshNotices(s, w1, end);
    PassCovers(s, w1, end);
    forall a | a in s && warn(a).Some?
      ensures warn(a).value in once
    {
      assert w1 <= once;
      assert warn(a).value in w1;
    }
    PassSaturated(s, once, warn);
    PassSaturated(s, once, end);
  }

  /** Two successive append-only steps that each append fresh, distinct items
      together append fresh, distinct items. */
  lemma FreshThenFresh(notes: seq<Notification>, w: seq<Notification>, r: seq<Notification>)
    requires notes <= w <= r
    requires NoDuplicates(w[|notes|..]) && (forall n :: n in w[|notes|..] ==> n !in notes)
    requires NoDuplicates(r[|w|..]) && (forall n :: n in r[|w|..] ==> n !in w)
    ensures NoDuplicates(r[|notes|..]) && (forall n :: n in r[|notes|..] ==> n !in notes)
  {
    assert r[|notes|..] == w[|notes|..] + r[|w|..];
    forall i, j | 0 <= i < j < |r[|notes|..]|
      ensures r[|notes|..][i] != r[|notes|..][j]
    {
      if i < |w| - |notes| && j >= |w| - |notes| {
        assert r[|notes|..][i] in w;
        assert r[|notes|..][j] in r[|w|..];
      }
    }
    forall n | n in r[|notes|..]
      ensures n !in notes
    {
      if n in r[|w|..] {
        assert n !in w;
      }
    }
  }

  /** The notices the job may write: an "ending soon" notice for an active
      auction expiring within five minutes, or a "you won" notice for an ended,
      expired one, in either case addressed to the auction's leader. */
  ghost predicate DueNotice(s: seq<Auction>, now: int, n: Notification) {
    exists a :: a in s && a.highestBidder == Some(n.user) &&
      ((n.kind == TimeWarning && n.message == EndingSoon(a.name)
        && a.status == Active && now <= a.expiresAt <= now + WarningWindowMs)
       || (n.kind == AuctionEnd && n.message == YouWon(a.name)
        && a.status == Ended && a.expiresAt <= now))
  }

  /** What a pass under the warning rule appends is a due notice. */
  lemma WarningsAreDue(s: seq<Auction>, directory: map<UserId, string>, now: int, notes: seq<Notification>)
    ensures var r := Pass(s, notes, WarningRule(directory, now));
      notes <= r && forall n :: n in r[|notes|..] ==> DueNotice(s, now, n)
  {
    var warn := WarningRule(directory, now);
    PassAppendsFreshNotices(s, notes, warn);
    forall n | n in Pass(s, notes, warn)[|notes|..]
      ensures DueNotice(s, now, n)
    {
      var a :| a in s && warn(a) == Some(n);
      assert WarningFor(a, directory, now) == Some(n);
    }
  }

  /** What a pass under the end rule appends is a due notice. */
  lemma EndNoticesAreDue(s: seq<Auction>, directory: map<UserId, string>, now: int, notes: seq<Notification>)
    ensures var r := Pass(s, notes, EndRule(directory, now));
      notes <= r && forall n :: n in r[|notes|..] ==> DueNotice(s, now, n)
  {
    var end := EndRule(directory, now);
    PassAppendsFreshNotices(s, notes, end);
    forall n | n in Pass(s, notes, end)[|notes|..]
      ensures DueNotice(s, now, n)
    {
      var a :| a in s && end(a) == Some(n);
      assert EndNoticeFor(a, directory, now) == Some(n);
    }
  }

  /** The job writes only due notices, never one that already exists, and never
      the same one twice. */
  lemma NotifyWritesOnlyDueNotices(s: seq<Auction>, directory: map<UserId, string>, now: int, notes: seq<Notification>)
    ensures var r := Notify(s, directory, now, notes);
      && notes <= r
      && NoDuplicates(r[|notes|..])
      && (forall n :: n in r[|notes|..] ==> n !in notes)
      && (forall n :: n in r[|notes|..] ==> DueNotice(s, now, n))
  {
    var w1 := Pass(s, notes, WarningRule(directory, now));
    var r := Pass(s, w1, EndRule(directory, now));
    PassAppendsFreshNotices(s, notes, WarningRule(directory, now));
    PassAppendsFreshNotices(s, w1, EndRule(directory, now));
    FreshThenFresh(notes, w1, r);
    WarningsAreDue(s, directory, now, notes);
    EndNoticesAreDue(s, directory, now, w1);
    DueThenDue(s, now, notes, w1, r);
  }

  /** Two passes that each append only due notices together append only due notices. */
  lemma DueThenDue(s: seq<Auction>, now: int, notes: seq<Notification>, w: seq<Notification>, r: seq<Notification>)
    requires notes <= w <= r
    requires forall n :: n in w[|notes|..] ==> DueNotice(s, now, n)
    requires forall n :: n in r[|w|..] ==> DueNotice(s, now, n)
    ensures forall n :: n in r[|notes|..] ==> DueNotice(s, now, n)
  {
    assert r[|notes|..] == w[|notes|..] + r[|w|..];
  }
}
