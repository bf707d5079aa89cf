/**
 What the order of arrival does to timestamped membership events: the staleness test of
 `apply_hlc_gossip` (crates/chirps-gossip-swim/src/engine.rs) drops an event stamped before
 the latest one seen of its peer, whatever it claims.
 */
module GossipOrders {
  import opened Prelude
  import opened Hlc
  import opened Membership
  import opened GossipRuns

  function EventSet(events: seq<Stamped>): set<Stamped> {
    set ev | ev in events
  }

  /** An event id names one event. */
  ghost predicate IdsIdentify(events: set<Stamped>) {
    forall a, b | a in events && b in events && a.eventId == b.eventId :: a == b
  }

  /** The events about `n` that are news to `e`. */
  ghost function News(e: Engine, events: set<Stamped>, n: nat): set<Stamped> {
    set ev | ev in events && ev.update.node == n && IsNews(e, ev)
  }

  /** What the table of `e` and these events claim of `n`. */
  ghost function AllClaims(e: Engine, events: set<Stamped>, n: nat): set<Claim> {
    (set ev | ev in events :: Claimed(ev.update)) + if n in e.peers then {ClaimOf(e.peers[n])} else {}
  }

  function ClaimAt(e: Engine, n: nat): Option<Claim> {
    if n in e.peers then Some(ClaimOf(e.peers[n])) else None
  }

  function LatestAt(e: Engine, n: nat): Option<Timestamp> {
    if n in e.latest then Some(e.latest[n]) else None
  }

  /** `top` is stamped no earlier than any of the events. */
  ghost predicate Latest(top: Stamped, events: set<Stamped>) {
    top in events && forall ev | ev in events :: ev.timestamp.AtMost(top.timestamp)
  }

  // ------------------------------------------------------------------ what a sequence of events does

  /** The claim held of `n` is one of those made, no less than the old one and than that of some
      latest event. */
  ghost predicate Settled(e: Engine, after: Engine, news: set<Stamped>, n: nat) {
    exists top :: Latest(top, news) && SettledBy(e, after, news, n, top)
  }

  ghost predicate SettledBy(e: Engine, after: Engine, news: set<Stamped>, n: nat, top: Stamped) {
    && n in after.peers && LatestAt(after, n) == Some(top.timestamp)
    && ClaimOf(after.peers[n]) in AllClaims(e, news, n)
    && (n in e.peers ==> ClaimOf(e.peers[n]).AtMost(ClaimOf(after.peers[n])))
    && Claimed(top.update).AtMost(ClaimOf(after.peers[n]))
  }

  ghost predicate Untouched(e: Engine, after: Engine, n: nat) {
    ClaimAt(after, n) == ClaimAt(e, n) && LatestAt(after, n) == LatestAt(e, n)
  }

  ghost predicate Summary(e: Engine, after: Engine, news: set<Stamped>, n: nat) {
    if news == {} then Untouched(e, after, n) else Settled(e, after, news, n)
  }

  lemma {:induction false} SeenAfter(e: Engine, events: seq<Stamped>, id: EventId)
    ensures id in TakeEvents(e, events).seenEvents
       <==> id in e.seenEvents || exists ev :: ev in events && ev.eventId == id
  {
    if events != [] {
      var init, last := events[..|events| - 1], events[|events| - 1];
      SeenAfter(e, init, id);
      assert events == init + [last];
      if last.eventId == id {
        assert last in events;
      }
    }
  }

  /** An event that is not news changes nothing but the set of seen ids. */
  lemma StaleEvent(e: Engine, ev: Stamped, n: nat)
    requires !IsNews(e, ev) || ev.update.node != n
    ensures Untouched(e, TakeEvent(e, ev), n)
  {
  }

  lemma NewsGrows(e: Engine, events: seq<Stamped>, ev: Stamped, n: nat)
    ensures News(e, EventSet(events + [ev]), n)
         == News(e, EventSet(events), n) + if ev.update.node == n && IsNews(e, ev) then {ev} else {}
  {
    assert EventSet(events + [ev]) == EventSet(events) + {ev};
  }

  /** The first event about `n` that is news. */
  lemma FirstNews(e: Engine, before: Engine, ev: Stamped, n: nat)
    requires Untouched(e, before, n) && ev.update.node == n && IsNews(before, ev)
    ensures Settled(e, TakeEvent(before, ev), {ev}, n)
  {
    assert Claimed(ev.update) in AllClaims(e, {ev}, n) by {
      assert ev in {ev};
    }
    assert Latest(ev, {ev}) && SettledBy(e, TakeEvent(before, ev), {ev}, n, ev);
  }

  /** A later event that is news. */
  lemma MoreNews(e: Engine, before: Engine, news: set<Stamped>, ev: Stamped, n: nat)
    requires Settled(e, before, news, n) && ev.update.node == n && IsNews(before, ev)
    ensures Settled(e, TakeEvent(before, ev), news + {ev}, n)
  {
    var top :| Latest(top, news) && SettledBy(e, before, news, n, top);
    forall x | x in news + {ev}
      ensures x.timestamp.AtMost(ev.timestamp)
    {
    }
    ClaimsGrow(e, news, ev, n);
    assert Latest(ev, news + {ev}) && SettledBy(e, TakeEvent(before, ev), news + {ev}, n, ev);
  }

  lemma ClaimsGrow(e: Engine, news: set<Stamped>, ev: Stamped, n: nat)
    ensures AllClaims(e, news + {ev}, n) == AllClaims(e, news, n) + {Claimed(ev.update)}
  {
    assert ev in news + {ev};
  }

  /** News to the engine at first that came too late. */
  lemma LateNews(e: Engine, before: Engine, after: Engine, news: set<Stamped>, ev: Stamped, n: nat)
    requires Settled(e, before, news, n) && Untouched(before, after, n)
    requires n in before.latest && ev.timestamp.AtMost(before.latest[n])
    ensures Settled(e, after, news + {ev}, n)
  {
    var top :| Latest(top, news) && SettledBy(e, before, news, n, top);
    ClaimsGrow(e, news, ev, n);
    assert Latest(top, news + {ev}) && SettledBy(e, after, news + {ev}, n, top);
  }

  lemma SameSummary(e: Engine, before: Engine, after: Engine, news: set<Stamped>, n: nat)
    requires Summary(e, before, news, n) && Untouched(before, after, n)
    ensures Summary(e, after, news, n)
  {
    if news != {} {
      var top :| Latest(top, news) && SettledBy(e, before, news, n, top);
      assert SettledBy(e, after, news, n, top);
    }
  }

  /** What is news later was news at first. */
  lemma NewsThenIsNewsNow(e: Engine, before: Engine, news: set<Stamped>, ev: Stamped, n: nat)
    requires Summary(e, before, news, n) && (forall x | x in news :: x.update.node == n && IsNews(e, x))
    requires ev.update.node == n && IsNews(before, ev) && e.seenEvents <= before.seenEvents
    ensures IsNews(e, ev)
  {
    if news != {} {
      var top :| Latest(top, news) && SettledBy(e, before, news, n, top);
      assert IsNews(e, top);
    }
  }

  lemma TakesOne(e: Engine, before: Engine, news: set<Stamped>, ev: Stamped, n: nat)
    requires Summary(e, before, news, n) && (forall x | x in news :: x.update.node == n && IsNews(e, x))
    requires e.seenEvents <= before.seenEvents
    requires ev.eventId in before.seenEvents && ev.eventId !in e.seenEvents ==>
               ev in news || ev.update.node != n || !IsNews(e, ev)
    ensures Summary(e, TakeEvent(before, ev), news + (if ev.update.node == n && IsNews(e, ev) then {ev} else {}), n)
  {
    var after := TakeEvent(before, ev);
    if ev.update.node == n && IsNews(before, ev) {
      NewsThenIsNewsNow(e, before, news, ev, n);
      if news == {} {
        FirstNews(e, before, ev, n);
        assert {} + {ev} == {ev};
      } else {
        MoreNews(e, before, news, ev, n);
      }
    } else {
      StaleEvent(before, ev, n);
      if ev.update.node != n || !IsNews(e, ev) || ev in news {
        assert news + (if ev.update.node == n && IsNews(e, ev) then {ev} else {}) == news;
        SameSummary(e, before, after, news, n);
      } else {
        LateNews(e, before, after, news, ev, n);
      }
    }
  }

  /** What any sequence of events leaves of one peer. */
  lemma {:induction false} EventsSettle(e: Engine, events: seq<Stamped>, all: set<Stamped>, n: nat)
    requires IdsIdentify(all) && EventSet(events) <= all
    ensures Summary(e, TakeEvents(e, events), News(e, EventSet(events), n), n)
  {
    if events == [] {
      assert News(e, EventSet(events), n) == {};
    } else {
      var init, ev := events[..|events| - 1], events[|events| - 1];
      assert events == init + [ev];
      assert forall x | x in init :: x in events;
      EventsSettle(e, init, all, n);
      NewsGrows(e, init, ev, n);
      AppliedAreNew(e, init);
      SeenAfter(e, init, ev.eventId);
      if exists x :: x in init && x.eventId == ev.eventId {
        var x :| x in init && x.eventId == ev.eventId;
        assert x in EventSet(events) && ev in EventSet(events);
        assert x == ev;
      }
      TakesOne(e, TakeEvents(e, init), News(e, EventSet(init), n), ev, n);
    }
  }

  // ------------------------------------------------------------------ when all orders agree

  /** Every latest event claims, or the table holds, at least what any of them claims. */
  ghost predicate LatestIsGreatest(e: Engine, news: set<Stamped>, n: nat) {
    forall top, ev | Latest(top, news) && ev in news ::
      || Claimed(ev.update).AtMost(Claimed(top.update))
      || (n in e.peers && Claimed(ev.update).AtMost(ClaimOf(e.peers[n])))
  }

  ghost predicate AllOrdersAgree(e: Engine, events: set<Stamped>, n: nat) {
    forall a, b | EventSet(a) == events && EventSet(b) == events ::
      ClaimAt(TakeEvents(e, a), n) == ClaimAt(TakeEvents(e, b), n)
  }

  /** Under that condition the greatest claim wins in any order. */
  lemma GreatestWins(e: Engine, a: seq<Stamped>, events: set<Stamped>, n: nat)
    requires IdsIdentify(events) && EventSet(a) == events
    requires News(e, events, n) != {} && LatestIsGreatest(e, News(e, events, n), n)
    ensures var after := TakeEvents(e, a);
            n in after.peers && Greatest(ClaimOf(after.peers[n]), AllClaims(e, News(e, events, n), n))
  {
    var after, news := TakeEvents(e, a), News(e, events, n);
    EventsSettle(e, a, events, n);
    var top :| Latest(top, news) && SettledBy(e, after, news, n, top);
    SettledIsGreatest(e, news, n, top, ClaimOf(after.peers[n]));
  }

  lemma SettledIsGreatest(e: Engine, news: set<Stamped>, n: nat, top: Stamped, c: Claim)
    requires Latest(top, news) && LatestIsGreatest(e, news, n)
    requires c in AllClaims(e, news, n) && Claimed(top.update).AtMost(c)
    requires n in e.peers ==> ClaimOf(e.peers[n]).AtMost(c)
    ensures Greatest(c, AllClaims(e, news, n))
  {
    forall ev | ev in news
      ensures Claimed(ev.update).AtMost(c)
    {
    }
  }

  lemma AgreeIfGreatest(e: Engine, a: seq<Stamped>, b: seq<Stamped>, n: nat)
    requires IdsIdentify(EventSet(a)) && EventSet(b) == EventSet(a)
    requires LatestIsGreatest(e, News(e, EventSet(a), n), n)
    ensures ClaimAt(TakeEvents(e, a), n) == ClaimAt(TakeEvents(e, b), n)
  {
    var news := News(e, EventSet(a), n);
    if news == {} {
      EventsSettle(e, a, EventSet(a), n);
      EventsSettle(e, b, EventSet(a), n);
    } else {
      GreatestWins(e, a, EventSet(a), n);
      GreatestWins(e, b, EventSet(a), n);
      GreatestIsUnique(ClaimOf(TakeEvents(e, a).peers[n]), ClaimOf(TakeEvents(e, b).peers[n]), AllClaims(e, news, n));
    }
  }

  lemma {:induction false} EventsJoin(e: Engine, a: seq<Stamped>, b: seq<Stamped>)
    ensures TakeEvents(e, a + b) == TakeEvents(TakeEvents(e, a), b)
  {
    if b == [] {
      assert a + b == a;
    } else {
      EventsJoin(e, a, b[..|b| - 1]);
      assert (a + b)[..|a + b| - 1] == a + b[..|b| - 1];
    }
  }

  lemma {:induction false} Listed(events: set<Stamped>) returns (list: seq<Stamped>)
    ensures EventSet(list) == events
    decreases |events|
  {
    if events == {} {
      list := [];
    } else {
      var ev :| ev in events;
      var rest := Listed(events - {ev});
      list := rest + [ev];
      assert EventSet(list) == EventSet(rest) + {ev};
    }
  }

  /** After a latest event nothing else about its peer is news. */
  lemma NoMoreNews(e: Engine, top: Stamped, events: set<Stamped>, n: nat)
    requires Latest(top, News(e, events, n))
    ensures News(TakeEvent(e, top), events, n) == {}
  {
    var e' := TakeEvent(e, top);
    forall ev | ev in events && ev.update.node == n
      ensures !IsNews(e', ev)
    {
      if IsNews(e, ev) {
        assert ev in News(e, events, n);
      }
    }
  }

  /** Delivered first, a latest event decides. */
  lemma LatestFirst(e: Engine, top: Stamped, events: set<Stamped>, n: nat) returns (a: seq<Stamped>)
    requires IdsIdentify(events) && Latest(top, News(e, events, n))
    ensures EventSet(a) == events
    ensures ClaimAt(TakeEvents(e, a), n) == ClaimAt(TakeEvent(e, top), n)
  {
    var rest := Listed(events);
    a := [top] + rest;
    assert EventSet(a) == events;
    EventsJoin(e, [top], rest);
    OneEvent(e, top);
    NoMoreNews(e, top, events, n);
    EventsSettle(TakeEvent(e, top), rest, events, n);
  }

  lemma OneEvent(e: Engine, ev: Stamped)
    ensures TakeEvents(e, [ev]) == TakeEvent(e, ev)
  {
    assert [ev][..0] == [];
  }

  /** Delivered first, any news holds its claim to the end. */
  lemma NewsFirst(e: Engine, ev: Stamped, events: set<Stamped>, n: nat) returns (b: seq<Stamped>)
    requires ev in News(e, events, n)
    ensures EventSet(b) == events
    ensures n in TakeEvents(e, b).peers && Claimed(ev.update).AtMost(ClaimOf(TakeEvents(e, b).peers[n]))
  {
    var rest := Listed(events);
    b := [ev] + rest;
    assert EventSet(b) == events;
    EventsJoin(e, [ev], rest);
    OneEvent(e, ev);
    EventsNeverLower(TakeEvent(e, ev), rest, n);
  }

  lemma DisagreeOtherwise(e: Engine, top: Stamped, ev: Stamped, events: set<Stamped>, n: nat)
    requires IdsIdentify(events) && Latest(top, News(e, events, n)) && ev in News(e, events, n)
    requires !Claimed(ev.update).AtMost(Claimed(top.update))
    requires n in e.peers ==> !Claimed(ev.update).AtMost(ClaimOf(e.peers[n]))
    ensures !AllOrdersAgree(e, events, n)
  {
    var a := LatestFirst(e, top, events, n);
    var b := NewsFirst(e, ev, events, n);
    assert ClaimAt(TakeEvents(e, a), n) != ClaimAt(TakeEvents(e, b), n);
  }

  /** Timestamped gossip about a peer converges, over all orders and repetitions of the same
      events, exactly when each latest event that is news claims at least as much as the rest,
      or the table already does. */
  lemma OrdersAgreeIff(e: Engine, events: set<Stamped>, n: nat)
    requires IdsIdentify(events)
    ensures AllOrdersAgree(e, events, n) <==> LatestIsGreatest(e, News(e, events, n), n)
  {
    var news := News(e, events, n);
    if LatestIsGreatest(e, news, n) {
      forall a, b | EventSet(a) == events && EventSet(b) == events
        ensures ClaimAt(TakeEvents(e, a), n) == ClaimAt(TakeEvents(e, b), n)
      {
        AgreeIfGreatest(e, a, b, n);
      }
    } else {
      var top, ev :| Latest(top, news) && ev in news
                  && !(|| Claimed(ev.update).AtMost(Claimed(top.update))
                       || (n in e.peers && Claimed(ev.update).AtMost(ClaimOf(e.peers[n]))));
      DisagreeOtherwise(e, top, ev, events, n);
    }
  }

  /** Two events about a peer not yet known whose order decides its incarnation. */
  lemma StampsCanDiverge(e: Engine, n: nat, addr: string, source: nat)
    requires n !in e.peers && n !in e.latest
    requires EventId(source, 1) !in e.seenEvents && EventId(source, 2) !in e.seenEvents
    ensures var older := Stamped(EventId(source, 1), Timestamp(5, 0), Update(n, 2, addr, Alive));
            var newer := Stamped(EventId(source, 2), Timestamp(6, 0), Update(n, 1, addr, Alive));
            && ClaimAt(TakeEvents(e, [older, newer]), n) == Some(Claim(2, 0))
            && ClaimAt(TakeEvents(e, [newer, older]), n) == Some(Claim(1, 0))
  {
    var older := Stamped(EventId(source, 1), Timestamp(5, 0), Update(n, 2, addr, Alive));
    var newer := Stamped(EventId(source, 2), Timestamp(6, 0), Update(n, 1, addr, Alive));
    OneEvent(e, older);
    OneEvent(e, newer);
    EventsJoin(e, [older], [newer]);
    EventsJoin(e, [newer], [older]);
    OneEvent(TakeEvent(e, older), newer);
    OneEvent(TakeEvent(e, newer), older);
    assert [older] + [newer] == [older, newer] && [newer] + [older] == [newer, older];
  }
}
