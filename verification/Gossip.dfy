/**
 SWIM membership of crates/chirps-gossip-swim/src/engine.rs: how gossiped updates change
 the peer table, with and without hybrid timestamps.
 */
module Membership {
  import opened Prelude
  import opened Hlc

  datatype Status = Alive | Suspect | Dead

  /** `status_rank`. */
  function Rank(s: Status): nat {
    match s case Alive => 0 case Suspect => 1 case Dead => 2
  }

  datatype EventId = EventId(source: nat, sequence: nat)

  datatype Peer = Peer(addr: string, incarnation: nat, status: Status, eventId: Option<EventId>,
                       timestamp: Option<Timestamp>)

  type Peers = map<nat, Peer>

  datatype Update = Update(node: nat, incarnation: nat, addr: string, status: Status)

  /** `apply_one_membership_update`: the new table, and whether the update was taken. */
  function ApplyOne(peers: Peers, u: Update): (Peers, bool) {
    if u.node !in peers then (peers[u.node := Peer(u.addr, u.incarnation, u.status, None, None)], true)
    else
      var p := peers[u.node];
      if u.incarnation > p.incarnation || (u.incarnation == p.incarnation && Rank(u.status) > Rank(p.status)) then
        (peers[u.node := p.(incarnation := u.incarnation, status := u.status, addr := u.addr)], true)
      else (peers, false)
  }

  function ApplyAll(peers: Peers, updates: seq<Update>): Peers {
    if updates == [] then peers
    else ApplyOne(ApplyAll(peers, updates[..|updates| - 1]), updates[|updates| - 1]).0
  }

  // ------------------------------------------------------------------ the order of claims

  /** What a table or an update claims of a peer: incarnation first, then status. */
  datatype Claim = Claim(incarnation: nat, rank: nat) {
    predicate AtMost(c: Claim) {
      incarnation < c.incarnation || (incarnation == c.incarnation && rank <= c.rank)
    }
  }

  function ClaimOf(p: Peer): Claim {
    Claim(p.incarnation, Rank(p.status))
  }

  function Claimed(u: Update): Claim {
    Claim(u.incarnation, Rank(u.status))
  }

  /** The claims about `n` in a table and a set of updates. */
  ghost function Claims(peers: Peers, updates: set<Update>, n: nat): set<Claim> {
    (set u | u in updates && u.node == n :: Claimed(u)) + if n in peers then {ClaimOf(peers[n])} else {}
  }

  ghost predicate Greatest(c: Claim, claims: set<Claim>) {
    c in claims && forall d | d in claims :: d.AtMost(c)
  }

  function Elements(updates: seq<Update>): set<Update> {
    set u | u in updates
  }

  /** After any updates, each known peer holds the greatest of its old claim and all
      updates about it; a peer is known exactly if it was or some update names it. */
  lemma {:induction false} GossipTakesGreatest(peers: Peers, updates: seq<Update>, n: nat)
    ensures var after := ApplyAll(peers, updates);
            var claims := Claims(peers, Elements(updates), n);
            && (n in after <==> claims != {})
            && (n in after ==> Greatest(ClaimOf(after[n]), claims))
  {
    if updates == [] {
      assert Claims(peers, Elements(updates), n) == if n in peers then {ClaimOf(peers[n])} else {};
    } else {
      var init, last := updates[..|updates| - 1], updates[|updates| - 1];
      GossipTakesGreatest(peers, init, n);
      ClaimsSnoc(peers, init, last, n);
      assert updates == init + [last];
      OneTakesGreatest(ApplyAll(peers, init), last, n, Claims(peers, Elements(init), n));
    }
  }

  lemma ClaimsSnoc(peers: Peers, updates: seq<Update>, u: Update, n: nat)
    ensures Claims(peers, Elements(updates + [u]), n)
         == Claims(peers, Elements(updates), n) + if u.node == n then {Claimed(u)} else {}
  {
    assert Elements(updates + [u]) == Elements(updates) + {u};
  }

  lemma OneTakesGreatest(peers: Peers, u: Update, n: nat, claims: set<Claim>)
    requires n in peers <==> claims != {}
    requires n in peers ==> Greatest(ClaimOf(peers[n]), claims)
    ensures var after := ApplyOne(peers, u).0;
            var claims' := claims + if u.node == n then {Claimed(u)} else {};
            && (n in after <==> claims' != {})
            && (n in after ==> Greatest(ClaimOf(after[n]), claims'))
  {
    if u.node == n {
      assert Claimed(u) in claims + {Claimed(u)};
    }
  }

  lemma GreatestIsUnique(c: Claim, d: Claim, claims: set<Claim>)
    requires Greatest(c, claims) && Greatest(d, claims)
    ensures c == d
  {
  }

  /** Plain gossip converges: any two orders and repetitions of the same updates leave the
      same peers with the same incarnation and status. */
  lemma GossipConverges(peers: Peers, a: seq<Update>, b: seq<Update>, n: nat)
    requires Elements(a) == Elements(b)
    ensures n in ApplyAll(peers, a) <==> n in ApplyAll(peers, b)
    ensures n in ApplyAll(peers, a) ==> ClaimOf(ApplyAll(peers, a)[n]) == ClaimOf(ApplyAll(peers, b)[n])
  {
    GossipTakesGreatest(peers, a, n);
    GossipTakesGreatest(peers, b, n);
    if n in ApplyAll(peers, a) {
      GreatestIsUnique(ClaimOf(ApplyAll(peers, a)[n]), ClaimOf(ApplyAll(peers, b)[n]), Claims(peers, Elements(a), n));
    }
  }

  /** One update never lowers a claim nor loses a peer. */
  lemma OneNeverLowers(peers: Peers, u: Update, n: nat)
    requires n in peers
    ensures n in ApplyOne(peers, u).0 && ClaimOf(peers[n]).AtMost(ClaimOf(ApplyOne(peers, u).0[n]))
  {
  }
}
