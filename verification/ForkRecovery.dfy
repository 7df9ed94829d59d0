/** src/fork_recovery_policy.h: finding the last common block of two chains with
    logarithmically many questions to the peer. */
module ForkRecovery {
  import opened ByteCodec

  const MAX_DISCONNECT_BLOCKS: nat := 4096

  datatype Discovery = Found | BeyondWindow | LocalUnavailable | PeerUnavailable
  datatype AncestorResult = AncestorResult(state: Discovery, height: nat, probes: nat)

  /** A chain's hash at a height; an empty text is one that cannot be obtained. */
  type Hashes = nat -> Text

  predicate Available(chain: Hashes, h: nat) {
    chain(h) != []
  }

  predicate Agree(local: Hashes, peer: Hashes, h: nat) {
    Available(local, h) && Available(peer, h) && local(h) == peer(h)
  }

  predicate Differ(local: Hashes, peer: Hashes, h: nat) {
    Available(local, h) && Available(peer, h) && local(h) != peer(h)
  }

  function Low(localTip: nat, maxDisconnect: nat): nat {
    if localTip > maxDisconnect then localTip - maxDisconnect else 1
  }

  function High(localTip: nat, peerTip: nat): nat {
    if localTip <= peerTip then localTip else peerTip
  }

  /** How often a width can be halved, rounding up, before it is one. */
  function CeilLog2(n: nat): nat {
    if n <= 1 then 0 else 1 + CeilLog2((n + 1) / 2)
  }

  lemma {:induction false} CeilLog2Monotone(m: nat, n: nat)
    requires m <= n
    ensures CeilLog2(m) <= CeilLog2(n)
    decreases n
  {
    if n > 1 && m > 1 {
      CeilLog2Monotone((m + 1) / 2, (n + 1) / 2);
    }
  }

  /** CeilLog2 is the least power of two that covers the width. */
  lemma {:induction false} CeilLog2Covers(n: nat)
    requires n > 0
    ensures n <= Pow2(CeilLog2(n))
    ensures n > 1 ==> Pow2(CeilLog2(n) - 1) < n
  {
    if n > 1 {
      CeilLog2Covers((n + 1) / 2);
    }
  }

  function Pow2(k: int): nat {
    if k <= 0 then 1 else 2 * Pow2(k - 1)
  }

  /** One comparison: the local hash first, and only then a question to the peer. */
  method EqualAt(local: Hashes, peer: Hashes, h: nat, result: AncestorResult) returns (next: AncestorResult, known: bool, equal: bool)
    ensures known ==> next == result.(probes := result.probes + 1)
    ensures known ==> if equal then Agree(local, peer, h) else Differ(local, peer, h)
    ensures !known ==> next.height == result.height && result.probes <= next.probes <= result.probes + 1
    ensures !known ==> (next.state == LocalUnavailable && !Available(local, h))
                       || (next.state == PeerUnavailable && Available(local, h) && !Available(peer, h))
  {
    next, equal := result, false;
    if local(h) == [] {
      return next.(state := LocalUnavailable), false, false;
    }
    next := next.(probes := next.probes + 1);
    if peer(h) == [] {
      return next.(state := PeerUnavailable), false, false;
    }
    return next, true, local(h) == peer(h);
  }

  /** findAncestor. With no assumption on the chains, Found means they agree at the height
      and it is the shared top or they part right above it; the number of questions is
      logarithmic in the window. */
  method FindAncestor(localTip: nat, peerTip: nat, maxDisconnect: nat, local: Hashes, peer: Hashes)
    returns (r: AncestorResult)
    ensures r.state == Found ==>
              && 1 <= Low(localTip, maxDisconnect) <= r.height <= High(localTip, peerTip)
              && Agree(local, peer, r.height)
              && (r.height == High(localTip, peerTip) || Differ(local, peer, r.height + 1))
    ensures r.state == BeyondWindow ==>
              var low, high := Low(localTip, maxDisconnect), High(localTip, peerTip);
              low <= high ==> Differ(local, peer, low) && Differ(local, peer, high)
    ensures r.state == LocalUnavailable ==>
              exists h :: Low(localTip, maxDisconnect) <= h <= High(localTip, peerTip) && !Available(local, h)
    ensures r.state == PeerUnavailable ==>
              exists h :: Low(localTip, maxDisconnect) <= h <= High(localTip, peerTip) && !Available(peer, h)
    ensures var low, high := Low(localTip, maxDisconnect), High(localTip, peerTip);
            r.probes <= if low < high then 2 + CeilLog2(high - low) else 1
  {
    r := AncestorResult(BeyondWindow, 0, 0);
    var high, low := High(localTip, peerTip), Low(localTip, maxDisconnect);
    if high == 0 || low > high {
      return;
    }
    var known, equal;
    r, known, equal := EqualAt(local, peer, high, r);
    if !known {
      return;
    }
    if equal {
      return r.(state := Found, height := high);
    }
    if low == high {
      return;
    }
    r, known, equal := EqualAt(local, peer, low, r);
    if !known {
      return;
    }
    if !equal {
      return r.(state := BeyondWindow);
    }
    var lo, hi := low, high;
    while hi - lo > 1
      invariant low <= lo < hi <= high
      invariant Agree(local, peer, lo) && Differ(local, peer, hi)
      invariant r.probes + CeilLog2(hi - lo) <= 2 + CeilLog2(high - low)
      decreases hi - lo
    {
      var mid := lo + (hi - lo) / 2;
      CeilLog2Monotone(mid - lo, (hi - lo + 1) / 2);
      CeilLog2Monotone(hi - mid, (hi - lo + 1) / 2);
      r, known, equal := EqualAt(local, peer, mid, r);
      if !known {
        return;
      }
      if equal {
        lo := mid;
      } else {
        hi := mid;
      }
    }
    return r.(state := Found, height := lo);
  }

  /** Two chains that agree at a height agree at every height below it. */
  ghost predicate CommonPrefix(local: Hashes, peer: Hashes) {
    forall h, k :: k <= h && Agree(local, peer, h) ==> Agree(local, peer, k)
  }

  /** For real chains the answer is exact: Found is the greatest common height of the
      window, BeyondWindow means the window holds none. */
  method FindGreatestCommon(localTip: nat, peerTip: nat, maxDisconnect: nat, local: Hashes, peer: Hashes)
    returns (r: AncestorResult)
    requires CommonPrefix(local, peer)
    ensures r.state == Found ==>
              && Low(localTip, maxDisconnect) <= r.height <= High(localTip, peerTip)
              && Agree(local, peer, r.height)
              && forall h :: r.height < h <= High(localTip, peerTip) ==> !Agree(local, peer, h)
    ensures r.state == BeyondWindow ==>
              forall h :: Low(localTip, maxDisconnect) <= h <= High(localTip, peerTip) ==> !Agree(local, peer, h)
    ensures (forall h :: Low(localTip, maxDisconnect) <= h <= High(localTip, peerTip) ==>
               Available(local, h) && Available(peer, h))
            ==> (r.state == Found
                 <==> exists h :: Low(localTip, maxDisconnect) <= h <= High(localTip, peerTip) && Agree(local, peer, h))
  {
    r := FindAncestor(localTip, peerTip, maxDisconnect, local, peer);
    if r.state == Found && r.height < High(localTip, peerTip) {
      var next := r.height + 1;
      forall h | r.height < h <= High(localTip, peerTip) ensures !Agree(local, peer, h) {
        assert Agree(local, peer, h) ==> Agree(local, peer, next);
      }
    }
    if r.state == BeyondWindow && Low(localTip, maxDisconnect) <= High(localTip, peerTip) {
      var low := Low(localTip, maxDisconnect);
      forall h | Low(localTip, maxDisconnect) <= h <= High(localTip, peerTip) ensures !Agree(local, peer, h) {
        assert Agree(local, peer, h) ==> Agree(local, peer, low);
      }
    }
  }

  /** The production window never needs more than fourteen questions. */
  lemma FourteenProbes(localTip: nat, peerTip: nat)
    ensures var low, high := Low(localTip, MAX_DISCONNECT_BLOCKS), High(localTip, peerTip);
            low < high ==> 2 + CeilLog2(high - low) <= 14
  {
    var low, high := Low(localTip, MAX_DISCONNECT_BLOCKS), High(localTip, peerTip);
    if low < high {
      CeilLog2Monotone(high - low, 4096);
      assert CeilLog2(4096) == 2 + CeilLog2(1024);
      assert CeilLog2(1024) == 2 + CeilLog2(256);
      assert CeilLog2(256) == 2 + CeilLog2(64);
      assert CeilLog2(64) == 2 + CeilLog2(16);
      assert CeilLog2(16) == 2 + CeilLog2(4);
      assert CeilLog2(4) == 2;
    }
  }
}
