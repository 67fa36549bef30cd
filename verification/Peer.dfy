/**
 Catching up from a peer: choosing it and paging its blocks (src/peer/mod.rs), buffering live blocks
 meanwhile and applying both after the snapshot (src/indexer/mod.rs).
 */
module Peer {
  import opened Ints

  const PAGE: nat := 200
  const PEER_LIVE_BUFFER_MAX: nat := 256

  datatype Block = Block(num: u64, digest: string, payload: string)

  // ---- Choosing a peer ----

  datatype PeerTip = PeerTip(url: string, blockNum: u64, checkpoint: Option<u64>)

  predicate Eligible(tip: PeerTip, local: u64, threshold: u64) {
    tip.blockNum > SatAdd(local, threshold) && tip.checkpoint.Some?
  }

  /** `max_by_key` over the eligible tips: of several greatest the last one. */
  function SelectCatchupPeer(tips: seq<PeerTip>, local: u64, threshold: u64): (best: Option<nat>)
    ensures best.None? <==> forall i :: 0 <= i < |tips| ==> !Eligible(tips[i], local, threshold)
    ensures best.Some? ==>
              && best.value < |tips| && Eligible(tips[best.value], local, threshold)
              && (forall i :: 0 <= i < |tips| && Eligible(tips[i], local, threshold) ==> tips[i].blockNum <= tips[best.value].blockNum)
              && (forall i :: best.value < i < |tips| && Eligible(tips[i], local, threshold) ==> tips[i].blockNum < tips[best.value].blockNum)
  {
    if tips == [] then None
    else
      var n := |tips| - 1;
      var rest := SelectCatchupPeer(tips[..n], local, threshold);
      if !Eligible(tips[n], local, threshold) then rest
      else if rest.Some? && tips[n].blockNum < tips[rest.value].blockNum then rest
      else Some(n)
  }

  /** A peer is worth asking when it has a checkpoint and is more than the threshold ahead, as integers count. */
  lemma EligibleIff(tip: PeerTip, local: u64, threshold: u64)
    ensures Eligible(tip, local, threshold) <==> tip.blockNum as int - local as int > threshold && tip.checkpoint.Some?
  {
  }

  // ---- Paging ----

  /** Rows are kept by block number. */
  ghost predicate Sorted(rows: seq<Block>) {
    forall i, j :: 0 <= i < j < |rows| ==> rows[i].num < rows[j].num
  }

  /** The rows after a block number. */
  function After(rows: seq<Block>, num: u64): seq<Block> {
    if rows == [] then [] else if rows[0].num > num then rows else After(rows[1..], num)
  }

  /** The first j rows are up to a number, the others after it. */
  ghost predicate Cut(rows: seq<Block>, num: u64, j: nat) {
    && j <= |rows|
    && (forall i :: 0 <= i < j ==> rows[i].num <= num)
    && (forall i :: j <= i < |rows| ==> rows[i].num > num)
  }

  lemma {:induction false} AfterCut(rows: seq<Block>, num: u64, j: nat)
    requires Cut(rows, num, j)
    ensures After(rows, num) == rows[j..]
  {
    if j > 0 {
      AfterCut(rows[1..], num, j - 1);
      assert rows[1..][j - 1..] == rows[j..];
    }
  }

  lemma {:induction false} CutExists(rows: seq<Block>, num: u64) returns (j: nat)
    requires Sorted(rows)
    ensures Cut(rows, num, j)
  {
    if rows == [] || rows[0].num > num {
      j := 0;
    } else {
      j := CutExists(rows[1..], num);
      j := j + 1;
    }
  }

  function Take<T>(s: seq<T>, n: nat): seq<T> { if |s| <= n then s else s[..n] }

  /** A peer whose block store may grow between two requests, up to the blocks it will ever store. */
  class PeerStore {
    const all: seq<Block>
    var shown: nat

    ghost predicate Valid()
      reads this
    {
      Sorted(all) && shown <= |all|
    }

    constructor (all: seq<Block>, shown: nat)
      requires Sorted(all) && shown <= |all|
      ensures Valid() && this.all == all && this.shown == shown
    {
      this.all, this.shown := all, shown;
    }

    method BlocksAfter(after: u64, limit: nat) returns (page: seq<Block>)
      requires Valid() && limit > 0
      modifies this
      ensures Valid() && old(shown) <= shown
      ensures page == Take(After(all[..shown], after), limit)
    {
      var before := shown;
      var now :| before <= now <= |all|;
      shown := now;
      page := Take(After(all[..shown], after), limit);
    }
  }

  lemma {:induction false} PageIsNext(all: seq<Block>, shown: nat, j: nat, after: u64)
    requires Cut(all, after, j) && shown <= |all|
    ensures After(all[..shown], after) == if j <= shown then all[j..shown] else []
  {
    AfterCut(all[..shown], after, if j <= shown then j else shown);
  }

  lemma CutAtLast(all: seq<Block>, n: nat)
    requires Sorted(all) && 0 < n <= |all|
    ensures Cut(all, all[n - 1].num, n)
  {
  }

  /**
   Pages until one is short. The result is every stored row after the given block, without a gap: all
   that were stored at the call, and those that arrived before the last request.
   */
  method DownloadBlocksUntilEmpty(peer: PeerStore, afterBlockNum: u64) returns (all: seq<Block>)
    requires peer.Valid()
    modifies peer
    ensures peer.Valid() && old(peer.shown) <= peer.shown
    ensures all == After(peer.all[..peer.shown], afterBlockNum)
  {
    var after := afterBlockNum;
    all := [];
    ghost var start := CutExists(peer.all, after);
    ghost var j := start;
    var more := true;
    while more
      invariant peer.Valid() && old(peer.shown) <= peer.shown
      invariant start <= j <= |peer.all| && (j <= peer.shown || j == start)
      invariant Cut(peer.all, after, j) && all == peer.all[start..j]
      invariant !more ==> j >= peer.shown
      decreases more, |peer.all| - j
    {
      var page := peer.BlocksAfter(after, PAGE);
      PageIsNext(peer.all, peer.shown, j, after);
      if page == [] {
        more := false;
      } else {
        NextPage(peer.all, peer.shown, start, j, page);
        after := page[|page| - 1].num;
        all := all + page;
        j := j + |page|;
        more := |page| >= PAGE;
      }
    }
    PageIsNext(peer.all, peer.shown, start, afterBlockNum);
  }

  lemma NextPage(all: seq<Block>, shown: nat, start: nat, j: nat, page: seq<Block>)
    requires Sorted(all) && start <= j <= shown <= |all| && page == Take(all[j..shown], PAGE) && page != []
    ensures j + |page| <= shown && (|page| < PAGE ==> j + |page| == shown)
    ensures all[start..j] + page == all[start..j + |page|]
    ensures Cut(all, page[|page| - 1].num, j + |page|)
  {
    assert page == all[j..j + |page|];
    CutAtLast(all, j + |page|);
  }

  // ---- Live buffer ----

  /** What is left in the buffer: the newest blocks. */
  method BufferLive(arrivals: seq<Block>) returns (buffer: seq<Block>)
    ensures buffer == if |arrivals| <= 256 then arrivals else arrivals[|arrivals| - 256..]
  {
    buffer := [];
    for i := 0 to |arrivals|
      invariant buffer == if i <= PEER_LIVE_BUFFER_MAX then arrivals[..i] else arrivals[i - PEER_LIVE_BUFFER_MAX..i]
    {
      if |buffer| >= PEER_LIVE_BUFFER_MAX {
        buffer := buffer[1..];
      }
      buffer := buffer + [arrivals[i]];
    }
  }

  // ---- Applying ----

  function Digests(blocks: seq<Block>): set<string> { set b | b in blocks :: b.digest }

  /** The buffered blocks whose digest was not applied yet. */
  function Unseen(buffer: seq<Block>, seen: set<string>): seq<Block> {
    if buffer == [] then []
    else if buffer[0].digest in seen then Unseen(buffer[1..], seen)
    else [buffer[0]] + Unseen(buffer[1..], seen + {buffer[0].digest})
  }

  datatype Tip = Tip(num: u64, digest: string)

  function TipOf(snapshot: Tip, applied: seq<Block>): Tip {
    if applied == [] then snapshot else Tip(applied[|applied| - 1].num, applied[|applied| - 1].digest)
  }

  /** The blocks applied after the snapshot, in order, and the head they lead to. */
  method ApplyCatchup(snapshot: Tip, peerBlocks: seq<Block>, liveBuffer: seq<Block>) returns (applied: seq<Block>, tip: Tip)
    ensures applied == peerBlocks + Unseen(liveBuffer, {snapshot.digest} + Digests(peerBlocks))
    ensures tip == TipOf(snapshot, applied)
  {
    var seen := {snapshot.digest} + Digests(peerBlocks);
    applied, tip := [], snapshot;
    for i := 0 to |peerBlocks|
      invariant applied == peerBlocks[..i] && tip == TipOf(snapshot, applied)
    {
      applied := applied + [peerBlocks[i]];
      tip := Tip(peerBlocks[i].num, peerBlocks[i].digest);
    }
    assert peerBlocks[..|peerBlocks|] == peerBlocks;
    ghost var all := applied + Unseen(liveBuffer, seen);
    assert liveBuffer[0..] == liveBuffer;
    for i := 0 to |liveBuffer|
      invariant applied + Unseen(liveBuffer[i..], seen) == all
      invariant tip == TipOf(snapshot, applied)
    {
      var block := liveBuffer[i];
      assert liveBuffer[i..][1..] == liveBuffer[i + 1..];
      if block.digest in seen {
        continue;
      }
      UnseenFirst(applied, liveBuffer[i..], seen);
      applied := applied + [block];
      seen := seen + {block.digest};
      tip := Tip(block.num, block.digest);
    }
  }

  lemma {:induction false} UnseenFirst(applied: seq<Block>, buffer: seq<Block>, seen: set<string>)
    requires buffer != [] && buffer[0].digest !in seen
    ensures applied + Unseen(buffer, seen) == applied + [buffer[0]] + Unseen(buffer[1..], seen + {buffer[0].digest})
  {
  }

  // ---- When catching up is replaying the chain ----

  /** Block n of a chain has number n, and digests tell blocks apart. */
  ghost predicate IsChain(chain: seq<Block>) {
    && (forall n :: 0 <= n < |chain| ==> chain[n].num == n)
    && (forall m, n :: 0 <= m < n < |chain| ==> DigestsDiffer(chain, m, n))
  }

  ghost predicate DigestsDiffer(chain: seq<Block>, m: nat, n: nat)
    requires m < |chain| && n < |chain|
  {
    chain[m].digest != chain[n].digest
  }

  /** Of consecutive blocks, the unseen ones are those outside the consecutive blocks that were seen. */
  lemma {:induction false} UnseenOutside(chain: seq<Block>, from: nat, to: nat, c: nat, p: nat, seen: set<string>)
    requires IsChain(chain) && from <= to <= |chain| && c < p <= |chain|
    requires forall n :: from <= n < to ==> (chain[n].digest in seen <==> c <= n < p)
    ensures Unseen(chain[from..to], seen) == Outside(chain, from, to, c, p)
    decreases |chain| - from
  {
    if from < to {
      assert chain[from..to][1..] == chain[from + 1..to];
      OutsideStep(chain, from, to, c, p);
      var now := if c <= from < p then seen else seen + {chain[from].digest};
      forall n | from < n < to
        ensures chain[n].digest in now <==> c <= n < p
      {
        assert DigestsDiffer(chain, from, n);
      }
      UnseenOutside(chain, from + 1, to, c, p, now);
    }
  }

  function Slice(chain: seq<Block>, from: nat, to: nat): seq<Block>
    requires to <= |chain|
  {
    if from < to then chain[from..to] else []
  }

  lemma SliceFirst(chain: seq<Block>, from: nat, to: nat)
    requires from < to <= |chain|
    ensures Slice(chain, from, to) == [chain[from]] + Slice(chain, from + 1, to)
  {
  }

  function Outside(chain: seq<Block>, from: nat, to: nat, c: nat, p: nat): seq<Block>
    requires from <= to <= |chain|
  {
    Slice(chain, from, Min(c, to)) + Slice(chain, Max(from, p), to)
  }

  lemma OutsideStep(chain: seq<Block>, from: nat, to: nat, c: nat, p: nat)
    requires from < to <= |chain| && c < p
    ensures Outside(chain, from, to, c, p) ==
            (if c <= from < p then [] else [chain[from]]) + Outside(chain, from + 1, to, c, p)
  {
    if from < c {
      SliceFirst(chain, from, Min(c, to));
    } else if p <= from {
      SliceFirst(chain, from, to);
    }
  }

  function Min(a: nat, b: nat): nat { if a <= b then a else b }

  function Max(a: nat, b: nat): nat { if a >= b then a else b }

  /** What is applied after a snapshot of block c, peer blocks up to p - 1 and a buffer of blocks q to r - 1. */
  function CaughtUp(chain: seq<Block>, c: nat, p: nat, q: nat, r: nat): seq<Block>
    requires c < p <= |chain| && q <= r <= |chain|
  {
    chain[c + 1..p] + Unseen(chain[q..r], {chain[c].digest} + Digests(chain[c + 1..p]))
  }

  lemma SeenIff(chain: seq<Block>, c: nat, p: nat, n: nat)
    requires IsChain(chain) && c < p <= |chain| && n < |chain|
    ensures chain[n].digest in {chain[c].digest} + Digests(chain[c + 1..p]) <==> c <= n < p
  {
    var seen := {chain[c].digest} + Digests(chain[c + 1..p]);
    if c < n < p {
      assert chain[c + 1..p][n - c - 1] == chain[n];
    }
    if chain[n].digest in seen {
      var m := c;
      if chain[n].digest != chain[c].digest {
        var b :| b in chain[c + 1..p] && b.digest == chain[n].digest;
        var i :| 0 <= i < |chain[c + 1..p]| && chain[c + 1..p][i] == b;
        m := c + 1 + i;
      }
      assert m < n ==> DigestsDiffer(chain, m, n);
      assert n < m ==> DigestsDiffer(chain, n, m);
    }
  }

  lemma CaughtUpIs(chain: seq<Block>, c: nat, p: nat, q: nat, r: nat)
    requires IsChain(chain) && c < p <= |chain| && q <= r <= |chain|
    ensures CaughtUp(chain, c, p, q, r) ==
            chain[c + 1..p] + Outside(chain, q, r, c, p)
  {
    var seen := {chain[c].digest} + Digests(chain[c + 1..p]);
    forall n | q <= n < r
      ensures chain[n].digest in seen <==> c <= n < p
    {
      SeenIff(chain, c, p, n);
    }
    UnseenOutside(chain, q, r, c, p, seen);
  }

  /** One past the newest block there is. */
  function End(p: nat, q: nat, r: nat): nat { if q == r then p else Max(p, r) }

  /** An empty buffer, or one that starts no earlier than the snapshot and leaves no gap after the peer's blocks. */
  predicate Joins(c: nat, p: nat, q: nat, r: nat) { q == r || (c <= q && (q <= p || r <= p)) }

  lemma JoinedIsReplay(chain: seq<Block>, c: nat, p: nat, q: nat, r: nat)
    requires IsChain(chain) && c < p <= |chain| && q <= r <= |chain| && Joins(c, p, q, r)
    ensures CaughtUp(chain, c, p, q, r) == chain[c + 1..End(p, q, r)]
  {
    CaughtUpIs(chain, c, p, q, r);
    assert Slice(chain, q, Min(c, r)) == [];
    if q < r && p < r {
      assert Max(q, p) == p;
      assert chain[c + 1..p] + ([] + chain[p..r]) == chain[c + 1..r];
    } else {
      assert chain[c + 1..p] + ([] + []) == chain[c + 1..p];
    }
  }

  /**
   Snapshot, peer blocks and live buffer apply every later block once and in order, if and only if the
   buffer is empty, or starts no earlier than the snapshot and no later than one past the peer's blocks.
   */
  lemma CatchupIsReplayIff(chain: seq<Block>, c: nat, p: nat, q: nat, r: nat)
    requires IsChain(chain) && c < p <= |chain| && q <= r <= |chain|
    ensures CaughtUp(chain, c, p, q, r) == chain[c + 1..End(p, q, r)] <==> Joins(c, p, q, r)
  {
    if Joins(c, p, q, r) {
      JoinedIsReplay(chain, c, p, q, r);
    } else if q < c {
      OlderBreaks(chain, c, p, q, r);
    } else {
      CaughtUpIs(chain, c, p, q, r);
      assert |CaughtUp(chain, c, p, q, r)| == (p - c - 1) + (r - q);
    }
  }

  /** A buffer that begins before the snapshot puts an old block again after the peer's blocks. */
  lemma OlderBreaks(chain: seq<Block>, c: nat, p: nat, q: nat, r: nat)
    requires IsChain(chain) && q < c < p <= |chain| && q < r <= |chain|
    ensures CaughtUp(chain, c, p, q, r) != chain[c + 1..End(p, q, r)]
  {
    CaughtUpIs(chain, c, p, q, r);
    var got := CaughtUp(chain, c, p, q, r);
    assert got[p - c - 1] == chain[q];
    if p < r {
      assert chain[c + 1..r][p - c - 1] == chain[p];
      assert chain[q].num != chain[p].num;
    }
  }

  // ---- The state reached ----

  function FoldBlocks<S>(apply: (S, Block) -> S, s: S, blocks: seq<Block>): S {
    if blocks == [] then s else apply(FoldBlocks(apply, s, blocks[..|blocks| - 1]), blocks[|blocks| - 1])
  }

  lemma {:induction false} FoldAppend<S>(apply: (S, Block) -> S, s: S, a: seq<Block>, b: seq<Block>)
    ensures FoldBlocks(apply, s, a + b) == FoldBlocks(apply, FoldBlocks(apply, s, a), b)
  {
    if b == [] {
      assert a + b == a;
    } else {
      assert (a + b)[..|a + b| - 1] == a + b[..|b| - 1];
      FoldAppend(apply, s, a, b[..|b| - 1]);
    }
  }

  /** Folding a chain is folding a prefix and then the rest. */
  lemma FoldRejoin<S>(apply: (S, Block) -> S, s: S, chain: seq<Block>, n: nat, end: nat)
    requires n <= end <= |chain|
    ensures FoldBlocks(apply, FoldBlocks(apply, s, chain[..n]), chain[n..end]) == FoldBlocks(apply, s, chain[..end])
  {
    assert chain[..n] + chain[n..end] == chain[..end];
    FoldAppend(apply, s, chain[..n], chain[n..end]);
  }

  lemma {:induction false} ReplayedState<S>(apply: (S, Block) -> S, genesis: S, chain: seq<Block>, c: nat, end: nat, applied: seq<Block>)
    requires c + 1 <= end <= |chain| && applied == chain[c + 1..end]
    ensures FoldBlocks(apply, FoldBlocks(apply, genesis, chain[..c + 1]), applied) == FoldBlocks(apply, genesis, chain[..end])
    ensures TipOf(Tip(chain[c].num, chain[c].digest), applied) == Tip(chain[end - 1].num, chain[end - 1].digest)
  {
    FoldRejoin(apply, genesis, chain, c + 1, end);
    if c + 1 < end {
      assert chain[c + 1..end][end - c - 2] == chain[end - 1];
    }
  }

  /**
   Under that condition catching up reaches the state and head of a node that applied every block once in
   order, whatever applying a block does.
   */
  lemma CatchupState<S>(apply: (S, Block) -> S, genesis: S, chain: seq<Block>, c: nat, p: nat, q: nat, r: nat)
    requires IsChain(chain) && c < p <= |chain| && q <= r <= |chain|
    requires Joins(c, p, q, r)
    ensures FoldBlocks(apply, FoldBlocks(apply, genesis, chain[..c + 1]), CaughtUp(chain, c, p, q, r))
            == FoldBlocks(apply, genesis, chain[..End(p, q, r)])
    ensures var last := chain[End(p, q, r) - 1];
            TipOf(Tip(chain[c].num, chain[c].digest), CaughtUp(chain, c, p, q, r)) == Tip(last.num, last.digest)
  {
    JoinedIsReplay(chain, c, p, q, r);
    ReplayedState(apply, genesis, chain, c, End(p, q, r), CaughtUp(chain, c, p, q, r));
  }
}
