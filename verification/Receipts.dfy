/**
 Receipt anchoring over whole chains: a job is anchored at most once, and a mark, once
 committed, stays.
 */
module Receipts {
  import opened Numeric
  import opened Types
  import opened LedgerSpec
  import opened Blocks
  import opened Replay
  import Chain
  import Slashing

  type Marks = map<JobId, u64>

  predicate Extends(before: Marks, after: Marks) {
    forall j :: j in before ==> j in after && after[j] == before[j]
  }

  predicate DistinctJobs(receipts: seq<Receipt>) {
    forall i, k :: 0 <= i < k < |receipts| ==> receipts[i].job != receipts[k].job
  }

  /** A batch marked to its end has no repeated job and none seen before. */
  lemma {:induction false} MarkedAreNew(seen: Marks, receipts: seq<Receipt>, height: u64)
    requires MarkReceipts(seen, receipts, height).1 == None
    ensures DistinctJobs(receipts) && forall i :: 0 <= i < |receipts| ==> receipts[i].job !in seen
    decreases |receipts|
  {
    if receipts != [] {
      var rest := receipts[1..];
      MarkedAreNew(seen[receipts[0].job := height], rest, height);
      forall i | 0 < i < |receipts|
        ensures receipts[i].job != receipts[0].job && receipts[i].job !in seen
      {
        assert receipts[i] == rest[i - 1];
      }
      forall i, k | 0 < i < k < |receipts|
        ensures receipts[i].job != receipts[k].job
      {
        assert receipts[i] == rest[i - 1] && receipts[k] == rest[k - 1];
      }
    }
  }

  /** Each job is named by at most one of the transactions, once, and by none if marked in `seen`. */
  ghost predicate AnchoredOnce(seen: Marks, txs: seq<SignedTx>) {
    && (forall i, j :: 0 <= i < |txs| && Names(txs[i], j) ==> j !in seen)
    && (forall i, k, j :: 0 <= i < k < |txs| && Names(txs[i], j) ==> !Names(txs[k], j))
    && forall i :: 0 <= i < |txs| && txs[i].tx.AnchorReceipts? ==> DistinctJobs(txs[i].tx.batch.receipts)
  }

  /** The transactions anchored each job once, and the marks they left are in `now`. */
  ghost predicate Accounts(seen: Marks, txs: seq<SignedTx>, now: Marks) {
    && AnchoredOnce(seen, txs)
    && Extends(seen, now)
    && forall i, j :: 0 <= i < |txs| && Names(txs[i], j) ==> j in now
  }

  /** An applied batch names only new jobs and marks them; nothing else marks or unmarks. */
  ghost predicate Marked(before: Marks, stx: SignedTx, after: Marks) {
    && Extends(before, after)
    && (forall j :: Names(stx, j) ==> j !in before && j in after)
    && (stx.tx.AnchorReceipts? ==> DistinctJobs(stx.tx.batch.receipts))
  }

  lemma BatchMarks(bootstrap: bool, book: ReceiptBook, stx: SignedTx, height: u64)
    requires stx.tx.AnchorReceipts? && Anchored(bootstrap, book, stx.tx.batch, height).outcome.Applied?
    ensures Marked(book.receipts, stx, Anchored(bootstrap, book, stx.tx.batch, height).book.receipts)
  {
    var receipts := stx.tx.batch.receipts;
    MarkedAreNew(book.receipts, receipts, height);
    MarkingAddsJobs(book.receipts, receipts, height);
    MarksOnlyGrow(book.receipts, receipts, height);
  }

  lemma StepMarks(base: Columns, live: Columns, stx: SignedTx)
    requires Apply(base, live, stx).outcome.Applied?
    ensures Marked(live.receipts, stx, Apply(base, live, stx).live.receipts)
  {
    if stx.tx.AnchorReceipts? {
      hide Anchored, InBootstrap, Marked;
      BatchMarks(InBootstrap(live.height, |base.validators|), ReceiptsOf(live), stx, live.height);
    } else if stx.tx.Dispute? {
    } else {
      hide Apply;
      IgnoresMarks(base, live, live.receipts, stx);
    }
  }

  lemma DroppedMarks(base: Columns, live: Columns, stx: SignedTx)
    requires Apply(base, live, stx).outcome.Dropped?
    ensures Extends(live.receipts, Apply(base, live, stx).live.receipts)
  {
    RejectedLeavesLedgerExactly(base, live, stx);
    if stx.tx.AnchorReceipts? && StartsMarking(live.receipts, stx.tx) {
      MarksOnlyGrow(live.receipts, stx.tx.batch.receipts, live.height);
    }
  }

  lemma OneMore(seen: Marks, txs: seq<SignedTx>, before: Marks, stx: SignedTx, after: Marks)
    requires Accounts(seen, txs, before) && Marked(before, stx, after)
    ensures Accounts(seen, txs + [stx], after)
  {
  }

  lemma MarksGrow(seen: Marks, txs: seq<SignedTx>, before: Marks, after: Marks)
    requires Accounts(seen, txs, before) && Extends(before, after)
    ensures Accounts(seen, txs, after)
  {
  }

  lemma {:induction false} PassMarks(seen: Marks, landed: seq<SignedTx>, base: Columns, txs: seq<SignedTx>)
    requires Accounts(seen, landed, base.receipts) && RunAll(base, txs).Pass?
    ensures Accounts(seen, landed + RunAll(base, txs).kept, RunAll(base, txs).live.receipts)
  {
    hide Accounts, Marked, Extends;
    if txs == [] {
      assert landed + [] == landed;
    } else {
      var pass, stx := RunAll(base, txs[..|txs| - 1]), txs[|txs| - 1];
      PassMarks(seen, landed, base, txs[..|txs| - 1]);
      var step := Apply(base, pass.live, stx);
      if step.outcome.Applied? {
        StepMarks(base, pass.live, stx);
        OneMore(seen, landed + pass.kept, pass.live.receipts, stx, step.live.receipts);
        assert landed + (pass.kept + [stx]) == landed + pass.kept + [stx];
      } else {
        DroppedMarks(base, pass.live, stx);
        MarksGrow(seen, landed + pass.kept, pass.live.receipts, step.live.receipts);
      }
    }
  }

  lemma {:induction false} SlashesKeepMarks(base: Columns, live: Columns, txs: seq<SignedTx>)
    requires SlashAll(base, live, txs).Some?
    ensures SlashAll(base, live, txs).value.receipts == live.receipts
  {
    hide Slashing.Slashed;
    if txs != [] {
      SlashesKeepMarks(base, live, txs[..|txs| - 1]);
    }
  }

  /** Over every chain each job is anchored by at most one applied batch, in one place in
      it, and never if it was marked before; marks are neither lost nor redated. */
  lemma {:induction false} JobsAnchoredOnce(genesis: Columns, blocks: seq<Block>)
    ensures Accounts(genesis.receipts, Chain.Landed(genesis, blocks), Chain.After(genesis, blocks).receipts)
  {
    if blocks != [] {
      hide Accounts, Rotated, SlashAll, RunAll;
      var earlier, block := blocks[..|blocks| - 1], blocks[|blocks| - 1];
      var base := Chain.After(genesis, earlier);
      JobsAnchoredOnce(genesis, earlier);
      if Accepts(base, block) {
        PassMarks(genesis.receipts, Chain.Landed(genesis, earlier), base, block.txs);
        var live := RunAll(base, block.txs).live;
        SlashesKeepMarks(base, live, block.txs);
        RotatedKeepsRest(base, SlashAll(base, live, block.txs).value, block.header);
      } else {
        assert Chain.Landed(genesis, earlier) + [] == Chain.Landed(genesis, earlier);
      }
    }
  }
}
