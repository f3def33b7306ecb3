/**
 The bounded transaction pool: three indexes and a byte counter over the same entries,
 fee-bump replacement, eviction by priority, block draining and readmission. The value
 the pool stands for is the map from hash to entry; the ranked list is its order by
 descending fee and then arrival.
 */
module Mempool {
  import opened Numeric
  import opened MapSums
  import opened Types

  const MAX_SIGNED_TX_BYTES: u64 := 1024 * 1024

  /** Ordered by fee descending, then arrival. Arrival numbers are unique, so the
      source's last tie-break, on the hash, is never reached. */
  datatype PriorityKey = PriorityKey(fee: u64, seqNo: nat, hash: Transaction)

  datatype Entry = Entry(tx: SignedTx, sender: Address, nonce: u64, fee: u64, seqNo: nat, encodedBytes: u64)

  datatype PoolError =
    | Unsupported(what: string)
    | Duplicate
    | Oversize(actual: u64, max: u64)
    | UnderpricedReplacement(existingFee: u64, incomingFee: u64)

  /** `CounterOverflow` aborts the process. */
  datatype InsertResult = Admitted(hash: Transaction) | Refused(error: PoolError) | CounterOverflow

  datatype Lane = Lane(sender: Address, nonce: u64, fee: u64) | NoLane(what: string)

  type Entries = map<Transaction, Entry>

  /** The sender, nonce and fee under which a transaction is pooled, if it is. */
  function LaneOf(tx: Transaction): Lane {
    match tx
    case Transfer(from, _, _, nonce, fee) => Lane(from, nonce, fee)
    case Stake(_) => NoLane("StakeOp (Week 9)")
    case AnchorReceipts(_) => NoLane("ReceiptBatch (Week 11 mempool lane)")
    case Dispute(_) => NoLane("Dispute (Week 12 mempool lane)")
    case RegisterModel(_, registrar, _) => Lane(registrar, 0, 200_000)
    case EscrowLock(user, _, _, nonce, fee) => Lane(user, nonce, fee)
    case EscrowSettle(_, _) => NoLane("EscrowSettle (proposer-only)")
    case RewardMint(_, _, _) => NoLane("RewardMint (proposer-only)")
    case Propose(proposal) => Lane(proposal.proposer, 0, 500_000)
    case Vote(_, voter, _) => Lane(voter, 0, 30_000)
    case RegisterTee(_, operator, _) => Lane(operator, 0, 200_000)
    case RegisterGateway(_, operator, _, _) => Lane(operator, 0, 100_000)
    case UnregisterGateway(_, operator) => Lane(operator, 0, 50_000)
  }

  predicate Before(fee: u64, seqNo: nat, fee': u64, seqNo': nat) {
    fee > fee' || (fee == fee' && seqNo < seqNo')
  }

  predicate Outranks(e: Entry, f: Entry) {
    Before(e.fee, e.seqNo, f.fee, f.seqNo)
  }

  function KeyOf(e: Entry): PriorityKey {
    PriorityKey(e.fee, e.seqNo, e.tx.tx)
  }

  predicate Precedes(a: PriorityKey, b: PriorityKey) {
    Before(a.fee, a.seqNo, b.fee, b.seqNo)
  }

  function BytesOf(e: Entry): nat {
    e.encodedBytes
  }

  ghost function TotalBytes(m: Entries): nat {
    Sum(m, BytesOf)
  }

  ghost predicate Fits(m: Entries, maxCount: nat, maxBytes: nat) {
    |m| <= maxCount && TotalBytes(m) <= maxBytes
  }

  // ----- Ranked prefixes -----

  predicate Submap(k: Entries, m: Entries) {
    forall h :: h in k ==> h in m && k[h] == m[h]
  }

  /** `k` holds the top-ranked entries of `m`: whatever outranks a member is a member. */
  ghost predicate RankedPrefix(k: Entries, m: Entries) {
    && Submap(k, m)
    && forall h, g :: h in k && g in m && Outranks(m[g], m[h]) ==> g in k
  }

  /** The longest ranked prefix within both caps. */
  ghost predicate LongestFit(k: Entries, m: Entries, maxCount: nat, maxBytes: nat) {
    && RankedPrefix(k, m)
    && Fits(k, maxCount, maxBytes)
    && forall p :: RankedPrefix(p, m) && Fits(p, maxCount, maxBytes) ==> Submap(p, k)
  }

  lemma SubmapEqual(k: Entries, m: Entries)
    requires Submap(k, m) && Submap(m, k)
    ensures k == m
  {
  }

  /** There is only one longest fit. */
  lemma LongestFitUnique(k: Entries, k': Entries, m: Entries, maxCount: nat, maxBytes: nat)
    requires LongestFit(k, m, maxCount, maxBytes) && LongestFit(k', m, maxCount, maxBytes)
    ensures k == k'
  {
    SubmapEqual(k, k');
  }

  lemma {:induction false} SubmapBytes(k: Entries, m: Entries)
    requires Submap(k, m)
    ensures |k| <= |m| && TotalBytes(k) <= TotalBytes(m)
    decreases |k|
  {
    if k != map[] {
      var h :| h in k;
      assert (k - {h}).Keys == k.Keys - {h} && (m - {h}).Keys == m.Keys - {h};
      SubmapBytes(k - {h}, m - {h});
      SumRemove(k, BytesOf, h);
      SumRemove(m, BytesOf, h);
    }
  }

  ghost predicate DistinctSeqs(m: Entries) {
    forall h, g :: h in m && g in m && m[h].seqNo == m[g].seqNo ==> h == g
  }

  /** What `k` leaves out of `m` pays at most what every member pays, and arrived later where it pays as much. */
  ghost predicate KeepsDearest(k: Entries, m: Entries) {
    forall h, g :: h in k && h in m && g in m && g !in k ==>
      m[g].fee < m[h].fee || (m[g].fee == m[h].fee && m[g].seqNo > m[h].seqNo)
  }

  lemma LongestKeepsDearest(k: Entries, m: Entries, maxCount: nat, maxBytes: nat)
    requires LongestFit(k, m, maxCount, maxBytes) && DistinctSeqs(m)
    ensures KeepsDearest(k, m)
  {
    forall h, g | h in k && h in m && g in m && g !in k
      ensures m[g].fee < m[h].fee || (m[g].fee == m[h].fee && m[g].seqNo > m[h].seqNo)
    {
      assert !Outranks(m[g], m[h]) && m[g].seqNo != m[h].seqNo;
    }
  }

  lemma OneMoreBytes(k: Entries, h: Transaction, e: Entry)
    requires h !in k
    ensures |k[h := e]| == |k| + 1 && TotalBytes(k[h := e]) == TotalBytes(k) + e.encodedBytes
  {
    SumUpdate(k, BytesOf, h, e);
    assert k[h := e].Keys == k.Keys + {h};
    assert |k| == |k.Keys| && |k[h := e]| == |k[h := e].Keys|;
  }

  /** And it leaves something out only for want of room: the dearest of what is left out, the earliest where
      several are, would break a cap. */
  lemma LeavesOutForRoom(k: Entries, m: Entries, maxCount: nat, maxBytes: nat, h: Transaction)
    requires LongestFit(k, m, maxCount, maxBytes) && h in m && h !in k
    requires forall g :: g in m && g !in k && g != h ==>
      m[g].fee < m[h].fee || (m[g].fee == m[h].fee && m[g].seqNo > m[h].seqNo)
    ensures |k| <= maxCount && TotalBytes(k) <= maxBytes
    ensures |k| + 1 > maxCount || TotalBytes(k) + m[h].encodedBytes > maxBytes
  {
    var p := k[h := m[h]];
    OneMoreBytes(k, h, m[h]);
    assert RankedPrefix(p, m) && h in p && !Submap(p, k);
  }

  lemma SubmapFits(k: Entries, m: Entries, maxCount: nat, maxBytes: nat)
    requires Submap(k, m) && Fits(m, maxCount, maxBytes)
    ensures Fits(k, maxCount, maxBytes)
  {
    SubmapBytes(k, m);
  }

  /** Every fitting prefix of `m` lies inside `k`. */
  ghost predicate CoversFits(k: Entries, m: Entries, maxCount: nat, maxBytes: nat) {
    forall p :: RankedPrefix(p, m) && Fits(p, maxCount, maxBytes) ==> Submap(p, k)
  }

  /** Dropping the lowest-ranked entry of an over-full prefix keeps every fitting prefix inside. */
  lemma DropLowest(k: Entries, m: Entries, h: Transaction, maxCount: nat, maxBytes: nat)
    requires RankedPrefix(k, m) && !Fits(k, maxCount, maxBytes) && DistinctSeqs(m)
    requires h in k && forall g :: g in k && g != h ==> Outranks(k[g], k[h])
    requires CoversFits(k, m, maxCount, maxBytes)
    ensures RankedPrefix(k - {h}, m)
    ensures CoversFits(k - {h}, m, maxCount, maxBytes)
  {
    hide Fits;
    forall p | RankedPrefix(p, m) && Fits(p, maxCount, maxBytes)
      ensures Submap(p, k - {h})
    {
      if h in p {
        forall g | g in k
          ensures g in p
        {
          if g != h {
            assert Outranks(m[g], m[h]);
          }
        }
        SubmapFits(k, p, maxCount, maxBytes);
        assert false;
      }
    }
  }

  lemma WholeIsPrefix(m: Entries, maxCount: nat, maxBytes: nat)
    ensures RankedPrefix(m, m) && CoversFits(m, m, maxCount, maxBytes)
  {
  }

  lemma LongestIs(k: Entries, m: Entries, maxCount: nat, maxBytes: nat)
    requires RankedPrefix(k, m) && CoversFits(k, m, maxCount, maxBytes) && Fits(k, maxCount, maxBytes)
    ensures LongestFit(k, m, maxCount, maxBytes)
  {
  }

  lemma PrefixFits(k: Entries, m: Entries, hash: Transaction, maxCount: nat, maxBytes: nat)
    requires RankedPrefix(k, m) && CoversFits(k, m, maxCount, maxBytes)
    requires hash !in k && Fits(m - {hash}, maxCount, maxBytes)
    ensures LongestFit(k, m, maxCount, maxBytes)
  {
    SubmapBytes(k, m - {hash});
  }

  /** The last key in priority order. */
  method LastOf(keys: set<PriorityKey>) returns (last: PriorityKey)
    requires keys != {} && forall j, k :: j in keys && k in keys && j.seqNo == k.seqNo ==> j == k
    ensures last in keys && forall j :: j in keys && j != last ==> Precedes(j, last)
  {
    last :| last in keys;
    var rest := keys - {last};
    while rest != {}
      invariant rest <= keys && last in keys
      invariant forall j :: j in keys && j !in rest && j != last ==> Precedes(j, last)
      decreases |rest|
    {
      var j :| j in rest;
      if Precedes(last, j) {
        last := j;
      }
      rest := rest - {j};
    }
  }

  // ----- The indexes -----

  type SenderIndex = map<Address, map<u64, Transaction>>

  ghost predicate GoodEntries(m: Entries, nextSeq: u64) {
    forall h :: h in m ==>
      && m[h].tx.tx == h
      && LaneOf(h) == Lane(m[h].sender, m[h].nonce, m[h].fee)
      && m[h].encodedBytes == m[h].tx.encodedLen <= MAX_SIGNED_TX_BYTES
      && m[h].seqNo < nextSeq
  }

  /** The priority set holds exactly the keys of the entries. */
  ghost predicate PriorityAgrees(byPriority: set<PriorityKey>, m: Entries) {
    && (forall k :: k in byPriority ==> k.hash in m && k == KeyOf(m[k.hash]))
    && (forall h :: h in m ==> KeyOf(m[h]) in byPriority)
  }

  predicate Holds(bySender: SenderIndex, a: Address, n: u64, h: Transaction) {
    a in bySender && n in bySender[a] && bySender[a][n] == h
  }

  /** The sender index holds exactly the entries, at most one per sender and nonce,
      and no empty inner map. */
  ghost predicate SendersAgree(bySender: SenderIndex, m: Entries) {
    && (forall h :: h in m ==> Holds(bySender, m[h].sender, m[h].nonce, h))
    && (forall a, n, h :: Holds(bySender, a, n, h) ==> h in m && m[h].sender == a && m[h].nonce == n)
    && (forall a :: a in bySender ==> bySender[a] != map[])
  }

  function SenderDropped(bySender: SenderIndex, a: Address, n: u64): SenderIndex {
    if a !in bySender then bySender
    else
      var perNonce := bySender[a] - {n};
      if perNonce == map[] then bySender - {a} else bySender[a := perNonce]
  }

  function SenderAdded(bySender: SenderIndex, a: Address, n: u64, h: Transaction): SenderIndex {
    bySender[a := (if a in bySender then bySender[a] else map[])[n := h]]
  }

  lemma DroppedHolds(bySender: SenderIndex, a: Address, n: u64)
    ensures var after := SenderDropped(bySender, a, n);
      forall x, y, h :: Holds(after, x, y, h) <==> Holds(bySender, x, y, h) && !(x == a && y == n)
  {
    if a in bySender {
      var perNonce := bySender[a] - {n};
      assert forall y :: y in bySender[a] && y != n ==> y in perNonce;
    }
  }

  lemma KeysDistinct(byPriority: set<PriorityKey>, m: Entries)
    requires PriorityAgrees(byPriority, m) && DistinctSeqs(m)
    ensures forall j, k :: j in byPriority && k in byPriority && j.seqNo == k.seqNo ==> j == k
    ensures m != map[] ==> byPriority != {}
  {
    if m != map[] {
      var h :| h in m;
      assert KeyOf(m[h]) in byPriority;
    }
  }

  lemma LastIsLowest(byPriority: set<PriorityKey>, m: Entries, last: PriorityKey, nextSeq: u64)
    requires PriorityAgrees(byPriority, m) && GoodEntries(m, nextSeq)
    requires last in byPriority && forall j :: j in byPriority && j != last ==> Precedes(j, last)
    ensures last.hash in m && last == KeyOf(m[last.hash])
    ensures forall g :: g in m && g != last.hash ==> Outranks(m[g], m[last.hash])
  {
    forall g | g in m && g != last.hash
      ensures Outranks(m[g], m[last.hash])
    {
      assert KeyOf(m[g]) in byPriority && KeyOf(m[g]).hash == g;
    }
  }

  lemma GoodAfterRemove(m: Entries, h: Transaction, nextSeq: u64)
    requires GoodEntries(m, nextSeq) && DistinctSeqs(m)
    ensures GoodEntries(m - {h}, nextSeq) && DistinctSeqs(m - {h})
  {
  }

  lemma PriorityAfterRemove(byPriority: set<PriorityKey>, m: Entries, h: Transaction, nextSeq: u64)
    requires PriorityAgrees(byPriority, m) && GoodEntries(m, nextSeq) && h in m
    ensures PriorityAgrees(byPriority - {KeyOf(m[h])}, m - {h})
  {
  }

  lemma SendersAfterRemove(bySender: SenderIndex, m: Entries, h: Transaction)
    requires SendersAgree(bySender, m) && h in m
    ensures SendersAgree(SenderDropped(bySender, m[h].sender, m[h].nonce), m - {h})
  {
    DroppedHolds(bySender, m[h].sender, m[h].nonce);
    var rest := m - {h};
    forall g | g in rest
      ensures Holds(SenderDropped(bySender, m[h].sender, m[h].nonce), rest[g].sender, rest[g].nonce, g)
    {
      assert Holds(bySender, m[g].sender, m[g].nonce, g) && Holds(bySender, m[h].sender, m[h].nonce, h);
    }
  }

  lemma PriorityAfterAdd(byPriority: set<PriorityKey>, m: Entries, e: Entry)
    requires PriorityAgrees(byPriority, m) && e.tx.tx !in m
    ensures PriorityAgrees(byPriority + {KeyOf(e)}, m[e.tx.tx := e])
  {
  }

  lemma GoodAfterAdd(m: Entries, e: Entry, nextSeq: u64)
    requires GoodEntries(m, nextSeq) && GoodEntries(map[e.tx.tx := e], nextSeq) && DistinctSeqs(m)
    requires forall h :: h in m ==> m[h].seqNo != e.seqNo
    ensures GoodEntries(m[e.tx.tx := e], nextSeq) && DistinctSeqs(m[e.tx.tx := e])
  {
    assert e.tx.tx in map[e.tx.tx := e];
  }

  lemma SendersAfterAdd(bySender: SenderIndex, m: Entries, e: Entry)
    requires SendersAgree(bySender, m) && e.tx.tx !in m
    requires forall h :: h in m ==> !(m[h].sender == e.sender && m[h].nonce == e.nonce)
    ensures SendersAgree(SenderAdded(bySender, e.sender, e.nonce, e.tx.tx), m[e.tx.tx := e])
  {
    var after := SenderAdded(bySender, e.sender, e.nonce, e.tx.tx);
    forall x, y, h | Holds(after, x, y, h)
      ensures if x == e.sender && y == e.nonce then h == e.tx.tx else Holds(bySender, x, y, h)
    {
    }
    var added := m[e.tx.tx := e];
    forall h | h in added
      ensures Holds(after, added[h].sender, added[h].nonce, h)
    {
      if h != e.tx.tx {
        assert Holds(bySender, m[h].sender, m[h].nonce, h);
      }
    }
    assert e.nonce in after[e.sender];
  }

  // ----- What a drain picks -----

  function TxsOf(es: seq<Entry>): seq<SignedTx> {
    seq(|es|, i requires 0 <= i < |es| => es[i].tx)
  }

  /** Fees added up, saturating. */
  function GasOf(es: seq<Entry>): u64 {
    if es == [] then 0 else SatAdd64(GasOf(es[..|es| - 1]), es[|es| - 1].fee)
  }

  /** Encoded sizes added up, saturating. */
  function SizeOf(es: seq<Entry>): u64 {
    if es == [] then 0 else SatAdd64(SizeOf(es[..|es| - 1]), es[|es| - 1].encodedBytes)
  }

  predicate Affordable(es: seq<Entry>, e: Entry, maxGas: u64, maxBytes: u64) {
    SatAdd64(GasOf(es), e.fee) <= maxGas && SatAdd64(SizeOf(es), e.encodedBytes) <= maxBytes
  }

  predicate RankSorted(es: seq<Entry>) {
    forall i, j :: 0 <= i < j < |es| ==> Outranks(es[i], es[j])
  }

  /** The picked entries split around `f` by rank, and `f` did not fit after those above it. */
  ghost predicate SkippedAt(es: seq<Entry>, f: Entry, n: nat, maxGas: u64, maxBytes: u64) {
    && 0 <= n <= |es|
    && (forall i :: 0 <= i < n ==> Outranks(es[i], f))
    && (forall i :: n <= i < |es| ==> Outranks(f, es[i]))
    && !Affordable(es[..n], f, maxGas, maxBytes)
  }

  ghost predicate Skipped(es: seq<Entry>, f: Entry, maxGas: u64, maxBytes: u64) {
    exists n: nat :: SkippedAt(es, f, n, maxGas, maxBytes)
  }

  function TxsIn(m: Entries): map<Transaction, SignedTx> {
    map h | h in m :: m[h].tx
  }

  predicate SelfKeyed(m: Entries) {
    forall h :: h in m ==> m[h].tx.tx == h
  }

  predicate Pooled(m: Entries, e: Entry) {
    e.tx.tx in m && m[e.tx.tx] == e
  }

  function WithoutEntries(m: Entries, es: seq<Entry>): Entries {
    map h | h in m && m[h] !in es :: m[h]
  }

  /** The outcome of a drain: picked and left make up the old pool, the picked are in
      rank order within both budgets, and nothing left would have fitted in its turn. */
  ghost predicate Drained(m: Entries, left: Entries, es: seq<Entry>, maxGas: u64, maxBytes: u64) {
    && left == WithoutEntries(m, es)
    && (forall e :: e in es ==> Pooled(m, e))
    && RankSorted(es)
    && GasOf(es) <= maxGas && SizeOf(es) <= maxBytes
    && forall h :: h in left ==> Skipped(es, left[h], maxGas, maxBytes)
  }

  ghost predicate DrainedSoFar(m: Entries, done: seq<PriorityKey>, es: seq<Entry>, maxGas: u64, maxBytes: u64) {
    && (forall k :: k in done ==> k.hash in m && k == KeyOf(m[k.hash]))
    && (forall e :: e in es ==> Pooled(m, e) && KeyOf(e) in done)
    && RankSorted(es)
    && GasOf(es) <= maxGas && SizeOf(es) <= maxBytes
    && forall k :: k in done ==> m[k.hash] in es || Skipped(es, m[k.hash], maxGas, maxBytes)
  }

  /** The next key in order: pooled, and below everything done so far. */
  predicate NextKey(m: Entries, done: seq<PriorityKey>, k: PriorityKey) {
    k.hash in m && k == KeyOf(m[k.hash]) && forall j :: j in done ==> Precedes(j, k)
  }

  lemma NothingPicked(m: Entries, maxGas: u64, maxBytes: u64)
    ensures WithoutEntries(m, []) == m && DrainedSoFar(m, [], [], maxGas, maxBytes) && GasOf([]) == SizeOf([]) == 0
  {
  }

  lemma NextIsPooled(m: Entries, done: seq<PriorityKey>, k: PriorityKey)
    requires NextKey(m, done, k)
    ensures k.hash in m && k.fee == m[k.hash].fee
  {
  }

  lemma OneMorePicked(es: seq<Entry>, e: Entry)
    ensures TxsOf(es + [e]) == TxsOf(es) + [e.tx]
    ensures GasOf(es + [e]) == SatAdd64(GasOf(es), e.fee) && SizeOf(es + [e]) == SatAdd64(SizeOf(es), e.encodedBytes)
  {
    assert (es + [e])[..|es|] == es;
  }

  lemma SkipOne(m: Entries, done: seq<PriorityKey>, es: seq<Entry>, k: PriorityKey, maxGas: u64, maxBytes: u64)
    requires DrainedSoFar(m, done, es, maxGas, maxBytes) && NextKey(m, done, k)
    requires !Affordable(es, m[k.hash], maxGas, maxBytes)
    ensures DrainedSoFar(m, done + [k], es, maxGas, maxBytes)
  {
    var f := m[k.hash];
    assert es[..|es|] == es;
    forall i | 0 <= i < |es|
      ensures Outranks(es[i], f)
    {
      assert es[i] in es && KeyOf(es[i]) in done;
    }
    assert SkippedAt(es, f, |es|, maxGas, maxBytes);
  }

  lemma PickOne(m: Entries, done: seq<PriorityKey>, es: seq<Entry>, k: PriorityKey, maxGas: u64, maxBytes: u64)
    requires DrainedSoFar(m, done, es, maxGas, maxBytes) && NextKey(m, done, k)
    requires Affordable(es, m[k.hash], maxGas, maxBytes)
    ensures DrainedSoFar(m, done + [k], es + [m[k.hash]], maxGas, maxBytes)
  {
    var e := m[k.hash];
    var more := es + [e];
    assert more[..|es|] == es;
    forall i | 0 <= i < |es|
      ensures Outranks(es[i], e)
    {
      assert es[i] in es && KeyOf(es[i]) in done;
    }
    forall j | j in done && m[j.hash] !in es
      ensures Skipped(more, m[j.hash], maxGas, maxBytes)
    {
      var f := m[j.hash];
      var n: nat :| SkippedAt(es, f, n, maxGas, maxBytes);
      assert more[..n] == es[..n];
      assert SkippedAt(more, f, n, maxGas, maxBytes);
    }
  }

  lemma PickedLeaves(m: Entries, es: seq<Entry>, h: Transaction)
    requires SelfKeyed(m) && h in m
    ensures WithoutEntries(m, es + [m[h]]) == WithoutEntries(m, es) - {h}
  {
    forall g | g in m
      ensures m[g] in es + [m[h]] <==> m[g] in es || g == h
    {
      assert m[g] in es + [m[h]] <==> m[g] in es || m[g] == m[h];
    }
  }

  /** Every entry's key once, best first. */
  predicate Ranks(ordered: seq<PriorityKey>, m: Entries) {
    && (forall i :: 0 <= i < |ordered| ==> NextKey(m, ordered[..i], ordered[i]))
    && forall h :: h in m ==> KeyOf(m[h]) in ordered
  }

  lemma DrainComplete(m: Entries, ordered: seq<PriorityKey>, es: seq<Entry>, maxGas: u64, maxBytes: u64)
    requires DrainedSoFar(m, ordered, es, maxGas, maxBytes) && SelfKeyed(m) && Ranks(ordered, m)
    ensures Drained(m, WithoutEntries(m, es), es, maxGas, maxBytes)
  {
    var left := WithoutEntries(m, es);
    forall h | h in left
      ensures Skipped(es, left[h], maxGas, maxBytes)
    {
      assert KeyOf(m[h]) in ordered && KeyOf(m[h]).hash == h;
    }
  }

  predicate KeysSorted(ks: seq<PriorityKey>) {
    forall i, j :: 0 <= i < j < |ks| ==> Precedes(ks[i], ks[j])
  }

  /** The keys in priority order. */
  method InRankOrder(keys: set<PriorityKey>) returns (ordered: seq<PriorityKey>)
    requires forall j, k :: j in keys && k in keys && j.seqNo == k.seqNo ==> j == k
    ensures (forall k :: k in keys <==> k in ordered) && KeysSorted(ordered)
  {
    ordered := [];
    var rest := keys;
    while rest != {}
      invariant rest <= keys && (forall k :: k in keys <==> k in rest || k in ordered)
      invariant forall j, k :: j in rest && k in ordered ==> Precedes(j, k)
      invariant KeysSorted(ordered)
      decreases |rest|
    {
      var last := LastOf(rest);
      ordered := [last] + ordered;
      rest := rest - {last};
    }
  }

  lemma RanksNext(ordered: seq<PriorityKey>, m: Entries, i: nat)
    requires Ranks(ordered, m) && i < |ordered|
    ensures NextKey(m, ordered[..i], ordered[i])
  {
  }

  lemma OrderedAgrees(ordered: seq<PriorityKey>, byPriority: set<PriorityKey>, m: Entries)
    requires PriorityAgrees(byPriority, m) && (forall k :: k in byPriority <==> k in ordered) && KeysSorted(ordered)
    ensures Ranks(ordered, m)
  {
    forall i | 0 <= i < |ordered|
      ensures NextKey(m, ordered[..i], ordered[i])
    {
      assert ordered[i] in ordered;
    }
  }

  lemma {:induction false} TotalsGrow(es: seq<Entry>, n: nat)
    requires n <= |es|
    ensures GasOf(es[..n]) <= GasOf(es) && SizeOf(es[..n]) <= SizeOf(es)
    decreases |es|
  {
    if n < |es| {
      TotalsGrow(es[..|es| - 1], n);
      assert es[..|es| - 1][..n] == es[..n];
    } else {
      assert es[..n] == es;
    }
  }

  /** What is left would break a budget even at the final totals. */
  lemma LeftBreaksBudget(m: Entries, left: Entries, es: seq<Entry>, maxGas: u64, maxBytes: u64, h: Transaction)
    requires Drained(m, left, es, maxGas, maxBytes) && h in left
    ensures !Affordable(es, left[h], maxGas, maxBytes)
  {
    var n: nat :| SkippedAt(es, left[h], n, maxGas, maxBytes);
    TotalsGrow(es, n);
  }

  function FeesOf(es: seq<Entry>): nat {
    if es == [] then 0 else FeesOf(es[..|es| - 1]) + es[|es| - 1].fee
  }

  function BytesIn(es: seq<Entry>): nat {
    if es == [] then 0 else BytesIn(es[..|es| - 1]) + es[|es| - 1].encodedBytes
  }

  lemma {:induction false} TotalsAre(es: seq<Entry>)
    ensures GasOf(es) == Min(FeesOf(es), U64_MAX) && SizeOf(es) == Min(BytesIn(es), U64_MAX)
  {
    if es != [] {
      TotalsAre(es[..|es| - 1]);
    }
  }

  /** Fees never rise along the list, and equal fees come in order of arrival. */
  predicate DearestFirst(es: seq<Entry>) {
    forall i, j :: 0 <= i < j < |es| ==>
      es[i].fee > es[j].fee || (es[i].fee == es[j].fee && es[i].seqNo < es[j].seqNo)
  }

  /** `f` pays too much or is too long to join those of `es` that pay more than it, or as much and arrived
      before it; the first `n` are those. */
  ghost predicate NoRoomAfter(es: seq<Entry>, f: Entry, n: nat, maxGas: u64, maxBytes: u64) {
    && n <= |es|
    && (forall i :: 0 <= i < |es| ==>
          (i < n <==> es[i].fee > f.fee || (es[i].fee == f.fee && es[i].seqNo < f.seqNo)))
    && (|| Min(FeesOf(es[..n]) + f.fee, U64_MAX) > maxGas
        || Min(BytesIn(es[..n]) + f.encodedBytes, U64_MAX) > maxBytes)
  }

  /** Every transaction left was passed over for want of room after the dearer ones picked. */
  ghost predicate LeftForRoom(left: Entries, es: seq<Entry>, maxGas: u64, maxBytes: u64) {
    forall h :: h in left ==> exists n: nat :: NoRoomAfter(es, left[h], n, maxGas, maxBytes)
  }

  lemma SkippedHasNoRoom(es: seq<Entry>, f: Entry, n: nat, maxGas: u64, maxBytes: u64)
    requires SkippedAt(es, f, n, maxGas, maxBytes)
    ensures NoRoomAfter(es, f, n, maxGas, maxBytes)
  {
    TotalsAre(es[..n]);
    hide GasOf, SizeOf, FeesOf, BytesIn;
    forall i | 0 <= i < |es|
      ensures i < n <==> es[i].fee > f.fee || (es[i].fee == f.fee && es[i].seqNo < f.seqNo)
    {
      assert if i < n then Outranks(es[i], f) else Outranks(f, es[i]);
    }
  }

  /** A drain takes the dearest first, and passes over one only when a budget has no room for it after the
      dearer ones. */
  lemma DrainTakesDearest(m: Entries, left: Entries, es: seq<Entry>, maxGas: u64, maxBytes: u64)
    requires Drained(m, left, es, maxGas, maxBytes)
    ensures DearestFirst(es) && LeftForRoom(left, es, maxGas, maxBytes)
  {
    forall i, j | 0 <= i < j < |es|
      ensures es[i].fee > es[j].fee || (es[i].fee == es[j].fee && es[i].seqNo < es[j].seqNo)
    {
      assert Outranks(es[i], es[j]);
    }
    hide NoRoomAfter, SkippedAt, RankSorted;
    forall h | h in left
      ensures exists n: nat :: NoRoomAfter(es, left[h], n, maxGas, maxBytes)
    {
      var n: nat :| SkippedAt(es, left[h], n, maxGas, maxBytes);
      SkippedHasNoRoom(es, left[h], n, maxGas, maxBytes);
    }
  }

  /** Two drains of the same pool and budgets. */
  ghost predicate TwoDrains(m: Entries, left: Entries, es: seq<Entry>, left': Entries, es': seq<Entry>, maxGas: u64,
      maxBytes: u64) {
    && Drained(m, left, es, maxGas, maxBytes) && Drained(m, left', es', maxGas, maxBytes)
    && SelfKeyed(m)
    && DistinctSeqs(m)
  }

  lemma PickedWasAffordable(es: seq<Entry>, p: nat, maxGas: u64, maxBytes: u64)
    requires p < |es| && GasOf(es) <= maxGas && SizeOf(es) <= maxBytes
    ensures Affordable(es[..p], es[p], maxGas, maxBytes)
  {
    TotalsGrow(es, p + 1);
    assert es[..p + 1][..p] == es[..p];
  }

  /** What was skipped, but would have fitted after the first `p` picked, ranks below the next one. */
  lemma SkippedLater(es: seq<Entry>, e: Entry, p: nat, maxGas: u64, maxBytes: u64)
    requires p <= |es| && Skipped(es, e, maxGas, maxBytes) && Affordable(es[..p], e, maxGas, maxBytes)
    ensures p < |es| && Outranks(es[p], e)
  {
    forall k | 0 <= k <= p
      ensures GasOf(es[..k]) <= GasOf(es[..p]) && SizeOf(es[..k]) <= SizeOf(es[..p])
    {
      TotalsGrow(es[..p], k);
      assert es[..p][..k] == es[..k];
    }
  }

  /** After a common prefix, the other drain goes on with something that ranks no lower. */
  lemma NoLead(m: Entries, left: Entries, es: seq<Entry>, left': Entries, es': seq<Entry>, maxGas: u64, maxBytes: u64,
      p: nat)
    requires TwoDrains(m, left, es, left', es', maxGas, maxBytes)
    requires p < |es| && p <= |es'| && es[..p] == es'[..p]
    ensures p < |es'| && !Outranks(es[p], es'[p])
  {
    var e := es[p];
    PickedWasAffordable(es, p, maxGas, maxBytes);
    assert e in es && Pooled(m, e);
    assert forall i :: 0 <= i < p ==> es'[i] == es'[..p][i] == es[..p][i] == es[i];
    if e !in es' {
      assert e.tx.tx in left' && left'[e.tx.tx] == e;
      SkippedLater(es', e, p, maxGas, maxBytes);
    }
  }

  lemma {:induction false} CommonPrefix(m: Entries, left: Entries, es: seq<Entry>, left': Entries, es': seq<Entry>,
    maxGas: u64, maxBytes: u64, p: nat)
    requires TwoDrains(m, left, es, left', es', maxGas, maxBytes) && p <= |es| && p <= |es'|
    ensures es[..p] == es'[..p]
  {
    if p > 0 {
      CommonPrefix(m, left, es, left', es', maxGas, maxBytes, p - 1);
      NoLead(m, left, es, left', es', maxGas, maxBytes, p - 1);
      NoLead(m, left', es', left, es, maxGas, maxBytes, p - 1);
      var e, f := es[p - 1], es'[p - 1];
      assert e in es && f in es' && Pooled(m, e) && Pooled(m, f);
      assert es[..p] == es[..p - 1] + [e] && es'[..p] == es'[..p - 1] + [f];
    }
  }

  /** The pool and the two budgets determine what is picked. */
  lemma DrainDetermined(m: Entries, left: Entries, es: seq<Entry>, left': Entries, es': seq<Entry>, maxGas: u64,
      maxBytes: u64)
    requires TwoDrains(m, left, es, left', es', maxGas, maxBytes)
    ensures es == es' && left == left'
  {
    var p := if |es| <= |es'| then |es| else |es'|;
    CommonPrefix(m, left, es, left', es', maxGas, maxBytes, p);
    assert es[..|es|] == es && es'[..|es'|] == es';
    if p < |es| {
      NoLead(m, left, es, left', es', maxGas, maxBytes, p);
    } else if p < |es'| {
      NoLead(m, left', es', left, es, maxGas, maxBytes, p);
    }
  }

  // ----- Draining and readmitting -----

  predicate Poolable(t: SignedTx) {
    t.encodedLen <= MAX_SIGNED_TX_BYTES && LaneOf(t.tx).Lane?
  }

  type PoolTx = t: SignedTx | Poolable(t) witness SignedTx(Transfer(OfTreasuryTag, OfTreasuryTag, 0, 0, 0), PubKey(0),
    0)

  function NewEntry(stx: SignedTx, seqNo: nat): Entry
    requires LaneOf(stx.tx).Lane?
  {
    var lane := LaneOf(stx.tx);
    Entry(stx, lane.sender, lane.nonce, lane.fee, seqNo, stx.encodedLen)
  }

  /** The pool after every transaction of `txs` has come back, with new arrival numbers. */
  function Back(m: Entries, txs: seq<PoolTx>, first: nat): Entries {
    if txs == [] then m
    else
      var n := |txs| - 1;
      Back(m, txs[..n], first)[txs[n].tx := NewEntry(txs[n], first + n)]
  }

  predicate Clash(a: Lane, b: Lane)
    requires a.Lane? && b.Lane?
  {
    a.sender == b.sender && a.nonce == b.nonce
  }

  predicate SameSlot(e: Entry, lane: Lane)
    requires lane.Lane?
  {
    e.sender == lane.sender && e.nonce == lane.nonce
  }

  /** No two transactions share a hash or a slot, and none clashes with the pool. */
  predicate NoClash(m: Entries, txs: seq<PoolTx>) {
    && (forall i, j :: 0 <= i < j < |txs| ==> txs[i].tx != txs[j].tx && !Clash(LaneOf(txs[i].tx), LaneOf(txs[j].tx)))
    && (forall h, i :: h in m && 0 <= i < |txs| ==> h != txs[i].tx && !SameSlot(m[h], LaneOf(txs[i].tx)))
  }

  ghost predicate HasRoom(m: Entries, txs: seq<SignedTx>, first: nat, maxCount: nat, maxBytes: nat) {
    && first + |txs| <= U64_MAX
    && (forall t :: t in txs ==> Poolable(t))
    && NoClash(m, txs)
    && Fits(Back(m, txs, first), maxCount, maxBytes)
  }

  predicate Listed(txs: seq<PoolTx>, h: Transaction) {
    exists i :: 0 <= i < |txs| && txs[i].tx == h
  }

  lemma ListedSnoc(txs: seq<PoolTx>)
    requires txs != []
    ensures forall h :: Listed(txs, h) <==> Listed(txs[..|txs| - 1], h) || txs[|txs| - 1].tx == h
  {
    var earlier := txs[..|txs| - 1];
    forall h | Listed(txs, h)
      ensures Listed(earlier, h) || txs[|txs| - 1].tx == h
    {
      var i :| 0 <= i < |txs| && txs[i].tx == h;
      assert i < |earlier| ==> earlier[i].tx == h;
    }
    forall h | Listed(earlier, h)
      ensures Listed(txs, h)
    {
      var i :| 0 <= i < |earlier| && earlier[i].tx == h;
      assert txs[i].tx == h;
    }
  }

  lemma {:induction false} BackKeys(m: Entries, txs: seq<PoolTx>, first: nat)
    ensures forall h :: h in Back(m, txs, first) <==> h in m || Listed(txs, h)
    ensures forall h :: h in m && !Listed(txs, h) ==> Back(m, txs, first)[h] == m[h]
  {
    if txs != [] {
      BackKeys(m, txs[..|txs| - 1], first);
      ListedSnoc(txs);
    }
  }

  lemma {:induction false} BackAt(m: Entries, txs: seq<PoolTx>, first: nat, i: nat)
    requires i < |txs| && forall j :: i < j < |txs| ==> txs[j].tx != txs[i].tx
    ensures txs[i].tx in Back(m, txs, first) && Back(m, txs, first)[txs[i].tx] == NewEntry(txs[i], first + i)
    decreases |txs|
  {
    var n := |txs| - 1;
    if i < n {
      assert txs[..n][i] == txs[i];
      BackAt(m, txs[..n], first, i);
    }
  }

  predicate SlotUnused(m: Entries, lane: Lane)
    requires lane.Lane?
  {
    forall h :: h in m ==> !SameSlot(m[h], lane)
  }

  /** The next readmitted transaction is new and finds its slot free. */
  lemma NextIsFree(m: Entries, txs: seq<PoolTx>, first: nat, i: nat)
    requires NoClash(m, txs) && i < |txs|
    ensures txs[i].tx !in Back(m, txs[..i], first) && SlotUnused(Back(m, txs[..i], first), LaneOf(txs[i].tx))
  {
    var earlier := txs[..i];
    BackKeys(m, earlier, first);
    forall h | Listed(earlier, h)
      ensures h != txs[i].tx && !SameSlot(Back(m, earlier, first)[h], LaneOf(txs[i].tx))
    {
      var j :| 0 <= j < i && earlier[j].tx == h;
      assert earlier[j] == txs[j] && !Clash(LaneOf(txs[j].tx), LaneOf(txs[i].tx));
      BackAt(m, earlier, first, j);
    }
  }

  lemma {:induction false} BackGrows(m: Entries, txs: seq<PoolTx>, first: nat, i: nat)
    requires NoClash(m, txs) && i <= |txs|
    ensures Submap(Back(m, txs[..i], first), Back(m, txs, first))
    decreases |txs| - i
  {
    if i == |txs| {
      assert txs[..i] == txs;
    } else {
      NextIsFree(m, txs, first, i);
      assert txs[..i + 1][..i] == txs[..i];
      BackGrows(m, txs, first, i + 1);
    }
  }

  /** The pool without the transaction that a new one for this slot replaces. */
  function Unslotted(m: Entries, lane: Lane): Entries
    requires lane.Lane?
  {
    map h | h in m && !SameSlot(m[h], lane) :: m[h]
  }

  /** The fee of the pooled transaction in this slot, if there is one. */
  ghost function SlotFee(m: Entries, lane: Lane): Option<u64>
    requires lane.Lane?
  {
    if exists h :: h in m && SameSlot(m[h], lane) then
      var h :| h in m && SameSlot(m[h], lane);
      Some(m[h].fee)
    else None
  }

  lemma UnslottedFree(m: Entries, lane: Lane)
    requires lane.Lane? && SlotUnused(m, lane)
    ensures Unslotted(m, lane) == m && SlotFee(m, lane) == None
  {
  }

  /** Old pool, minus what is replaced, plus the new transaction. */
  function Candidates(m: Entries, stx: SignedTx, seqNo: nat): Entries
    requires LaneOf(stx.tx).Lane?
  {
    Unslotted(m, LaneOf(stx.tx))[stx.tx := NewEntry(stx, seqNo)]
  }

  lemma CandidatesDistinct(m: Entries, stx: SignedTx, nextSeq: u64)
    requires GoodEntries(m, nextSeq) && DistinctSeqs(m) && LaneOf(stx.tx).Lane?
    ensures DistinctSeqs(Candidates(m, stx, nextSeq))
  {
    hide LaneOf;
  }

  /** The candidates one by one: the new transaction with its sender, nonce, fee and arrival number, and
      every pooled one but that of its sender and nonce. */
  lemma CandidatesAre(m: Entries, stx: SignedTx, seqNo: nat)
    requires LaneOf(stx.tx).Lane?
    ensures var lane, c := LaneOf(stx.tx), Candidates(m, stx, seqNo);
      && stx.tx in c && c[stx.tx] == Entry(stx, lane.sender, lane.nonce, lane.fee, seqNo, stx.encodedLen)
      && forall h :: h != stx.tx ==>
           (h in c <==> h in m && !(m[h].sender == lane.sender && m[h].nonce == lane.nonce))
           && (h in c ==> c[h] == m[h])
  {
    hide LaneOf;
  }

  ghost predicate DistinctSlots(m: Entries) {
    forall h, g :: h in m && g in m && m[h].sender == m[g].sender && m[h].nonce == m[g].nonce ==> h == g
  }

  /** The refusal of the checks made before the pool changes, if any. */
  ghost function Screened(m: Entries, stx: SignedTx): Option<PoolError> {
    var lane := LaneOf(stx.tx);
    if stx.encodedLen > MAX_SIGNED_TX_BYTES then Some(Oversize(stx.encodedLen, MAX_SIGNED_TX_BYTES))
    else if lane.NoLane? then Some(Unsupported(lane.what))
    else if stx.tx in m then Some(Duplicate)
    else if SlotFee(m, lane).Some? && lane.fee <= SlotFee(m, lane).value then
      Some(UnderpricedReplacement(SlotFee(m, lane).value, lane.fee))
    else None
  }

  /** A transaction passes the checks exactly when it has at most 1 MiB, is of a pooled kind and not pooled, and
      pays more than whatever is pooled of its sender and nonce. */
  lemma ScreenedExactly(m: Entries, stx: SignedTx)
    requires DistinctSlots(m)
    ensures Screened(m, stx).None? <==>
      && stx.encodedLen <= 1_048_576 && LaneOf(stx.tx).Lane? && stx.tx !in m
      && forall h :: h in m && m[h].sender == LaneOf(stx.tx).sender && m[h].nonce == LaneOf(stx.tx).nonce ==>
           m[h].fee < LaneOf(stx.tx).fee
  {
    hide LaneOf;
    var lane := LaneOf(stx.tx);
    if lane.Lane? {
      assert forall h :: h in m ==> (SameSlot(m[h], lane) <==> m[h].sender == lane.sender && m[h].nonce == lane.nonce);
    }
  }

  /** Transfers and locks are pooled under their payer, nonce and fee; stake operations, batches, disputes,
      settlements and reward transactions not at all; the rest one at a time per sender, under nonce 0. */
  lemma LanesAre(tx: Transaction)
    ensures LaneOf(tx).NoLane? <==>
      tx.Stake? || tx.AnchorReceipts? || tx.Dispute? || tx.EscrowSettle? || tx.RewardMint?
    ensures tx.Transfer? ==> LaneOf(tx) == Lane(tx.from, tx.nonce, tx.fee)
    ensures tx.EscrowLock? ==> LaneOf(tx) == Lane(tx.user, tx.nonce, tx.fee)
    ensures LaneOf(tx).Lane? && !tx.Transfer? && !tx.EscrowLock? ==> LaneOf(tx).nonce == 0
  {
  }

  /** The next readmitted transaction passes the checks and leaves the pool within its caps. */
  lemma RoomForNext(m: Entries, txs: seq<PoolTx>, first: nat, maxCount: nat, maxBytes: nat, i: nat)
    requires HasRoom(m, txs, first, maxCount, maxBytes) && i < |txs|
    ensures var now, next := Back(m, txs[..i], first), Back(m, txs[..i + 1], first);
      && Screened(now, txs[i]) == None
      && Candidates(now, txs[i], first + i) == next
      && Fits(next, maxCount, maxBytes)
  {
    var now, next, upto := Back(m, txs[..i], first), Back(m, txs[..i + 1], first), txs[..i + 1];
    NextIsFree(m, txs, first, i);
    UnslottedFree(now, LaneOf(txs[i].tx));
    assert upto[..i] == txs[..i] && upto[i] == txs[i] && |upto| == i + 1;
    BackGrows(m, txs, first, i + 1);
    SubmapBytes(next, Back(m, txs, first));
  }

  lemma SlotsDistinct(bySender: SenderIndex, m: Entries)
    requires SendersAgree(bySender, m)
    ensures DistinctSlots(m)
  {
    forall h, g | h in m && g in m && m[h].sender == m[g].sender && m[h].nonce == m[g].nonce
      ensures h == g
    {
      assert Holds(bySender, m[h].sender, m[h].nonce, h) && Holds(bySender, m[g].sender, m[g].nonce, g);
    }
  }

  /** The old pool, except that the picked entries have new arrival numbers, in the order picked. */
  ghost predicate Restored(m: Entries, after: Entries, es: seq<Entry>, first: nat) {
    && after.Keys == m.Keys
    && (forall i :: 0 <= i < |es| ==> Pooled(m, es[i]) && after[es[i].tx.tx] == es[i].(seqNo := first + i))
    && (forall h :: h in m && m[h] !in es ==> after[h] == m[h])
  }

  /** Only what has a sender and a nonce is ever pooled, so nothing else is picked. */
  lemma PickedHaveLanes(m: Entries, left: Entries, es: seq<Entry>, maxGas: u64, maxBytes: u64, nextSeq: u64)
    requires Drained(m, left, es, maxGas, maxBytes) && GoodEntries(m, nextSeq)
    ensures forall t :: t in TxsOf(es) ==> LaneOf(t.tx).Lane?
  {
    forall t | t in TxsOf(es)
      ensures LaneOf(t.tx).Lane?
    {
      var i :| 0 <= i < |es| && TxsOf(es)[i] == t;
      assert es[i] in es && Pooled(m, es[i]);
    }
  }

  lemma PickedDiffer(m: Entries, es: seq<Entry>, i: nat, j: nat)
    requires (forall e :: e in es ==> Pooled(m, e)) && RankSorted(es) && i < j < |es|
    ensures es[i].tx.tx != es[j].tx.tx
  {
    assert es[i] in es && es[j] in es;
    assert Outranks(es[i], es[j]);
  }

  lemma PickedNoClash(m: Entries, left: Entries, es: seq<Entry>, nextSeq: u64)
    requires left == WithoutEntries(m, es) && (forall e :: e in es ==> Pooled(m, e)) && RankSorted(es)
    requires GoodEntries(m, nextSeq) && DistinctSlots(m)
    ensures (forall t :: t in TxsOf(es) ==> Poolable(t)) && NoClash(left, TxsOf(es))
  {
    var txs := TxsOf(es);
    forall i | 0 <= i < |es|
      ensures Poolable(txs[i]) && LaneOf(txs[i].tx) == Lane(es[i].sender, es[i].nonce, es[i].fee)
    {
      assert es[i] in es && Pooled(m, es[i]);
    }
    forall i, j | 0 <= i < j < |es|
      ensures txs[i].tx != txs[j].tx && !Clash(LaneOf(txs[i].tx), LaneOf(txs[j].tx))
    {
      PickedDiffer(m, es, i, j);
      assert Pooled(m, es[i]) && Pooled(m, es[j]);
    }
    forall h, i | h in left && 0 <= i < |es|
      ensures h != txs[i].tx && !SameSlot(left[h], LaneOf(txs[i].tx))
    {
      assert es[i] in es && Pooled(m, es[i]);
    }
  }

  /** A picked entry comes back with the arrival number of its place in the list. */
  lemma BackOfPicked(m: Entries, left: Entries, es: seq<Entry>, first: nat, nextSeq: u64, txs: seq<PoolTx>, i: nat)
    requires (forall e :: e in es ==> Pooled(m, e)) && RankSorted(es) && GoodEntries(m, nextSeq)
    requires txs == TxsOf(es) && i < |es|
    ensures var h, after := es[i].tx.tx, Back(left, txs, first);
      && Pooled(m, es[i]) && Listed(txs, h)
      && h in after && after[h] == es[i].(seqNo := first + i)
  {
    assert es[i] in es;
    forall j | i < j < |es|
      ensures txs[j].tx != txs[i].tx
    {
      PickedDiffer(m, es, i, j);
    }
    BackAt(left, txs, first, i);
    assert txs[i].tx == es[i].tx.tx;
  }

  lemma BackRestores(m: Entries, left: Entries, es: seq<Entry>, first: nat, nextSeq: u64)
    requires left == WithoutEntries(m, es) && (forall e :: e in es ==> Pooled(m, e)) && RankSorted(es)
    requires GoodEntries(m, nextSeq) && forall t :: t in TxsOf(es) ==> Poolable(t)
    ensures Restored(m, Back(left, TxsOf(es), first), es, first)
  {
    hide Back, RankSorted;
    var txs: seq<PoolTx> := TxsOf(es);
    var after := Back(left, txs, first);
    BackKeys(left, txs, first);
    forall i | 0 <= i < |es|
      ensures Pooled(m, es[i]) && Listed(txs, es[i].tx.tx)
      ensures es[i].tx.tx in after && after[es[i].tx.tx] == es[i].(seqNo := first + i)
    {
      BackOfPicked(m, left, es, first, nextSeq, txs, i);
    }
    forall h | Listed(txs, h)
      ensures h in m && m[h] in es
    {
      var i :| 0 <= i < |txs| && txs[i].tx == h;
      assert Pooled(m, es[i]);
    }
    forall h | h in m
      ensures h in after
    {
      if m[h] in es {
        var i :| 0 <= i < |es| && es[i] == m[h];
        assert Listed(txs, es[i].tx.tx);
      }
    }
    assert after.Keys == m.Keys;
  }

  lemma RestoredAt(m: Entries, after: Entries, es: seq<Entry>, first: nat, h: Transaction, i: nat)
    requires Restored(m, after, es, first) && h in m && i < |es| && es[i] == m[h] && m[h].tx.tx == h
    ensures after[h] == m[h].(seqNo := first + i)
  {
  }

  lemma RestoredFits(m: Entries, after: Entries, es: seq<Entry>, first: nat, maxCount: nat, maxBytes: nat)
    requires Restored(m, after, es, first) && Fits(m, maxCount, maxBytes) && SelfKeyed(m)
    ensures Fits(after, maxCount, maxBytes)
  {
    assert |after| == |after.Keys| == |m.Keys| == |m|;
    forall h | h in m
      ensures BytesOf(after[h]) == BytesOf(m[h])
    {
      if m[h] in es {
        var i :| 0 <= i < |es| && es[i] == m[h];
        RestoredAt(m, after, es, first, h, i);
      }
    }
    SumPointwise(m, after, BytesOf);
  }

  lemma PickedHaveRoom(m: Entries, left: Entries, es: seq<Entry>, first: u64, maxCount: nat, maxBytes: nat,
    maxGas: u64, maxBlockBytes: u64)
    requires Drained(m, left, es, maxGas, maxBlockBytes) && GoodEntries(m, first) && DistinctSlots(m)
    requires Fits(m, maxCount, maxBytes) && first + |es| <= U64_MAX
    ensures HasRoom(left, TxsOf(es), first, maxCount, maxBytes)
    ensures (forall t :: t in TxsOf(es) ==> Poolable(t)) && Restored(m, Back(left, TxsOf(es), first), es, first)
  {
    PickedNoClash(m, left, es, first);
    BackRestores(m, left, es, first, first);
    RestoredFits(m, Back(left, TxsOf(es), first), es, first, maxCount, maxBytes);
  }

  lemma RestoredTxs(m: Entries, after: Entries, es: seq<Entry>, first: nat)
    requires Restored(m, after, es, first) && SelfKeyed(m)
    ensures TxsIn(after) == TxsIn(m)
  {
    forall h | h in m
      ensures after[h].tx == m[h].tx
    {
      if m[h] in es {
        var i :| 0 <= i < |es| && es[i] == m[h];
        RestoredAt(m, after, es, first, h, i);
      }
    }
  }

  lemma DrainLeaves(m: Entries, left: Entries, es: seq<Entry>, maxGas: u64, maxBytes: u64)
    requires Drained(m, left, es, maxGas, maxBytes)
    ensures left == WithoutEntries(m, es)
  {
  }

  /** Putting the picked transactions back restores the pool's transactions. */
  lemma RoundTrip(m: Entries, left: Entries, senders: SenderIndex, es: seq<Entry>, first: u64, maxCount: nat,
      maxBytes: nat,
    maxGas: u64, maxBlockBytes: u64)
    requires Drained(m, left, es, maxGas, maxBlockBytes) && GoodEntries(m, first) && SendersAgree(senders, m)
    requires Fits(m, maxCount, maxBytes) && first + |es| <= U64_MAX
    ensures HasRoom(left, TxsOf(es), first, maxCount, maxBytes) && forall t :: t in TxsOf(es) ==> Poolable(t)
    ensures var after := Back(left, TxsOf(es), first);
      Restored(m, after, es, first) && TxsIn(after) == TxsIn(m)
  {
    SlotsDistinct(senders, m);
    PickedHaveRoom(m, left, es, first, maxCount, maxBytes, maxGas, maxBlockBytes);
    RestoredTxs(m, Back(left, TxsOf(es), first), es, first);
  }

  /** Readmission is not untouched: a picked transaction falls behind exactly those it
      outranked by arrival alone and that stayed in the pool. */
  lemma OrderAfterRoundTrip(m: Entries, after: Entries, es: seq<Entry>, first: nat, h: Transaction, g: Transaction)
    requires Restored(m, after, es, first) && SelfKeyed(m) && RankSorted(es)
    requires h in m && g in m && m[h].seqNo < first && m[g].seqNo < first && Outranks(m[h], m[g])
    ensures Outranks(after[h], after[g]) <==> !(m[h] in es && m[g] !in es && m[h].fee == m[g].fee)
  {
    if m[h] in es {
      var i :| 0 <= i < |es| && es[i] == m[h];
      RestoredAt(m, after, es, first, h, i);
    }
    if m[g] in es {
      var j :| 0 <= j < |es| && es[j] == m[g];
      RestoredAt(m, after, es, first, g, j);
    }
  }

  // ----- What an insertion works on -----

  lemma UnslottedUnused(m: Entries, lane: Lane)
    ensures lane.Lane? ==> SlotUnused(Unslotted(m, lane), lane) && forall h :: h in Unslotted(m, lane) ==> h in m
  {
  }

  lemma SlotFree(bySender: SenderIndex, m: Entries, lane: Lane)
    requires lane.Lane? && SendersAgree(bySender, m)
      && (lane.sender !in bySender || lane.nonce !in bySender[lane.sender])
    ensures SlotFee(m, lane) == None && Unslotted(m, lane) == m
  {
    forall h | h in m
      ensures !SameSlot(m[h], lane)
    {
      assert Holds(bySender, m[h].sender, m[h].nonce, h);
    }
  }

  lemma SlotTaken(bySender: SenderIndex, m: Entries, lane: Lane, h: Transaction)
    requires lane.Lane? && SendersAgree(bySender, m) && Holds(bySender, lane.sender, lane.nonce, h)
    ensures h in m && SlotFee(m, lane) == Some(m[h].fee) && Unslotted(m, lane) == m - {h}
  {
    forall g | g in m && SameSlot(m[g], lane)
      ensures g == h
    {
      assert Holds(bySender, m[g].sender, m[g].nonce, g);
    }
    assert SameSlot(m[h], lane);
  }

  function Without(m: Entries, hashes: seq<Transaction>): Entries {
    map h | h in m && h !in hashes :: m[h]
  }

  lemma WithoutNone(m: Entries)
    ensures Without(m, []) == m
  {
  }

  lemma WithoutOneMore(m: Entries, hashes: seq<Transaction>, h: Transaction)
    ensures Without(m, hashes + [h]) == Without(m, hashes) - {h}
  {
  }

  // ----- The pool -----

  // ----- Insertion as a step -----

  /** What the fold of insertions works on: the entries and the next arrival number. */
  datatype PoolView = PoolView(entries: Entries, nextSeq: nat)

  /** One insertion: refused by a check it changes nothing, else the pool is the longest ranked
      prefix of the candidates that fits. */
  ghost predicate InsertStep(v: PoolView, stx: SignedTx, v': PoolView, maxCount: nat, maxBytes: nat) {
    if Screened(v.entries, stx).Some? then v' == v
    else
      && v'.nextSeq == v.nextSeq + 1
      && LongestFit(v'.entries, Candidates(v.entries, stx, v.nextSeq), maxCount, maxBytes)
  }

  /** Insertions one after the other, refused or not. */
  ghost predicate InsertsTo(v: PoolView, txs: seq<SignedTx>, v': PoolView, maxCount: nat, maxBytes: nat)
    decreases |txs|
  {
    if txs == [] then v' == v
    else
      var n := |txs| - 1;
      exists mid: PoolView :: InsertsTo(v, txs[..n], mid, maxCount, maxBytes)
        && InsertStep(mid, txs[n], v', maxCount, maxBytes)
  }

  lemma InsertsNone(v: PoolView, maxCount: nat, maxBytes: nat)
    ensures InsertsTo(v, [], v, maxCount, maxBytes)
  {
  }

  lemma InsertsOneMore(v: PoolView, txs: seq<SignedTx>, mid: PoolView, stx: SignedTx, v': PoolView, maxCount: nat,
      maxBytes: nat)
    requires InsertsTo(v, txs, mid, maxCount, maxBytes) && InsertStep(mid, stx, v', maxCount, maxBytes)
    ensures InsertsTo(v, txs + [stx], v', maxCount, maxBytes)
  {
    hide InsertStep;
    assert (txs + [stx])[..|txs|] == txs;
  }

  lemma ScreenedHasLane(m: Entries, stx: SignedTx)
    requires Screened(m, stx).None?
    ensures LaneOf(stx.tx).Lane?
  {
  }

  /** The list and the pool it meets determine the pool it leaves. */
  lemma {:induction false} InsertsDetermined(v: PoolView, txs: seq<SignedTx>, a: PoolView, b: PoolView, maxCount: nat,
      maxBytes: nat)
    requires InsertsTo(v, txs, a, maxCount, maxBytes) && InsertsTo(v, txs, b, maxCount, maxBytes)
    ensures a == b
    decreases |txs|
  {
    if txs != [] {
      hide LongestFit, Candidates, Screened;
      var n := |txs| - 1;
      var x: PoolView :| InsertsTo(v, txs[..n], x, maxCount, maxBytes) && InsertStep(x, txs[n], a, maxCount, maxBytes);
      var y: PoolView :| InsertsTo(v, txs[..n], y, maxCount, maxBytes) && InsertStep(y, txs[n], b, maxCount, maxBytes);
      InsertsDetermined(v, txs[..n], x, y, maxCount, maxBytes);
      if Screened(x.entries, txs[n]).None? {
        ScreenedHasLane(x.entries, txs[n]);
        LongestFitUnique(a.entries, b.entries, Candidates(x.entries, txs[n], x.nextSeq), maxCount, maxBytes);
      }
    }
  }

  lemma RoomIsCounted(m: Entries, txs: seq<SignedTx>, first: nat, maxCount: nat, maxBytes: nat)
    ensures HasRoom(m, txs, first, maxCount, maxBytes) ==> first + |txs| <= U64_MAX
  {
    hide NoClash, Fits, Back;
  }

  lemma WholeIsLongest(m: Entries, maxCount: nat, maxBytes: nat)
    requires Fits(m, maxCount, maxBytes)
    ensures LongestFit(m, m, maxCount, maxBytes)
  {
  }

  lemma BackNone(m: Entries, txs: seq<PoolTx>, first: nat)
    ensures Back(m, txs[..0], first) == m
  {
  }

  /** With room for all, the insertions put every transaction back. */
  lemma {:induction false} RoomInserts(m: Entries, txs: seq<PoolTx>, first: nat, maxCount: nat, maxBytes: nat, i: nat)
    requires HasRoom(m, txs, first, maxCount, maxBytes) && i <= |txs|
    ensures InsertsTo(PoolView(m, first), txs[..i], PoolView(Back(m, txs[..i], first), first + i), maxCount, maxBytes)
  {
    hide HasRoom, InsertsTo, LongestFit, Candidates, Screened;
    if i == 0 {
      BackNone(m, txs, first);
      InsertsNone(PoolView(m, first), maxCount, maxBytes);
    } else {
      hide Back;
      RoomInserts(m, txs, first, maxCount, maxBytes, i - 1);
      RoomForNext(m, txs, first, maxCount, maxBytes, i - 1);
      var next := Back(m, txs[..i], first);
      WholeIsLongest(next, maxCount, maxBytes);
      InsertsOneMore(PoolView(m, first), txs[..i - 1], PoolView(Back(m, txs[..i - 1], first), first + i - 1),
        txs[i - 1],
        PoolView(next, first + i), maxCount, maxBytes);
      assert txs[..i] == txs[..i - 1] + [txs[i - 1]];
    }
  }

  lemma RoomForAll(v: PoolView, txs: seq<SignedTx>, v': PoolView, maxCount: nat, maxBytes: nat)
    requires InsertsTo(v, txs, v', maxCount, maxBytes)
    ensures HasRoom(v.entries, txs, v.nextSeq, maxCount, maxBytes) ==>
      (forall t :: t in txs ==> Poolable(t)) && v'.entries == Back(v.entries, txs, v.nextSeq)
  {
    hide InsertsTo, Back, NoClash, Fits;
    if HasRoom(v.entries, txs, v.nextSeq, maxCount, maxBytes) {
      var all: seq<PoolTx> := txs;
      hide HasRoom;
      RoomInserts(v.entries, all, v.nextSeq, maxCount, maxBytes, |all|);
      assert all[..|all|] == txs;
      InsertsDetermined(v, txs, v', PoolView(Back(v.entries, all, v.nextSeq), v.nextSeq + |all|), maxCount, maxBytes);
    }
  }

  class Pool {
    const maxCount: nat
    const maxBytes: nat
    var currentBytes: nat
    var byHash: Entries
    var byPriority: set<PriorityKey>
    var bySender: SenderIndex
    var nextSeq: u64

    /** The three indexes and the counter describe the same entries. */
    ghost predicate Indexed()
      reads this
    {
      && GoodEntries(byHash, nextSeq)
      && PriorityAgrees(byPriority, byHash)
      && SendersAgree(bySender, byHash)
      && currentBytes == TotalBytes(byHash)
      && DistinctSeqs(byHash)
    }

    ghost predicate Valid()
      reads this
    {
      Indexed() && Fits(byHash, maxCount, maxBytes)
    }

    constructor (maxCount: nat, maxBytes: nat)
      ensures Valid() && byHash == map[] && nextSeq == 0
      ensures this.maxCount == maxCount && this.maxBytes == maxBytes
    {
      this.maxCount, this.maxBytes := maxCount, maxBytes;
      currentBytes, nextSeq := 0, 0;
      byHash, byPriority, bySender := map[], {}, map[];
    }

    method RemoveByHash(hash: Transaction) returns (removed: Option<Entry>)
      requires Indexed()
      modifies this`currentBytes, this`byHash, this`byPriority, this`bySender
      ensures Indexed() && byHash == old(byHash) - {hash}
      ensures removed == if hash in old(byHash) then Some(old(byHash)[hash]) else None
    {
      hide PriorityAgrees, SendersAgree, SenderDropped, GoodEntries, DistinctSeqs;
      if hash !in byHash {
        return None;
      }
      var entry := byHash[hash];
      SumRemove(byHash, BytesOf, hash);
      GoodAfterRemove(byHash, hash, nextSeq);
      PriorityAfterRemove(byPriority, byHash, hash, nextSeq);
      SendersAfterRemove(bySender, byHash, hash);
      byHash := byHash - {hash};
      currentBytes := currentBytes - entry.encodedBytes;
      byPriority := byPriority - {KeyOf(entry)};
      bySender := SenderDropped(bySender, entry.sender, entry.nonce);
      removed := Some(entry);
    }

    method AddEntry(e: Entry)
      requires Indexed() && e.tx.tx !in byHash && GoodEntries(map[e.tx.tx := e], nextSeq)
      requires forall h :: h in byHash ==> !(byHash[h].sender == e.sender && byHash[h].nonce == e.nonce)
      requires forall h :: h in byHash ==> byHash[h].seqNo != e.seqNo
      modifies this`currentBytes, this`byHash, this`byPriority, this`bySender
      ensures Indexed() && byHash == old(byHash)[e.tx.tx := e]
    {
      hide PriorityAgrees, SendersAgree, SenderAdded;
      SumUpdate(byHash, BytesOf, e.tx.tx, e);
      PriorityAfterAdd(byPriority, byHash, e);
      SendersAfterAdd(bySender, byHash, e);
      GoodAfterAdd(byHash, e, nextSeq);
      currentBytes := currentBytes + e.encodedBytes;
      byPriority := byPriority + {KeyOf(e)};
      bySender := SenderAdded(bySender, e.sender, e.nonce, e.tx.tx);
      byHash := byHash[e.tx.tx := e];
    }

    /** Removes the lowest-ranked entry, the last in priority order. */
    method EvictLast(ghost all: Entries) returns (victim: PriorityKey)
      requires Indexed() && byHash != map[] && RankedPrefix(byHash, all) && DistinctSeqs(all)
      requires !Fits(byHash, maxCount, maxBytes) && CoversFits(byHash, all, maxCount, maxBytes)
      modifies this`currentBytes, this`byHash, this`byPriority, this`bySender
      ensures Indexed() && victim.hash in old(byHash) && byHash == old(byHash) - {victim.hash}
      ensures victim == KeyOf(old(byHash)[victim.hash])
      ensures RankedPrefix(byHash, all) && CoversFits(byHash, all, maxCount, maxBytes)
    {
      KeysDistinct(byPriority, byHash);
      victim := LastOf(byPriority);
      LastIsLowest(byPriority, byHash, victim, nextSeq);
      DropLowest(byHash, all, victim.hash, maxCount, maxBytes);
      var _ := RemoveByHash(victim.hash);
    }

    /** Evicts from the bottom until both caps hold, stopping early when `hash` itself goes. */
    method EvictDown(hash: Transaction) returns (evicted: Option<PriorityKey>)
      requires Indexed() && hash in byHash && Fits(byHash - {hash}, maxCount, maxBytes)
      modifies this`currentBytes, this`byHash, this`byPriority, this`bySender
      ensures Indexed() && LongestFit(byHash, old(byHash), maxCount, maxBytes) && KeepsDearest(byHash, old(byHash))
      ensures evicted == if hash in byHash then None else Some(KeyOf(old(byHash)[hash]))
    {
      hide DistinctSeqs, CoversFits, RankedPrefix, GoodEntries, PriorityAgrees, SendersAgree, KeepsDearest, LongestFit;
      ghost var all := byHash;
      WholeIsPrefix(all, maxCount, maxBytes);
      while |byHash| > maxCount || currentBytes > maxBytes
        invariant Indexed() && hash in byHash && byHash[hash] == all[hash] && RankedPrefix(byHash, all)
        invariant CoversFits(byHash, all, maxCount, maxBytes)
        decreases |byHash|
      {
        var victim := EvictLast(all);
        if victim.hash == hash {
          PrefixFits(byHash, all, hash, maxCount, maxBytes);
          LongestKeepsDearest(byHash, all, maxCount, maxBytes);
          return Some(victim);
        }
      }
      LongestIs(byHash, all, maxCount, maxBytes);
      LongestKeepsDearest(byHash, all, maxCount, maxBytes);
      evicted := None;
    }

    method Record(stx: SignedTx, lane: Lane)
      requires Valid() && stx.tx !in byHash && stx.encodedLen <= MAX_SIGNED_TX_BYTES && nextSeq < U64_MAX
      requires lane == LaneOf(stx.tx) && lane.Lane? && SlotUnused(byHash, lane)
      modifies this`currentBytes, this`byHash, this`byPriority, this`bySender, this`nextSeq
      ensures Indexed() && nextSeq == old(nextSeq) + 1
      ensures byHash == old(byHash)[stx.tx := NewEntry(stx, old(nextSeq))]
      ensures Fits(byHash - {stx.tx}, maxCount, maxBytes)
    {
      hide PriorityAgrees, SendersAgree, LaneOf, DistinctSeqs;
      var seqNo := nextSeq;
      nextSeq := nextSeq + 1;
      AddEntry(Entry(stx, lane.sender, lane.nonce, lane.fee, seqNo, stx.encodedLen));
      assert byHash - {stx.tx} == old(byHash);
    }

    /** Admission bookkeeping and eviction, the slot being free. */
    method Admit(stx: SignedTx, lane: Lane) returns (r: InsertResult)
      requires Valid() && stx.tx !in byHash && stx.encodedLen <= MAX_SIGNED_TX_BYTES && nextSeq < U64_MAX
      requires lane == LaneOf(stx.tx) && lane.Lane? && SlotUnused(byHash, lane)
      modifies this`currentBytes, this`byHash, this`byPriority, this`bySender, this`nextSeq
      ensures Valid() && nextSeq == old(nextSeq) + 1
      ensures LongestFit(byHash, old(byHash)[stx.tx := NewEntry(stx, old(nextSeq))], maxCount, maxBytes)
      ensures r == if stx.tx in byHash then Admitted(stx.tx)
        else Refused(UnderpricedReplacement(SatAdd64(lane.fee, 1), lane.fee))
    {
      Record(stx, lane);
      hide DistinctSeqs, CoversFits, RankedPrefix, PriorityAgrees, SendersAgree;
      var evicted := EvictDown(stx.tx);
      r := if evicted.Some? then Refused(UnderpricedReplacement(SatAdd64(evicted.value.fee, 1), lane.fee))
        else Admitted(stx.tx);
    }

    method Remove(hash: Transaction) returns (present: bool)
      requires Valid()
      modifies this`currentBytes, this`byHash, this`byPriority, this`bySender
      ensures Valid() && byHash == old(byHash) - {hash}
      ensures present <==> hash in old(byHash)
    {
      SubmapBytes(byHash - {hash}, byHash);
      var removed := RemoveByHash(hash);
      present := removed.Some?;
    }

    /** Removes the pooled transaction of the same sender and nonce if the new fee is
        strictly higher; otherwise answers the fee that stands. */
    method ReplaceExisting(lane: Lane) returns (standing: Option<u64>)
      requires Valid() && lane.Lane?
      modifies this`currentBytes, this`byHash, this`byPriority, this`bySender
      ensures Valid()
      ensures var fee := SlotFee(old(byHash), lane);
        if fee.Some? && lane.fee <= fee.value then standing == fee && byHash == old(byHash)
        else standing == None && byHash == Unslotted(old(byHash), lane)
    {
      if lane.sender !in bySender || lane.nonce !in bySender[lane.sender] {
        SlotFree(bySender, byHash, lane);
        return None;
      }
      var existing := bySender[lane.sender][lane.nonce];
      assert Holds(bySender, lane.sender, lane.nonce, existing);
      SlotTaken(bySender, byHash, lane, existing);
      if lane.fee <= byHash[existing].fee {
        return Some(byHash[existing].fee);
      }
      var _ := Remove(existing);
      standing := None;
    }

    /** Replacement or admission of a new transaction that passed the stateless checks. */
    method InsertInLane(stx: SignedTx, lane: Lane) returns (r: InsertResult)
      requires Valid() && stx.tx !in byHash && stx.encodedLen <= MAX_SIGNED_TX_BYTES && lane == LaneOf(stx.tx)
        && lane.Lane?
      modifies this`currentBytes, this`byHash, this`byPriority, this`bySender, this`nextSeq
      ensures !r.CounterOverflow? ==> Valid()
      ensures var fee := SlotFee(old(byHash), lane);
        if fee.Some? && lane.fee <= fee.value then
          r == Refused(UnderpricedReplacement(fee.value, lane.fee)) && byHash == old(byHash) && nextSeq == old(nextSeq)
        else if r.CounterOverflow? then old(nextSeq) == U64_MAX
        else
          && nextSeq == old(nextSeq) + 1
          && LongestFit(byHash, Candidates(old(byHash), stx, old(nextSeq)), maxCount, maxBytes)
          && r == if stx.tx in byHash then Admitted(stx.tx)
            else Refused(UnderpricedReplacement(SatAdd64(lane.fee, 1), lane.fee))
    {
      hide GoodEntries, PriorityAgrees, SendersAgree, DistinctSeqs, LongestFit, Fits, SlotFee, SlotUnused, Unslotted,
        LaneOf;
      UnslottedUnused(byHash, lane);
      var standing := ReplaceExisting(lane);
      if standing.Some? {
        return Refused(UnderpricedReplacement(standing.value, lane.fee));
      }
      if nextSeq == U64_MAX {
        return CounterOverflow;
      }
      r := Admit(stx, lane);
    }

    method Insert(stx: SignedTx) returns (r: InsertResult)
      requires Valid()
      modifies this`currentBytes, this`byHash, this`byPriority, this`bySender, this`nextSeq
      ensures !r.CounterOverflow? ==> Valid()
      ensures Screened(old(byHash), stx).Some? ==>
        r == Refused(Screened(old(byHash), stx).value) && byHash == old(byHash) && nextSeq == old(nextSeq)
      ensures Screened(old(byHash), stx).None? && !r.CounterOverflow? ==>
        && nextSeq == old(nextSeq) + 1
        && LongestFit(byHash, Candidates(old(byHash), stx, old(nextSeq)), maxCount, maxBytes)
        && KeepsDearest(byHash, Candidates(old(byHash), stx, old(nextSeq)))
        && r == if stx.tx in byHash then Admitted(stx.tx)
                else Refused(UnderpricedReplacement(SatAdd64(LaneOf(stx.tx).fee, 1), LaneOf(stx.tx).fee))
      ensures r.CounterOverflow? ==> old(nextSeq) == U64_MAX
    {
      if stx.encodedLen > MAX_SIGNED_TX_BYTES {
        return Refused(Oversize(stx.encodedLen, MAX_SIGNED_TX_BYTES));
      }
      hide GoodEntries, PriorityAgrees, SendersAgree, DistinctSeqs, LongestFit, Fits, SlotFee, Candidates, LaneOf,
        KeepsDearest;
      var lane := LaneOf(stx.tx);
      if lane.NoLane? {
        return Refused(Unsupported(lane.what));
      }
      if stx.tx in byHash {
        return Refused(Duplicate);
      }
      CandidatesDistinct(byHash, stx, nextSeq);
      ghost var candidates := Candidates(byHash, stx, nextSeq);
      r := InsertInLane(stx, lane);
      if Screened(old(byHash), stx).None? && !r.CounterOverflow? {
        LongestKeepsDearest(byHash, candidates, maxCount, maxBytes);
      }
    }

    method RemoveMany(hashes: seq<Transaction>)
      requires Valid()
      modifies this`currentBytes, this`byHash, this`byPriority, this`bySender
      ensures Valid() && byHash == Without(old(byHash), hashes)
    {
      hide Pool.Valid, Without;
      WithoutNone(byHash);
      for i := 0 to |hashes|
        invariant Valid() && byHash == Without(old(byHash), hashes[..i])
      {
        WithoutOneMore(old(byHash), hashes[..i], hashes[i]);
        assert hashes[..i + 1] == hashes[..i] + [hashes[i]];
        var _ := Remove(hashes[i]);
      }
      assert hashes[..|hashes|] == hashes;
    }

    /** The keys of the pool in rank order. */
    method Snapshot() returns (ordered: seq<PriorityKey>)
      requires Valid()
      ensures Ranks(ordered, byHash) && SelfKeyed(byHash)
    {
      KeysDistinct(byPriority, byHash);
      ordered := InRankOrder(byPriority);
      OrderedAgrees(ordered, byPriority, byHash);
    }

    /** Takes one entry out for the block if both budgets still allow it. */
    method Consider(k: PriorityKey, entry: Entry, gasUsed: u64, bytesUsed: u64, maxGas: u64, maxBlockBytes: u64,
      ghost before: Entries, ghost done: seq<PriorityKey>, ghost es: seq<Entry>) returns (taken: bool)
      requires Valid() && SelfKeyed(before) && byHash == WithoutEntries(before, es)
      requires DrainedSoFar(before, done, es, maxGas, maxBlockBytes) && NextKey(before, done, k)
        && entry == before[k.hash]
      requires gasUsed == GasOf(es) && bytesUsed == SizeOf(es)
      modifies this`currentBytes, this`byHash, this`byPriority, this`bySender
      ensures Valid() && byHash == WithoutEntries(before, if taken then es + [entry] else es)
      ensures DrainedSoFar(before, done + [k], if taken then es + [entry] else es, maxGas, maxBlockBytes)
    {
      NextIsPooled(before, done, k);
      hide DrainedSoFar, NextKey, WithoutEntries, GoodEntries, PriorityAgrees, SendersAgree, DistinctSeqs, GasOf,
        SizeOf, SelfKeyed, Fits;
      if SatAdd64(gasUsed, k.fee) > maxGas || SatAdd64(bytesUsed, entry.encodedBytes) > maxBlockBytes {
        SkipOne(before, done, es, k, maxGas, maxBlockBytes);
        return false;
      }
      PickOne(before, done, es, k, maxGas, maxBlockBytes);
      PickedLeaves(before, es, k.hash);
      var _ := Remove(k.hash);
      taken := true;
    }

    /** Picks transactions for a block, highest fee first, skipping whatever would break
        the gas or the byte budget, and takes them out of the pool. */
    method DrainForBlock(maxGas: u64, maxBlockBytes: u64)
      returns (picked: seq<SignedTx>, gasUsed: u64, bytesUsed: u64, ghost entries: seq<Entry>)
      requires Valid()
      modifies this`currentBytes, this`byHash, this`byPriority, this`bySender
      ensures Valid() && Drained(old(byHash), byHash, entries, maxGas, maxBlockBytes)
      ensures DearestFirst(entries) && LeftForRoom(byHash, entries, maxGas, maxBlockBytes)
      ensures picked == TxsOf(entries) && gasUsed == GasOf(entries) && bytesUsed == SizeOf(entries)
    {
      hide DrainedSoFar, Drained, NextKey, WithoutEntries, GoodEntries, PriorityAgrees, SendersAgree, DistinctSeqs;
      hide GasOf, SizeOf, SelfKeyed, Fits, Ranks, DearestFirst, LeftForRoom;
      ghost var before := byHash;
      var snapshot := byHash;
      var ordered := Snapshot();
      NothingPicked(before, maxGas, maxBlockBytes);
      picked, gasUsed, bytesUsed, entries := [], 0, 0, [];
      for i := 0 to |ordered|
        invariant Valid() && byHash == WithoutEntries(before, entries)
        invariant DrainedSoFar(before, ordered[..i], entries, maxGas, maxBlockBytes)
        invariant picked == TxsOf(entries) && gasUsed == GasOf(entries) && bytesUsed == SizeOf(entries)
      {
        var k := ordered[i];
        RanksNext(ordered, before, i);
        NextIsPooled(before, ordered[..i], k);
        var entry := snapshot[k.hash];
        assert ordered[..i + 1] == ordered[..i] + [k];
        var taken := Consider(k, entry, gasUsed, bytesUsed, maxGas, maxBlockBytes, before, ordered[..i], entries);
        if taken {
          OneMorePicked(entries, entry);
          gasUsed := SatAdd64(gasUsed, k.fee);
          bytesUsed := SatAdd64(bytesUsed, entry.encodedBytes);
          picked := picked + [entry.tx];
          entries := entries + [entry];
        }
      }
      assert ordered[..|ordered|] == ordered;
      DrainComplete(before, ordered, entries, maxGas, maxBlockBytes);
      DrainTakesDearest(before, byHash, entries, maxGas, maxBlockBytes);
    }

    /** Inserts drained transactions again, ignoring refusals: in every case the pool is what the
        insertions make of it one after the other, and with room for all they all come back. */
    method Readmit(txs: seq<SignedTx>) returns (overflow: bool)
      requires Valid()
      modifies this`currentBytes, this`byHash, this`byPriority, this`bySender, this`nextSeq
      ensures !overflow ==>
        && Valid()
        && InsertsTo(PoolView(old(byHash), old(nextSeq)), txs, PoolView(byHash, nextSeq), maxCount, maxBytes)
      ensures overflow ==> old(nextSeq) + |txs| > U64_MAX
      ensures HasRoom(old(byHash), txs, old(nextSeq), maxCount, maxBytes) ==>
        !overflow && (forall t :: t in txs ==> Poolable(t)) && byHash == Back(old(byHash), txs, old(nextSeq))
    {
      hide HasRoom, Back, InsertsTo, LongestFit, Candidates, Screened, LaneOf, Pool.Valid, Poolable;
      ghost var start := PoolView(byHash, nextSeq);
      overflow := false;
      InsertsNone(start, maxCount, maxBytes);
      for i := 0 to |txs|
        invariant Valid() && nextSeq <= start.nextSeq + i
        invariant InsertsTo(start, txs[..i], PoolView(byHash, nextSeq), maxCount, maxBytes)
      {
        ghost var mid := PoolView(byHash, nextSeq);
        var r := Insert(txs[i]);
        if r.CounterOverflow? {
          RoomIsCounted(start.entries, txs, start.nextSeq, maxCount, maxBytes);
          return true;
        }
        InsertsOneMore(start, txs[..i], mid, txs[i], PoolView(byHash, nextSeq), maxCount, maxBytes);
        assert txs[..i + 1] == txs[..i] + [txs[i]];
      }
      assert txs[..|txs|] == txs;
      RoomForAll(start, txs, PoolView(byHash, nextSeq), maxCount, maxBytes);
    }

    /** Draining for a block that is never decided, then readmitting, leaves the same transactions. */
    method DrainThenReadmit(maxGas: u64, maxBlockBytes: u64) returns (ghost entries: seq<Entry>)
      requires Valid()
      modifies this`currentBytes, this`byHash, this`byPriority, this`bySender, this`nextSeq
      ensures Drained(old(byHash), WithoutEntries(old(byHash), entries), entries, maxGas, maxBlockBytes)
      ensures old(nextSeq) + |entries| <= U64_MAX ==>
        Valid() && Restored(old(byHash), byHash, entries, old(nextSeq)) && TxsIn(byHash) == TxsIn(old(byHash))
    {
      hide HasRoom, Drained, GoodEntries, PriorityAgrees, SendersAgree, DistinctSeqs, Fits, Restored, SelfKeyed;
      hide Back, TxsOf, WithoutEntries, TxsIn, Poolable;
      ghost var before, first, senders := byHash, nextSeq, bySender;
      var picked, gas, size;
      picked, gas, size, entries := DrainForBlock(maxGas, maxBlockBytes);
      DrainLeaves(before, byHash, entries, maxGas, maxBlockBytes);
      if first + |entries| <= U64_MAX {
        RoundTrip(before, byHash, senders, entries, first, maxCount, maxBytes, maxGas, maxBlockBytes);
      }
      var overflow := Readmit(picked);
    }
  }
}
