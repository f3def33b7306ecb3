/**
 The chain state and the per-block context that buffers writes: a write batch for the
 database, a list of pending tree updates, and overlays through which the block reads
 its own writes.
 */
module Store {
  import opened Numeric
  import opened Types
  import opened LedgerSpec

  /** One buffered database write; `None` deletes. */
  datatype WriteOp =
    | WriteAccount(addr: Address, acct: Option<Account>)
    | WriteStake(stakeKey: StakeKey, stake: Option<StakeEntry>)
    | WriteUnbonding(unbondKey: UnbondKey, unbonding: Option<UnbondingEntry>)
    | WriteReceipt(receipt: JobId, seenAt: u64)
    | WriteEscrow(escrowJob: JobId, escrow: Option<EscrowEntry>)
    | WritePendingReward(rewardJob: JobId, reward: Option<PendingReward>)
    | WriteProposal(proposalId: u64, record: ProposalRecord)
    | WriteVote(voteKey: VoteKey, choice: VoteChoice)
    | WriteModel(modelId: string, manifest: Manifest)
    | WriteTee(teeNode: NodeId, capability: TeeCapability)
    | WriteGateway(gatewayNode: NodeId, gateway: Option<GatewayEntry>)
    | WriteValidator(node: NodeId, info: Option<ValidatorInfo>)
    | WriteNextUnbondId(unbondId: u64)
    | WriteNextProposalId(nextProposal: u64)
    | WriteHeight(height: u64)
    | WriteBaseFee(fee: u128)

  function Written<K, V>(m: map<K, V>, k: K, v: Option<V>): map<K, V> {
    if v.Some? then m[k := v.value] else m - {k}
  }

  function Lookup<K, V>(m: map<K, V>, k: K): Option<V> {
    if k in m then Some(m[k]) else None
  }

  function ApplyOp(db: Columns, op: WriteOp): Columns {
    match op
    case WriteAccount(a, v) => db.(accounts := Written(db.accounts, a, v))
    case WriteStake(k, v) => db.(stakes := Written(db.stakes, k, v))
    case WriteUnbonding(k, v) => db.(unbondings := Written(db.unbondings, k, v))
    case WriteReceipt(j, h) => db.(receipts := db.receipts[j := h])
    case WriteEscrow(j, v) => db.(escrows := Written(db.escrows, j, v))
    case WritePendingReward(j, v) => db.(pendingRewards := Written(db.pendingRewards, j, v))
    case WriteProposal(id, v) => db.(proposals := db.proposals[id := v])
    case WriteVote(k, v) => db.(votes := db.votes[k := v])
    case WriteModel(k, v) => db.(models := db.models[k := v])
    case WriteTee(n, v) => db.(registry := db.registry.WithTee(n, v))
    case WriteGateway(n, v) => db.(registry := db.registry.WithGateway(n, v))
    case WriteValidator(n, v) => db.(validators := Written(db.validators, n, v))
    case WriteNextUnbondId(n) => db.(nextUnbondId := n)
    case WriteNextProposalId(n) => db.(nextProposalId := n)
    case WriteHeight(h) => db.(height := h)
    case WriteBaseFee(f) => db.(baseFee := f)
  }

  /** The database after an atomic write of the whole batch, in order. */
  function ApplyBatch(db: Columns, batch: seq<WriteOp>): Columns {
    if batch == [] then db
    else ApplyOp(ApplyBatch(db, batch[..|batch| - 1]), batch[|batch| - 1])
  }

  datatype Overlays = Overlays(
    accounts: map<Address, Option<Account>>,
    stakes: map<StakeKey, Option<StakeEntry>>,
    unbondings: map<UnbondKey, Option<UnbondingEntry>>,
    receipts: map<JobId, u64>,
    nextUnbondId: Option<u64>,
    height: Option<u64>)

  const NO_OVERLAYS := Overlays(map[], map[], map[], map[], None, None)

  function Overlay(o: Overlays, op: WriteOp): Overlays {
    match op
    case WriteAccount(a, v) => o.(accounts := o.accounts[a := v])
    case WriteStake(k, v) => o.(stakes := o.stakes[k := v])
    case WriteUnbonding(k, v) => o.(unbondings := o.unbondings[k := v])
    case WriteReceipt(j, h) => o.(receipts := o.receipts[j := h])
    case WriteNextUnbondId(n) => o.(nextUnbondId := Some(n))
    case WriteHeight(h) => o.(height := Some(h))
    case _ => o
  }

  /** The overlays a batch of writes leaves behind. */
  function OverlaysOf(batch: seq<WriteOp>): Overlays {
    if batch == [] then NO_OVERLAYS
    else Overlay(OverlaysOf(batch[..|batch| - 1]), batch[|batch| - 1])
  }

  /** A read through an overlay: the buffered value if any, else the committed one. */
  function ReadThrough<K, V>(overlay: map<K, Option<V>>, committed: map<K, V>, k: K): Option<V> {
    if k in overlay then overlay[k] else Lookup(committed, k)
  }

  /** The overlays answer, over `base`, as `live` does: a deleted entry reads like one never written. */
  ghost predicate Answers(o: Overlays, base: Columns, live: Columns) {
    && (forall a :: ReadThrough(o.accounts, base.accounts, a) == Lookup(live.accounts, a))
    && (forall k :: ReadThrough(o.stakes, base.stakes, k) == Lookup(live.stakes, k))
    && (forall k :: ReadThrough(o.unbondings, base.unbondings, k) == Lookup(live.unbondings, k))
    && (forall j :: (j in o.receipts || j in base.receipts) <==> j in live.receipts)
    && o.nextUnbondId.GetOr(base.nextUnbondId) == live.nextUnbondId
    && o.height.GetOr(base.height) == live.height
  }

  lemma ReadAfterWrite<K(!new),
      V>(overlay: map<K, Option<V>>, committed: map<K, V>, live: map<K, V>, k: K, v: Option<V>)
    requires forall x :: ReadThrough(overlay, committed, x) == Lookup(live, x)
    ensures forall x :: ReadThrough(overlay[k := v], committed, x) == Lookup(Written(live, k, v), x)
  {
    forall x
      ensures ReadThrough(overlay[k := v], committed, x) == Lookup(Written(live, k, v), x)
    {
      assert ReadThrough(overlay, committed, x) == Lookup(live, x);
    }
  }

  /** Columns without an overlay are read from the committed state. */
  lemma AnswersAfterOther(o: Overlays, base: Columns, live: Columns, op: WriteOp)
    requires Answers(o, base, live)
    requires !op.WriteAccount? && !op.WriteStake? && !op.WriteUnbonding? && !op.WriteReceipt?
    requires !op.WriteNextUnbondId? && !op.WriteHeight?
    ensures Answers(Overlay(o, op), base, ApplyOp(live, op))
  {
    hide ReadThrough, Lookup, Written;
  }

  lemma AnswersAfterOp(o: Overlays, base: Columns, live: Columns, op: WriteOp)
    requires Answers(o, base, live)
    ensures Answers(Overlay(o, op), base, ApplyOp(live, op))
  {
    hide ReadThrough, Lookup, Written;
    match op
    case WriteAccount(a, v) => ReadAfterWrite(o.accounts, base.accounts, live.accounts, a, v);
    case WriteStake(k, v) => ReadAfterWrite(o.stakes, base.stakes, live.stakes, k, v);
    case WriteUnbonding(k, v) => ReadAfterWrite(o.unbondings, base.unbondings, live.unbondings, k, v);
    case WriteReceipt(_, _) =>
    case WriteNextUnbondId(_) =>
    case WriteHeight(_) =>
    case _ => AnswersAfterOther(o, base, live, op);
  }

  /** For every batch, reading through the overlays answers as the database would
      after writing the batch. */
  lemma {:induction false} OverlaysRefineBatch(db: Columns, batch: seq<WriteOp>)
    ensures Answers(OverlaysOf(batch), db, ApplyBatch(db, batch))
  {
    if batch != [] {
      var earlier, op := batch[..|batch| - 1], batch[|batch| - 1];
      OverlaysRefineBatch(db, earlier);
      AnswersAfterOp(OverlaysOf(earlier), db, ApplyBatch(db, earlier), op);
    }
  }

  /** The tree updates a batch queues: every account write, an empty account for a deletion. */
  function SmtUpdatesOf(batch: seq<WriteOp>): seq<(Address, Account)> {
    if batch == [] then []
    else
      var earlier, op := SmtUpdatesOf(batch[..|batch| - 1]), batch[|batch| - 1];
      if op.WriteAccount? then earlier + [(op.addr, op.acct.GetOr(ZERO_ACCOUNT))] else earlier
  }

  lemma ApplyBatchSnoc(db: Columns, batch: seq<WriteOp>, op: WriteOp)
    ensures ApplyBatch(db, batch + [op]) == ApplyOp(ApplyBatch(db, batch), op)
    ensures OverlaysOf(batch + [op]) == Overlay(OverlaysOf(batch), op)
    ensures SmtUpdatesOf(batch + [op]) ==
      if op.WriteAccount? then SmtUpdatesOf(batch) + [(op.addr, op.acct.GetOr(ZERO_ACCOUNT))] else SmtUpdatesOf(batch)
  {
    assert (batch + [op])[..|batch|] == batch;
  }

  // ----- The account tree -----

  /** The sparse Merkle tree over accounts, by its non-zero leaves. Its root is a
      collision-free function of them. */
  datatype StateRoot = StateRoot(leaves: map<Address, Account>)

  /** Leaves after a series of updates; an empty account is the zero leaf. */
  function Updated(leaves: map<Address, Account>, updates: seq<(Address, Account)>): map<Address, Account> {
    if updates == [] then leaves
    else
      var (a, acct) := updates[|updates| - 1];
      PutAccount(Updated(leaves, updates[..|updates| - 1]), a, acct)
  }

  predicate NoEmptyAccounts(accounts: map<Address, Account>) {
    forall a :: a in accounts ==> !accounts[a].IsEmpty()
  }

  predicate CleanBatch(batch: seq<WriteOp>) {
    forall op :: op in batch && op.WriteAccount? && op.acct.Some? ==> !op.acct.value.IsEmpty()
  }

  lemma UpdateMirrorsWrite(accounts: map<Address, Account>, a: Address, acct: Option<Account>)
    requires acct.Some? ==> !acct.value.IsEmpty()
    ensures PutAccount(accounts, a, acct.GetOr(ZERO_ACCOUNT)) == Written(accounts, a, acct)
  {
  }

  lemma OpsKeepAccounts(db: Columns, op: WriteOp)
    ensures ApplyOp(db, op).accounts == if op.WriteAccount? then Written(db.accounts, op.addr, op.acct) else db.accounts
  {
  }

  lemma UpdatedSnoc(leaves: map<Address, Account>, updates: seq<(Address, Account)>, u: (Address, Account))
    ensures Updated(leaves, updates + [u]) == PutAccount(Updated(leaves, updates), u.0, u.1)
  {
    assert (updates + [u])[..|updates|] == updates;
  }

  /** Committing the queued tree updates keeps the tree equal to the accounts column. */
  lemma {:induction false} TreeMirrorsAccounts(db: Columns, batch: seq<WriteOp>)
    requires CleanBatch(batch)
    ensures Updated(db.accounts, SmtUpdatesOf(batch)) == ApplyBatch(db, batch).accounts
    ensures NoEmptyAccounts(db.accounts) ==> NoEmptyAccounts(ApplyBatch(db, batch).accounts)
  {
    if batch != [] {
      var earlier, op := batch[..|batch| - 1], batch[|batch| - 1];
      assert op in batch;
      assert CleanBatch(earlier) by {
        forall o | o in earlier ensures o in batch {}
      }
      TreeMirrorsAccounts(db, earlier);
      var before := ApplyBatch(db, earlier);
      OpsKeepAccounts(before, op);
      if op.WriteAccount? {
        UpdatedSnoc(db.accounts, SmtUpdatesOf(earlier), (op.addr, op.acct.GetOr(ZERO_ACCOUNT)));
        UpdateMirrorsWrite(before.accounts, op.addr, op.acct);
      }
    }
  }

  lemma {:induction false} UpdatedOutside(leaves: map<Address, Account>, updates: seq<(Address, Account)>, a: Address)
    requires forall u :: u in updates ==> u.0 != a
    ensures Lookup(Updated(leaves, updates), a) == Lookup(leaves, a)
  {
    if updates != [] {
      assert updates[|updates| - 1] in updates;
      UpdatedOutside(leaves, updates[..|updates| - 1], a);
    }
  }

  lemma SameLookupsSameMap<K(!new), V>(m: map<K, V>, n: map<K, V>)
    requires forall k :: Lookup(m, k) == Lookup(n, k)
    ensures m == n
  {
    forall k
      ensures k in m <==> k in n
      ensures k in m ==> m[k] == n[k]
    {
      assert Lookup(m, k) == Lookup(n, k);
    }
  }

  /** Leaves written back, last one first. */
  function Restored(leaves: map<Address, Account>, stashed: seq<(Address, Account)>): map<Address, Account>
    decreases |stashed|
  {
    if stashed == [] then leaves
    else
      var n := |stashed| - 1;
      Restored(PutAccount(leaves, stashed[n].0, stashed[n].1), stashed[..n])
  }

  /** Both trees have the same leaf wherever nothing was stashed. */
  ghost predicate AgreeOutside(m: map<Address, Account>, n: map<Address, Account>, stashed: seq<(Address, Account)>) {
    forall a :: (forall u :: u in stashed ==> u.0 != a) ==> Lookup(m, a) == Lookup(n, a)
  }

  lemma PutBack(original: map<Address, Account>, dirty: map<Address, Account>, stashed: seq<(Address, Account)>)
    requires stashed != [] && NoEmptyAccounts(original) && AgreeOutside(dirty, original, stashed)
    requires stashed[|stashed| - 1].1 == AccountAt(original, stashed[|stashed| - 1].0)
    ensures var n := |stashed| - 1;
      AgreeOutside(PutAccount(dirty, stashed[n].0, stashed[n].1), original, stashed[..n])
  {
    var n := |stashed| - 1;
    forall a | forall u :: u in stashed[..n] ==> u.0 != a
      ensures Lookup(PutAccount(dirty, stashed[n].0, stashed[n].1), a) == Lookup(original, a)
    {
      assert a != stashed[n].0 ==> forall u :: u in stashed ==> u.0 != a;
    }
  }

  lemma {:induction false} RestoredUndoes(original: map<Address, Account>, dirty: map<Address, Account>,
    stashed: seq<(Address, Account)>)
    requires NoEmptyAccounts(original) && AgreeOutside(dirty, original, stashed)
    requires forall u :: u in stashed ==> u.1 == AccountAt(original, u.0)
    ensures Restored(dirty, stashed) == original
    decreases |stashed|
  {
    if stashed == [] {
      SameLookupsSameMap(dirty, original);
    } else {
      var n := |stashed| - 1;
      PutBack(original, dirty, stashed);
      RestoredUndoes(original, PutAccount(dirty, stashed[n].0, stashed[n].1), stashed[..n]);
    }
  }

  /** Restoring the original leaf of every update, in reverse, undoes all of them. */
  lemma RestoredUndoesUpdates(original: map<Address, Account>, updates: seq<(Address, Account)>,
      stashed: seq<(Address, Account)>)
    requires NoEmptyAccounts(original) && |stashed| == |updates|
    requires forall j :: 0 <= j < |stashed| ==> stashed[j] == (updates[j].0, AccountAt(original, updates[j].0))
    ensures Restored(Updated(original, updates), stashed) == original
  {
    var dirty := Updated(original, updates);
    forall a | forall u :: u in stashed ==> u.0 != a
      ensures Lookup(dirty, a) == Lookup(original, a)
    {
      forall u | u in updates
        ensures u.0 != a
      {
        var j :| 0 <= j < |updates| && updates[j] == u;
        assert stashed[j] in stashed;
      }
      UpdatedOutside(original, updates, a);
    }
    RestoredUndoes(original, dirty, stashed);
  }

  /** A handler left `live` and answered `out` as the step says. After an overflow the
      process is gone, and with it whatever was buffered. */
  ghost predicate Does(live: Columns, out: Outcome, step: Step) {
    out == step.outcome && (out.Panicked? || live == step.live)
  }

  // ----- State and block context -----

  class State {
    var db: Columns
    var smt: map<Address, Account>

    ghost predicate Valid()
      reads this
    {
      smt == db.accounts && NoEmptyAccounts(db.accounts)
    }

    /** Opens the database and rebuilds the tree from the accounts on disk. */
    constructor (stored: Columns)
      ensures db == stored
      ensures NoEmptyAccounts(stored.accounts) ==> Valid()
      ensures smt == map a | a in stored.accounts && !stored.accounts[a].IsEmpty() :: stored.accounts[a]
    {
      db := stored;
      var tree: map<Address, Account> := map[];
      var rest := stored.accounts.Keys;
      while rest != {}
        invariant rest <= stored.accounts.Keys
        invariant tree == map a | a in stored.accounts && a !in rest
          && !stored.accounts[a].IsEmpty() :: stored.accounts[a]
        decreases |rest|
      {
        var a :| a in rest;
        tree := PutAccount(tree, a, stored.accounts[a]);
        rest := rest - {a};
      }
      smt := tree;
    }

    function Root(): (r: StateRoot)
      reads this
    {
      StateRoot(smt)
    }
  }

  class BlockCtx {
    const state: State
    var batch: seq<WriteOp>
    var pendingSmtUpdates: seq<(Address, Account)>
    var accountOverlay: map<Address, Option<Account>>
    var stakeOverlay: map<StakeKey, Option<StakeEntry>>
    var unbondingOverlay: map<UnbondKey, Option<UnbondingEntry>>
    var receiptSeenOverlay: map<JobId, u64>
    var pendingNextUnbondId: Option<u64>
    var pendingCurrentHeight: Option<u64>
    /** What a commit would leave. */
    ghost var live: Columns

    ghost predicate Valid()
      reads this, state
    {
      && live == ApplyBatch(state.db, batch)
      && OverlaysOf(batch) == Overlays(accountOverlay, stakeOverlay, unbondingOverlay, receiptSeenOverlay,
           pendingNextUnbondId, pendingCurrentHeight)
      && pendingSmtUpdates == SmtUpdatesOf(batch)
      && CleanBatch(batch)
    }

    constructor (s: State)
      ensures Valid() && state == s && live == s.db
    {
      state := s;
      batch, pendingSmtUpdates := [], [];
      accountOverlay, stakeOverlay, unbondingOverlay, receiptSeenOverlay := map[], map[], map[], map[];
      pendingNextUnbondId, pendingCurrentHeight := None, None;
      live := s.db;
    }

    // ----- Reads that see the block's own writes -----

    function GetAccount(a: Address): (r: Option<Account>)
      requires Valid()
      reads this, state
      ensures r == Lookup(live.accounts, a) && r.GetOr(ZERO_ACCOUNT) == AccountAt(live.accounts, a)
    {
      OverlaysRefineBatch(state.db, batch);
      ReadThrough(accountOverlay, state.db.accounts, a)
    }

    function GetStake(k: StakeKey): (r: Option<StakeEntry>)
      requires Valid()
      reads this, state
      ensures r == Lookup(live.stakes, k)
    {
      OverlaysRefineBatch(state.db, batch);
      ReadThrough(stakeOverlay, state.db.stakes, k)
    }

    function GetUnbonding(k: UnbondKey): (r: Option<UnbondingEntry>)
      requires Valid()
      reads this, state
      ensures r == Lookup(live.unbondings, k)
    {
      OverlaysRefineBatch(state.db, batch);
      ReadThrough(unbondingOverlay, state.db.unbondings, k)
    }

    function NextUnbondId(): (r: u64)
      requires Valid()
      reads this, state
      ensures r == live.nextUnbondId
    {
      OverlaysRefineBatch(state.db, batch);
      pendingNextUnbondId.GetOr(state.db.nextUnbondId)
    }

    function CurrentHeight(): (r: u64)
      requires Valid()
      reads this, state
      ensures r == live.height
    {
      OverlaysRefineBatch(state.db, batch);
      pendingCurrentHeight.GetOr(state.db.height)
    }

    function IsReceiptSeen(j: JobId): (r: bool)
      requires Valid()
      reads this, state
      ensures r <==> j in live.receipts
    {
      OverlaysRefineBatch(state.db, batch);
      j in receiptSeenOverlay || j in state.db.receipts
    }

    // ----- Reads of the committed state only -----

    function GetEscrow(j: JobId): Option<EscrowEntry>
      reads state
    {
      Lookup(state.db.escrows, j)
    }

    function GetProposal(id: u64): Option<ProposalRecord>
      reads state
    {
      Lookup(state.db.proposals, id)
    }

    function GetVote(k: VoteKey): Option<VoteChoice>
      reads state
    {
      Lookup(state.db.votes, k)
    }

    function GetModel(modelId: string): Option<Manifest>
      reads state
    {
      Lookup(state.db.models, modelId)
    }

    // ----- Writes -----

    method SetAccount(a: Address, acct: Account)
      requires Valid()
      modifies this
      ensures Valid()
      ensures live == old(live).(accounts := PutAccount(old(live).accounts, a, acct))
    {
      var value := if acct.IsEmpty() then None else Some(acct);
      ApplyBatchSnoc(state.db, batch, WriteAccount(a, value));
      hide ApplyBatch, OverlaysOf, SmtUpdatesOf;
      live := live.(accounts := PutAccount(live.accounts, a, acct));
      batch := batch + [WriteAccount(a, value)];
      accountOverlay := accountOverlay[a := value];
      pendingSmtUpdates := pendingSmtUpdates + [(a, acct)];
      assert value.GetOr(ZERO_ACCOUNT) == acct;
    }

    method SetStake(k: StakeKey, e: StakeEntry)
      requires Valid()
      modifies this
      ensures Valid()
      ensures live == old(live).(stakes := PutStake(old(live).stakes, k, e))
    {
      var value := if e.amount == 0 then None else Some(e);
      ApplyBatchSnoc(state.db, batch, WriteStake(k, value));
      hide ApplyBatch, OverlaysOf, SmtUpdatesOf;
      live := live.(stakes := PutStake(live.stakes, k, e));
      batch := batch + [WriteStake(k, value)];
      stakeOverlay := stakeOverlay[k := value];
    }

    method SetUnbonding(key: UnbondKey, e: UnbondingEntry)
      requires Valid()
      modifies this
      ensures Valid()
      ensures live == old(live).(unbondings := old(live).unbondings[key := e])
    {
      ApplyBatchSnoc(state.db, batch, WriteUnbonding(key, Some(e)));
      hide ApplyBatch, OverlaysOf, SmtUpdatesOf;
      live := live.(unbondings := live.unbondings[key := e]);
      batch := batch + [WriteUnbonding(key, Some(e))];
      unbondingOverlay := unbondingOverlay[key := Some(e)];
    }

    method DeleteUnbonding(key: UnbondKey)
      requires Valid()
      modifies this
      ensures Valid()
      ensures live == old(live).(unbondings := old(live).unbondings - {key})
    {
      ApplyBatchSnoc(state.db, batch, WriteUnbonding(key, None));
      hide ApplyBatch, OverlaysOf, SmtUpdatesOf;
      live := live.(unbondings := live.unbondings - {key});
      batch := batch + [WriteUnbonding(key, None)];
      unbondingOverlay := unbondingOverlay[key := None];
    }

    method SetNextUnbondId(next: u64)
      requires Valid()
      modifies this
      ensures Valid() && live == old(live).(nextUnbondId := next)
    {
      ApplyBatchSnoc(state.db, batch, WriteNextUnbondId(next));
      hide ApplyBatch, OverlaysOf, SmtUpdatesOf;
      live := live.(nextUnbondId := next);
      batch := batch + [WriteNextUnbondId(next)];
      pendingNextUnbondId := Some(next);
    }

    method SetCurrentHeight(h: u64)
      requires Valid()
      modifies this
      ensures Valid() && live == old(live).(height := h)
    {
      ApplyBatchSnoc(state.db, batch, WriteHeight(h));
      hide ApplyBatch, OverlaysOf, SmtUpdatesOf;
      live := live.(height := h);
      batch := batch + [WriteHeight(h)];
      pendingCurrentHeight := Some(h);
    }

    method MarkReceiptSeen(j: JobId, h: u64)
      requires Valid()
      modifies this
      ensures Valid()
      ensures live == old(live).(receipts := old(live).receipts[j := h])
    {
      ApplyBatchSnoc(state.db, batch, WriteReceipt(j, h));
      hide ApplyBatch, OverlaysOf, SmtUpdatesOf;
      live := live.(receipts := live.receipts[j := h]);
      batch := batch + [WriteReceipt(j, h)];
      receiptSeenOverlay := receiptSeenOverlay[j := h];
    }

    /** Buffers a write to a column that has no overlay. */
    method Put(op: WriteOp)
      requires Valid()
      requires op.WriteEscrow? || op.WritePendingReward? || op.WriteValidator? || op.WriteProposal? || op.WriteVote?
        || op.WriteModel?
        || op.WriteTee? || op.WriteGateway? || op.WriteNextProposalId? || op.WriteBaseFee?
      modifies this
      ensures Valid() && live == ApplyOp(old(live), op)
    {
      ApplyBatchSnoc(state.db, batch, op);
      hide ApplyBatch, OverlaysOf, SmtUpdatesOf;
      live := ApplyOp(live, op);
      batch := batch + [op];
    }

    // ----- Account moves the handlers share -----

    method CreditAccount(a: Address, amount: u128)
      requires Valid()
      modifies this
      ensures Valid() && live == old(live).(accounts := Credit(old(live).accounts, a, amount))
    {
      var acct := GetAccount(a).GetOr(ZERO_ACCOUNT);
      SetAccount(a, acct.(balance := SatAdd128(acct.balance, amount)));
    }

    /** Zero amounts are not written. */
    method CreditLine(a: Address, amount: u128)
      requires Valid()
      modifies this
      ensures Valid() && live == old(live).(accounts := CreditIfPositive(old(live).accounts, a, amount))
    {
      if amount > 0 {
        CreditAccount(a, amount);
      }
    }

    method DebitAccount(a: Address, acct: Account, amount: u128)
      requires Valid() && acct == AccountAt(live.accounts, a) && amount <= acct.balance
      modifies this
      ensures Valid() && live == old(live).(accounts := Debit(old(live).accounts, a, amount))
    {
      SetAccount(a, acct.(balance := acct.balance - amount));
    }

    /** Debits and uses up the nonce, unless the nonce overflows. */
    method SpendFrom(a: Address, acct: Account, amount: u128) returns (overflow: bool)
      requires Valid() && acct == AccountAt(live.accounts, a) && amount <= acct.balance
      modifies this
      ensures Valid() && overflow == (acct.nonce == U64_MAX)
      ensures live == if overflow then old(live) else old(live).(accounts := Spend(old(live).accounts, a, amount))
    {
      overflow := acct.nonce == U64_MAX;
      if !overflow {
        SetAccount(a, Account(acct.balance - amount, acct.nonce + 1));
      }
    }

    method TopUpStake(key: StakeKey, amount: u128, height: u64)
      requires Valid()
      modifies this
      ensures Valid() && live == old(live).(stakes := TopUp(old(live).stakes, key, amount, height))
    {
      var existing := GetStake(key);
      var entry :=
        if existing.Some? then existing.value.(amount := SatAdd128(existing.value.amount, amount))
        else StakeEntry(amount, height);
      SetStake(key, entry);
    }

    // ----- Preview and commit -----

    /** Restores every stashed leaf, last one first. */
    method RollBack(stashed: seq<(Address, Account)>)
      requires Valid() && NoEmptyAccounts(state.db.accounts)
      requires state.smt == Updated(state.db.accounts, pendingSmtUpdates)
      requires |stashed| == |pendingSmtUpdates|
      requires forall j :: 0 <= j < |stashed| ==>
        stashed[j] == (pendingSmtUpdates[j].0, AccountAt(state.db.accounts, pendingSmtUpdates[j].0))
      modifies state`smt
      ensures state.smt == state.db.accounts
    {
      hide BlockCtx.Valid;
      RestoredUndoesUpdates(state.db.accounts, pendingSmtUpdates, stashed);
      hide AccountAt, PutAccount, NoEmptyAccounts, Updated;
      var i := |stashed|;
      assert stashed[..i] == stashed;
      while i > 0
        invariant 0 <= i <= |stashed|
        invariant Restored(state.smt, stashed[..i]) == state.db.accounts
      {
        i := i - 1;
        assert stashed[..i + 1][..i] == stashed[..i];
        state.smt := PutAccount(state.smt, stashed[i].0, stashed[i].1);
      }
    }

    /** The root a commit would produce. The shared tree is changed and changed back. */
    method PreviewStateRoot() returns (root: StateRoot)
      requires Valid() && state.Valid()
      modifies state
      ensures state.db == old(state.db) && state.smt == old(state.smt)
      ensures root == StateRoot(live.accounts)
    {
      ghost var original := state.smt;
      var stashed: seq<(Address, Account)> := [];
      for i := 0 to |pendingSmtUpdates|
        invariant state.smt == original && state.db == old(state.db)
        invariant |stashed| == i
        invariant forall j :: 0 <= j < i ==>
          stashed[j] == (pendingSmtUpdates[j].0, AccountAt(original, pendingSmtUpdates[j].0))
      {
        var key := pendingSmtUpdates[i].0;
        stashed := stashed + [(key, AccountAt(state.smt, key))];
      }
      for i := 0 to |pendingSmtUpdates|
        invariant state.smt == Updated(original, pendingSmtUpdates[..i]) && state.db == old(state.db)
      {
        UpdatedSnoc(original, pendingSmtUpdates[..i], pendingSmtUpdates[i]);
        assert pendingSmtUpdates[..i + 1] == pendingSmtUpdates[..i] + [pendingSmtUpdates[i]];
        state.smt := PutAccount(state.smt, pendingSmtUpdates[i].0, pendingSmtUpdates[i].1);
      }
      assert pendingSmtUpdates[..|pendingSmtUpdates|] == pendingSmtUpdates;
      TreeMirrorsAccounts(state.db, batch);
      root := StateRoot(state.smt);
      RollBack(stashed);
    }

    /** Writes the batch and the tree updates. */
    method Commit() returns (root: StateRoot)
      requires Valid() && state.Valid()
      modifies state
      ensures state.Valid()
      ensures state.db == old(live) && root == state.Root() == StateRoot(old(live).accounts)
    {
      ghost var original := state.db;
      TreeMirrorsAccounts(state.db, batch);
      state.db := ApplyBatch(state.db, batch);
      for i := 0 to |pendingSmtUpdates|
        invariant state.db == ApplyBatch(original, batch)
        invariant state.smt == Updated(original.accounts, pendingSmtUpdates[..i])
      {
        UpdatedSnoc(original.accounts, pendingSmtUpdates[..i], pendingSmtUpdates[i]);
        assert pendingSmtUpdates[..i + 1] == pendingSmtUpdates[..i] + [pendingSmtUpdates[i]];
        state.smt := PutAccount(state.smt, pendingSmtUpdates[i].0, pendingSmtUpdates[i].1);
      }
      assert pendingSmtUpdates[..|pendingSmtUpdates|] == pendingSmtUpdates;
      root := StateRoot(state.smt);
    }
  }

  /** A node that restarts rebuilds the root it had. */
  method Reopen(s: State) returns (t: State)
    requires s.Valid()
    ensures fresh(t) && t.Valid() && t.db == s.db && t.Root() == s.Root()
  {
    t := new State(s.db);
  }
}
