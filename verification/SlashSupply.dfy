/**
 What slashes do to the token total. A slash writes committed amounts back, so whatever the
 block has done to the slashed positions before is undone, and tokens appear or vanish by
 exactly the difference.
 */
module SlashSupply {
  import opened Numeric
  import opened MapSums
  import opened Types
  import opened LedgerSpec
  import opened Governance
  import opened Slashing
  import opened Blocks
  import opened Supply
  import Unbondings

  // ----- One column -----

  function CommittedAt<K, E>(committed: map<K, E>, cuts: map<K, nat>): map<K, E> {
    map k | k in cuts && k in committed :: committed[k]
  }

  predicate CutsFit(committed: Stakes, cuts: map<StakeKey, nat>) {
    forall k :: k in cuts ==> k in committed && cuts[k] <= committed[k].amount
  }

  predicate TrimsFit(committed: Pending, cuts: map<UnbondKey, nat>) {
    forall k :: k in cuts ==> k in committed && cuts[k] <= committed[k].amount
  }

  lemma AtOne<K(!new), E(!new)>(m: map<K, E>, cuts: map<K, nat>, f: E -> nat, k: K, c: nat)
    requires k !in cuts
    ensures Sum(CommittedAt(m, cuts[k := c]), f) == Sum(CommittedAt(m, cuts), f) + At(m, f, k)
  {
    if k in m {
      assert CommittedAt(m, cuts[k := c]) == CommittedAt(m, cuts)[k := m[k]];
      SumUpdate(CommittedAt(m, cuts), f, k, m[k]);
    } else {
      assert CommittedAt(m, cuts[k := c]) == CommittedAt(m, cuts);
    }
  }

  ghost predicate StakeSums(committed: Stakes, stakes: Stakes, cuts: map<StakeKey, nat>) {
    Sum(Lowered(committed, stakes, cuts), Staked) + Sum(CommittedAt(stakes, cuts), Staked) + Sum(cuts, Whole) ==
      Sum(stakes, Staked) + Sum(CommittedAt(committed, cuts), Staked)
  }

  lemma LoweredElsewhere(committed: Stakes, stakes: Stakes, cuts: map<StakeKey, nat>, k: StakeKey)
    requires k !in cuts
    ensures At(Lowered(committed, stakes, cuts), Staked, k) == At(stakes, Staked, k)
  {
  }

  lemma StakeSumsStep(committed: Stakes, stakes: Stakes, cuts: map<StakeKey, nat>, k: StakeKey, c: nat, e: StakeEntry)
    requires StakeSums(committed, stakes, cuts) && k !in cuts && k in committed && e == committed[k] && c <= e.amount
    ensures StakeSums(committed, stakes, cuts[k := c])
  {
    hide Lowered, PutStake, CommittedAt, Sum;
    LowerOne(committed, stakes, cuts, k, c);
    PutStakeSum(Lowered(committed, stakes, cuts), k, e.(amount := e.amount - c));
    LoweredElsewhere(committed, stakes, cuts, k);
    AtOne(stakes, cuts, Staked, k, c);
    AtOne(committed, cuts, Staked, k, c);
    SumUpdate(cuts, Whole, k, c);
  }

  lemma WithoutOne<K, V>(m: map<K, V>, k: K)
    requires k in m
    ensures m == (m - {k})[k := m[k]] && |m - {k}| < |m|
  {
    assert (m - {k}).Keys == m.Keys - {k} && |(m - {k}).Keys| < |m.Keys|;
  }

  lemma StakeSumsStart(committed: Stakes, stakes: Stakes)
    ensures StakeSums(committed, stakes, map[])
  {
    var none: map<StakeKey, nat> := map[];
    LoweredNone(committed, stakes);
    assert CommittedAt(stakes, none) == map[] && CommittedAt(committed, none) == map[];
  }

  /** Stakes after the cuts: committed less cut, in place of what was live. */
  lemma {:induction false} LoweredSum(committed: Stakes, stakes: Stakes, cuts: map<StakeKey, nat>)
    requires CutsFit(committed, cuts)
    ensures StakeSums(committed, stakes, cuts)
    decreases |cuts|
  {
    hide StakeSums;
    if cuts == map[] {
      StakeSumsStart(committed, stakes);
    } else {
      var k :| k in cuts;
      var fewer := cuts - {k};
      WithoutOne(cuts, k);
      LoweredSum(committed, stakes, fewer);
      StakeSumsStep(committed, stakes, fewer, k, cuts[k], committed[k]);
    }
  }

  ghost predicate UnbondingSums(committed: Pending, unbondings: Pending, cuts: map<UnbondKey, nat>) {
    Sum(Trimmed(committed, unbondings, cuts), Unbonded) + Sum(CommittedAt(unbondings, cuts), Unbonded)
      + Sum(cuts, Whole) ==
      Sum(unbondings, Unbonded) + Sum(CommittedAt(committed, cuts), Unbonded)
  }

  lemma TrimmedElsewhere(committed: Pending, unbondings: Pending, cuts: map<UnbondKey, nat>, k: UnbondKey)
    requires k !in cuts
    ensures At(Trimmed(committed, unbondings, cuts), Unbonded, k) == At(unbondings, Unbonded, k)
  {
  }

  lemma UnbondingSumsStep(committed: Pending, unbondings: Pending, cuts: map<UnbondKey, nat>, k: UnbondKey, c: nat,
      e: UnbondingEntry)
    requires UnbondingSums(committed, unbondings, cuts) && k !in cuts && k in committed && e == committed[k]
      && c <= e.amount
    ensures UnbondingSums(committed, unbondings, cuts[k := c])
  {
    hide Trimmed, CommittedAt, Sum;
    TrimOne(committed, unbondings, cuts, k, c);
    SumUpdate(Trimmed(committed, unbondings, cuts), Unbonded, k, e.(amount := e.amount - c));
    TrimmedElsewhere(committed, unbondings, cuts, k);
    AtOne(unbondings, cuts, Unbonded, k, c);
    AtOne(committed, cuts, Unbonded, k, c);
    SumUpdate(cuts, Whole, k, c);
  }

  lemma UnbondingSumsStart(committed: Pending, unbondings: Pending)
    ensures UnbondingSums(committed, unbondings, map[])
  {
    var none: map<UnbondKey, nat> := map[];
    TrimmedNone(committed, unbondings);
    assert CommittedAt(unbondings, none) == map[] && CommittedAt(committed, none) == map[];
  }

  lemma {:induction false} TrimmedSum(committed: Pending, unbondings: Pending, cuts: map<UnbondKey, nat>)
    requires TrimsFit(committed, cuts)
    ensures UnbondingSums(committed, unbondings, cuts)
    decreases |cuts|
  {
    hide UnbondingSums;
    if cuts == map[] {
      UnbondingSumsStart(committed, unbondings);
    } else {
      var k :| k in cuts;
      var fewer := cuts - {k};
      WithoutOne(cuts, k);
      TrimmedSum(committed, unbondings, fewer);
      UnbondingSumsStep(committed, unbondings, fewer, k, cuts[k], committed[k]);
    }
  }

  /** A part of a column holds at most what the column holds. */
  lemma {:induction false} PartSum<K(!new), E(!new)>(m: map<K, E>, cuts: map<K, nat>, f: E -> nat)
    ensures Sum(CommittedAt(m, cuts), f) <= Sum(m, f)
    decreases |cuts|
  {
    SubmapSum(CommittedAt(m, cuts), m, f);
  }

  lemma {:induction false} CutsBelow(committed: Stakes, cuts: map<StakeKey, nat>)
    requires CutsFit(committed, cuts)
    ensures Sum(cuts, Whole) <= Sum(CommittedAt(committed, cuts), Staked)
    decreases |cuts|
  {
    if cuts != map[] {
      var k :| k in cuts;
      var fewer := cuts - {k};
      assert fewer.Keys == cuts.Keys - {k} && cuts == fewer[k := cuts[k]];
      assert |fewer.Keys| < |cuts.Keys|;
      CutsBelow(committed, fewer);
      AtOne(committed, fewer, Staked, k, cuts[k]);
      SumUpdate(fewer, Whole, k, cuts[k]);
    }
  }

  lemma {:induction false} TrimsBelow(committed: Pending, cuts: map<UnbondKey, nat>)
    requires TrimsFit(committed, cuts)
    ensures Sum(cuts, Whole) <= Sum(CommittedAt(committed, cuts), Unbonded)
    decreases |cuts|
  {
    if cuts != map[] {
      var k :| k in cuts;
      var fewer := cuts - {k};
      assert fewer.Keys == cuts.Keys - {k} && cuts == fewer[k := cuts[k]];
      assert |fewer.Keys| < |cuts.Keys|;
      TrimsBelow(committed, fewer);
      AtOne(committed, fewer, Unbonded, k, cuts[k]);
      SumUpdate(fewer, Whole, k, cuts[k]);
    }
  }

  lemma CutsAreFit(base: Columns, ch: Charge)
    ensures CutsFit(base.stakes, StakeCuts(base, ch)) && TrimsFit(base.unbondings, UnbondingCuts(base, ch))
  {
    hide Product;
  }

  // ----- One slash -----

  /** What the slashed positions hold in `c`. */
  ghost function HeldAt(c: StakeBook, stakeCuts: map<StakeKey, nat>, unbondingCuts: map<UnbondKey, nat>): nat {
    Sum(CommittedAt(c.stakes, stakeCuts), Staked) + Sum(CommittedAt(c.unbondings, unbondingCuts), Unbonded)
  }

  /** What a slash writes back at the positions it cuts, over what they hold by then. */
  ghost function SlashGap(base: Columns, book: StakeBook, ch: Charge): int {
    HeldAt(StakesOf(base), StakeCuts(base, ch), UnbondingCuts(base, ch)) - HeldAt(book, StakeCuts(base, ch),
      UnbondingCuts(base, ch))
  }

  ghost function SlashBurned(base: Columns, ch: Charge): nat {
    Min(CutSum(base, ch), U128_MAX) * BURN_PERCENT / 100
  }

  lemma ReportAddsUp(total: u128, affected: nat)
    ensures var r := ReportOf(total, affected); r.burned + r.toReporter + r.toTreasury == total
  {
  }

  lemma PaidSum(accounts: Accounts, r: SlashReport, reporter: Address, treasury: Address)
    requires Sum(accounts, Balance) + r.toReporter + r.toTreasury <= U128_MAX
    ensures Sum(SlashPaid(accounts, r, reporter, treasury), Balance) ==
      Sum(accounts, Balance) + r.toReporter + r.toTreasury
  {
    hide CreditIfPositive;
    CreditSum(accounts, reporter, r.toReporter);
    CreditSum(CreditIfPositive(accounts, reporter, r.toReporter), treasury, r.toTreasury);
  }

  /** Whatever the block has done before: after a slash the ledger holds what it held, less
      what is burned, plus the gap between what the slashed positions held when the block
      began and what they hold now. */
  lemma SlashedWorth(base: Columns, book: StakeBook, ch: Charge, reporter: Address, treasury: Address)
    requires Slashed(base, book, ch, reporter, treasury).Some? && StakeWorth(StakesOf(base)) <= U128_MAX
    requires StakeWorth(book) + Max(SlashGap(base, book, ch), 0) <= U128_MAX
    ensures StakeWorth(Slashed(base, book, ch, reporter, treasury).value) + SlashBurned(base, ch) ==
      StakeWorth(book) + SlashGap(base, book, ch)
  {
    var stakeCuts, unbondingCuts := StakeCuts(base, ch), UnbondingCuts(base, ch);
    var report := SlashReportOf(base, ch);
    CutsAreFit(base, ch);
    hide Lowered, Trimmed, StakeCuts, UnbondingCuts, CutsFit, TrimsFit, SlashOverflows, SlashPaid, CommittedAt;
    CutsBelow(base.stakes, stakeCuts);
    TrimsBelow(base.unbondings, unbondingCuts);
    PartSum(base.stakes, stakeCuts, Staked);
    PartSum(base.unbondings, unbondingCuts, Unbonded);
    PartSum(book.stakes, stakeCuts, Staked);
    PartSum(book.unbondings, unbondingCuts, Unbonded);
    LoweredSum(base.stakes, book.stakes, stakeCuts);
    TrimmedSum(base.unbondings, book.unbondings, unbondingCuts);
    ReportAddsUp(CutSum(base, ch), |stakeCuts| + |unbondingCuts|);
    PaidSum(book.accounts, report, reporter, treasury);
  }

  /** A slash conserves exactly when what the block left at the slashed positions adds up to
      what was committed there. */
  lemma SlashConservesExactly(base: Columns, book: StakeBook, ch: Charge, reporter: Address, treasury: Address)
    requires Slashed(base, book, ch, reporter, treasury).Some? && StakeWorth(StakesOf(base)) <= U128_MAX
    requires StakeWorth(book) + Max(SlashGap(base, book, ch), 0) <= U128_MAX
    ensures StakeWorth(Slashed(base, book, ch, reporter, treasury).value) + SlashBurned(base, ch) == StakeWorth(book)
      <==> HeldAt(book, StakeCuts(base, ch), UnbondingCuts(base, ch)) ==
           HeldAt(StakesOf(base), StakeCuts(base, ch), UnbondingCuts(base, ch))
  {
    hide Slashed, StakeWorth, HeldAt, SlashBurned;
    SlashedWorth(base, book, ch, reporter, treasury);
  }

  // ----- When the gap is not zero -----

  lemma PutAt(stakes: Stakes, cuts: map<StakeKey, nat>, k: StakeKey, e: StakeEntry)
    requires k in cuts
    ensures Sum(CommittedAt(PutStake(stakes, k, e), cuts), Staked) + At(stakes, Staked, k) ==
      Sum(CommittedAt(stakes, cuts), Staked) + e.amount
  {
    var part := CommittedAt(stakes, cuts);
    assert At(part, Staked, k) == At(stakes, Staked, k);
    if e.amount == 0 {
      assert CommittedAt(PutStake(stakes, k, e), cuts) == part - {k};
      SumDelete(part, Staked, k);
    } else {
      assert CommittedAt(PutStake(stakes, k, e), cuts) == part[k := e];
      SumUpdate(part, Staked, k, e);
    }
  }

  lemma NewUnbondingOutside(base: Columns, ch: Charge, k: UnbondKey, e: UnbondingEntry)
    requires k !in base.unbondings
    ensures CommittedAt(base.unbondings[k := e], UnbondingCuts(base, ch)) ==
      CommittedAt(base.unbondings, UnbondingCuts(base, ch))
  {
    hide IsTrimmed;
  }

  /** A withdrawal earlier in the block is undone by the slash while its unbonding stays: the
      amount withdrawn exists twice. */
  lemma SlashUndoesWithdrawal(base: Columns, sender: Address, node: NodeId, pool: Option<PoolId>, amount: u128)
    requires IdsBelow(base.unbondings, base.nextUnbondId)
    requires Withdrawn(StakesOf(base), sender, node, Compute, pool, amount, base.height).outcome.Applied?
    requires SourceKey(base.stakes, sender, node, Compute, pool) in
      StakeCuts(base, Charge(node, Compute, FailedDeterministicVerification))
    ensures SlashGap(base, Withdrawn(StakesOf(base), sender, node, Compute, pool, amount, base.height).book,
      Charge(node, Compute, FailedDeterministicVerification)) == amount
  {
    hide StakeCuts, UnbondingCuts, CommittedAt, SourceKey, PutStake;
    var ch, key := Charge(node, Compute, FailedDeterministicVerification),
      SourceKey(base.stakes, sender, node, Compute, pool);
    var after := Withdrawn(StakesOf(base), sender, node, Compute, pool, amount, base.height).book;
    PutAt(base.stakes, StakeCuts(base, ch), key, base.stakes[key].(amount := base.stakes[key].amount - amount));
    NewUnbondingOutside(base, ch, UnbondKey(node, base.nextUnbondId),
      after.unbondings[UnbondKey(node, base.nextUnbondId)]);
  }

  lemma LowerTwice(committed: Stakes, stakes: Stakes, cuts: map<StakeKey, nat>)
    ensures Lowered(committed, Lowered(committed, stakes, cuts), cuts) == Lowered(committed, stakes, cuts)
  {
  }

  lemma TrimTwice(committed: Pending, unbondings: Pending, cuts: map<UnbondKey, nat>)
    ensures Trimmed(committed, Trimmed(committed, unbondings, cuts), cuts) == Trimmed(committed, unbondings, cuts)
  {
  }

  lemma LoweredAgain(committed: Stakes, stakes: Stakes, cuts: map<StakeKey, nat>)
    requires CutsFit(committed, cuts)
    ensures Lowered(committed, Lowered(committed, stakes, cuts), cuts) == Lowered(committed, stakes, cuts)
    ensures Sum(CommittedAt(Lowered(committed, stakes, cuts), cuts), Staked) + Sum(cuts, Whole) ==
      Sum(CommittedAt(committed, cuts), Staked)
  {
    LowerTwice(committed, stakes, cuts);
    hide Lowered, CommittedAt;
    LoweredSum(committed, Lowered(committed, stakes, cuts), cuts);
  }

  lemma TrimmedAgain(committed: Pending, unbondings: Pending, cuts: map<UnbondKey, nat>)
    requires TrimsFit(committed, cuts)
    ensures Trimmed(committed, Trimmed(committed, unbondings, cuts), cuts) == Trimmed(committed, unbondings, cuts)
    ensures Sum(CommittedAt(Trimmed(committed, unbondings, cuts), cuts), Unbonded) + Sum(cuts, Whole) ==
      Sum(CommittedAt(committed, cuts), Unbonded)
  {
    TrimTwice(committed, unbondings, cuts);
    hide Trimmed, CommittedAt;
    TrimmedSum(committed, Trimmed(committed, unbondings, cuts), cuts);
  }

  /** A second slash of the same node in one block takes nothing and pays again. */
  lemma SecondSlashPaysAgain(base: Columns, book: StakeBook, ch: Charge, reporter: Address, treasury: Address)
    requires Slashed(base, book, ch, reporter, treasury).Some?
    ensures var once := Slashed(base, book, ch, reporter, treasury).value;
      SlashGap(base, once, ch) == CutSum(base, ch) && CutBook(base, once, ch) == once
  {
    CutsAreFit(base, ch);
    hide StakeCuts, UnbondingCuts, SlashOverflows, SlashPaid, SlashReportOf, Lowered, Trimmed, CommittedAt, CutsFit,
      TrimsFit;
    LoweredAgain(base.stakes, book.stakes, StakeCuts(base, ch));
    TrimmedAgain(base.unbondings, book.unbondings, UnbondingCuts(base, ch));
  }

  // ----- When it is -----

  /** The block has not touched what a slash of this compute node reads. */
  predicate Undisturbed(base: Columns, book: StakeBook, node: NodeId) {
    && (forall k :: k in base.stakes && k.node == node && k.role == Compute ==>
      k in book.stakes && book.stakes[k] == base.stakes[k])
    && (forall k :: k in base.unbondings && Trims(base, k, Charge(node, Compute, FailedDeterministicVerification)) ==>
          k in book.unbondings && book.unbondings[k] == base.unbondings[k])
  }

  lemma UndisturbedStakes(base: Columns, book: StakeBook, ch: Charge)
    requires Undisturbed(base, book, ch.node) && ch.role == Compute
    ensures CommittedAt(book.stakes, StakeCuts(base, ch)) == CommittedAt(base.stakes, StakeCuts(base, ch))
  {
    hide Cut, UnbondingCuts, Trims;
  }

  lemma UndisturbedUnbondings(base: Columns, book: StakeBook, ch: Charge)
    requires Undisturbed(base, book, ch.node) && ch.role == Compute
    ensures CommittedAt(book.unbondings, UnbondingCuts(base, ch)) ==
      CommittedAt(base.unbondings, UnbondingCuts(base, ch))
  {
    hide Cut, StakeCuts;
  }

  lemma UndisturbedHasNoGap(base: Columns, book: StakeBook, ch: Charge)
    requires Undisturbed(base, book, ch.node) && ch.role == Compute
    ensures SlashGap(base, book, ch) == 0
  {
    hide CommittedAt, StakeCuts, UnbondingCuts, Undisturbed;
    UndisturbedStakes(base, book, ch);
    UndisturbedUnbondings(base, book, ch);
  }

  lemma OthersUndisturbed(base: Columns, book: StakeBook, ch: Charge, reporter: Address, treasury: Address,
      node: NodeId)
    requires Slashed(base, book, ch, reporter, treasury).Some? && node != ch.node && Undisturbed(base, book, node)
    ensures Undisturbed(base, Slashed(base, book, ch, reporter, treasury).value, node)
  {
    hide Cut, SlashOverflows, SlashPaid, SlashReportOf;
  }

  // ----- All slashes of a block -----

  ghost function SlashBurnedIn(base: Columns, txs: seq<SignedTx>): nat {
    if txs == [] then 0
    else
      var tx := txs[|txs| - 1].tx;
      SlashBurnedIn(base, txs[..|txs| - 1]) + if Accuses(tx) then SlashBurned(base, ChargeOf(tx.claim)) else 0
  }

  ghost function GapFor(base: Columns, live: Columns, tx: Transaction): int {
    if Accuses(tx) then SlashGap(base, StakesOf(live), ChargeOf(tx.claim)) else 0
  }

  ghost function SlashGaps(base: Columns, live: Columns, txs: seq<SignedTx>): int {
    if txs == [] || SlashAll(base, live, txs).None? then 0
    else
      var earlier := txs[..|txs| - 1];
      SlashGaps(base, live, earlier) + GapFor(base, SlashAll(base, live, earlier).value, txs[|txs| - 1].tx)
  }

  /** What the slashes of a block create from nothing. */
  ghost function SlashExcess(base: Columns, live: Columns, txs: seq<SignedTx>): nat {
    if txs == [] || SlashAll(base, live, txs).None? then 0
    else
      var earlier := txs[..|txs| - 1];
      SlashExcess(base, live, earlier) + Max(GapFor(base, SlashAll(base, live, earlier).value, txs[|txs| - 1].tx), 0)
  }

  lemma BaseWorth(base: Columns)
    ensures StakeWorth(StakesOf(base)) <= Total(base)
  {
  }

  lemma SlashForTotal(base: Columns, live: Columns, tx: Transaction)
    requires SlashFor(base, live, tx).Some? && Total(base) <= U128_MAX
      && Total(live) + Max(GapFor(base, live, tx), 0) <= U128_MAX
    ensures Total(SlashFor(base, live, tx).value)
      + (if Accuses(tx) then SlashBurned(base, ChargeOf(tx.claim)) else 0) ==
      Total(live) + GapFor(base, live, tx)
  {
    hide Slashed, SlashGap, StakeWorth, Total, SlashBurned;
    if Accuses(tx) {
      var ch := ChargeOf(tx.claim);
      var book := Slashed(base, StakesOf(live), ch, tx.claim.reporter, OfTreasuryTag).value;
      BaseWorth(base);
      TotalOfStakes(live, Done(book, Panicked));
      SlashedWorth(base, StakesOf(live), ch, tx.claim.reporter, OfTreasuryTag);
    }
  }

  lemma {:induction false} SlashAllTotal(base: Columns, live: Columns, txs: seq<SignedTx>)
    requires SlashAll(base, live, txs).Some? && Total(base) <= U128_MAX
      && Total(live) + SlashExcess(base, live, txs) <= U128_MAX
    ensures Total(SlashAll(base, live, txs).value) + SlashBurnedIn(base, txs) ==
      Total(live) + SlashGaps(base, live, txs)
    ensures SlashGaps(base, live, txs) <= SlashExcess(base, live, txs)
  {
    hide SlashFor, Total, GapFor, SlashBurned;
    if txs != [] {
      var earlier := txs[..|txs| - 1];
      SlashAllTotal(base, live, earlier);
      SlashForTotal(base, SlashAll(base, live, earlier).value, txs[|txs| - 1].tx);
    }
  }

  /** Each accused node is accused once and its stakes are as they were when the block began. */
  predicate SlashesApart(base: Columns, live: Columns, txs: seq<SignedTx>) {
    && (forall i :: 0 <= i < |txs| && Accuses(txs[i].tx) ==>
      Undisturbed(base, StakesOf(live), txs[i].tx.claim.computeNode))
    && (forall i, j :: 0 <= i < j < |txs| && Accuses(txs[i].tx) && Accuses(txs[j].tx) ==>
          txs[i].tx.claim.computeNode != txs[j].tx.claim.computeNode)
  }

  lemma ApartPrefix(base: Columns, live: Columns, txs: seq<SignedTx>)
    requires SlashesApart(base, live, txs) && txs != []
    ensures SlashesApart(base, live, txs[..|txs| - 1])
    ensures Accuses(txs[|txs| - 1].tx) ==>
      && Undisturbed(base, StakesOf(live), txs[|txs| - 1].tx.claim.computeNode)
      && txs[|txs| - 1].tx.claim.computeNode !in Unbondings.AccusedNodes(txs[..|txs| - 1])
  {
    hide Undisturbed;
    var earlier := txs[..|txs| - 1];
    forall i | 0 <= i < |earlier| ensures earlier[i] == txs[i] {}
  }

  lemma BookBack(c: Columns, b: StakeBook)
    ensures StakesOf(WithStakes(c, b)) == b
  {
  }

  lemma {:induction false} StillUndisturbed(base: Columns, live: Columns, txs: seq<SignedTx>, node: NodeId)
    requires SlashAll(base, live, txs).Some? && Undisturbed(base, StakesOf(live), node)
      && node !in Unbondings.AccusedNodes(txs)
    ensures Undisturbed(base, StakesOf(SlashAll(base, live, txs).value), node)
  {
    hide Slashed, Undisturbed;
    if txs != [] {
      var earlier, tx := txs[..|txs| - 1], txs[|txs| - 1].tx;
      assert node !in Unbondings.AccusedNodes(earlier) by {
        forall i | 0 <= i < |earlier| ensures earlier[i] == txs[i] {}
      }
      StillUndisturbed(base, live, earlier, node);
      if Accuses(tx) {
        assert tx.claim.computeNode in Unbondings.AccusedNodes(txs);
        var before := SlashAll(base, live, earlier).value;
        OthersUndisturbed(base, StakesOf(before), ChargeOf(tx.claim), tx.claim.reporter, OfTreasuryTag, node);
        BookBack(before, Slashed(base, StakesOf(before), ChargeOf(tx.claim), tx.claim.reporter, OfTreasuryTag).value);
      }
    }
  }

  lemma {:induction false} SlashesApartHaveNoGap(base: Columns, live: Columns, txs: seq<SignedTx>)
    requires SlashesApart(base, live, txs) && SlashAll(base, live, txs).Some?
    ensures SlashGaps(base, live, txs) == 0 == SlashExcess(base, live, txs)
  {
    hide SlashFor, SlashGap, Undisturbed;
    if txs != [] {
      var earlier, tx := txs[..|txs| - 1], txs[|txs| - 1].tx;
      ApartPrefix(base, live, txs);
      SlashesApartHaveNoGap(base, live, earlier);
      if Accuses(tx) {
        StillUndisturbed(base, live, earlier, tx.claim.computeNode);
        UndisturbedHasNoGap(base, StakesOf(SlashAll(base, live, earlier).value), ChargeOf(tx.claim));
      }
    }
  }
}
