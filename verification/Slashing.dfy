/**
 Slashing: an offence cuts the committed stakes and pending unbondings of a node, burns
 most of what is cut and pays the rest to the reporter and the treasury.
 */
module Slashing {
  import opened Numeric
  import opened Division
  import opened MapSums
  import opened Types
  import opened LedgerSpec
  import opened Store

  const BURN_PERCENT: nat := 90
  const REPORTER_PERCENT: nat := 5

  datatype Offense =
    | WrongModelHash | DoubleClaimReceipt | VerifierComputeCollusion | DataLeak | FailedDeterministicVerification
    | RouterPreferentialRouting | CensoringMints | RepeatedTimeouts | ExtendedDowntime | FalseDispute
    | FakeTeeAttestation

  /** Who is slashed, in which role and for what. */
  datatype Charge = Charge(node: NodeId, role: StakeRole, offense: Offense)

  function PenaltyPercent(o: Offense): nat {
    match o
    case WrongModelHash | DoubleClaimReceipt | VerifierComputeCollusion | DataLeak | FakeTeeAttestation => 100
    case FailedDeterministicVerification | RouterPreferentialRouting => 5
    case CensoringMints | FalseDispute => 10
    case RepeatedTimeouts => 2
    case ExtendedDowntime => 1
  }

  datatype SlashReport = SlashReport(total: u128, burned: u128, toReporter: u128, toTreasury: u128, affected: nat)

  // ----- What is cut -----

  function Product(amount: nat, o: Offense): nat {
    amount * PenaltyPercent(o)
  }

  lemma CutBound(amount: nat, o: Offense)
    ensures Product(amount, o) / 100 <= amount
  {
    MulMono(amount, PenaltyPercent(o), 100);
    DivLe(Product(amount, o), amount, 100);
  }

  /** The part of an amount that an offence takes. */
  function Cut(amount: nat, o: Offense): (c: nat)
    ensures c <= amount
  {
    CutBound(amount, o);
    Product(amount, o) / 100
  }

  predicate Targets(k: StakeKey, ch: Charge) {
    k.node == ch.node && k.role == ch.role
  }

  /** Unbondings that are not complete yet at the committed height. */
  predicate Trims(base: Columns, k: UnbondKey, ch: Charge)
    requires k in base.unbondings
  {
    k.node == ch.node && base.unbondings[k].role == ch.role && base.unbondings[k].completesAt > base.height
  }

  predicate Loses(base: Columns, k: StakeKey, ch: Charge)
    requires k in base.stakes
  {
    Targets(k, ch) && Cut(base.stakes[k].amount, ch.offense) > 0
  }

  predicate IsTrimmed(base: Columns, k: UnbondKey, ch: Charge)
    requires k in base.unbondings
  {
    Trims(base, k, ch) && Cut(base.unbondings[k].amount, ch.offense) > 0
  }

  function StakeCutsOutside(base: Columns, rest: set<StakeKey>, ch: Charge): map<StakeKey, nat> {
    map k | k in base.stakes && k !in rest && Loses(base, k, ch) ::
      Cut(base.stakes[k].amount, ch.offense)
  }

  function UnbondingCutsOutside(base: Columns, rest: set<UnbondKey>, ch: Charge): map<UnbondKey, nat> {
    map k | k in base.unbondings && k !in rest && IsTrimmed(base, k, ch) ::
      Cut(base.unbondings[k].amount, ch.offense)
  }

  /** The stake positions that lose something, and how much. */
  function StakeCuts(base: Columns, ch: Charge): map<StakeKey, nat> {
    StakeCutsOutside(base, {}, ch)
  }

  function UnbondingCuts(base: Columns, ch: Charge): map<UnbondKey, nat> {
    UnbondingCutsOutside(base, {}, ch)
  }

  ghost function CutSum(base: Columns, ch: Charge): nat {
    Sum(StakeCuts(base, ch), Whole) + Sum(UnbondingCuts(base, ch), Whole)
  }

  predicate StakeOverflows(base: Columns, rest: set<StakeKey>, ch: Charge) {
    exists k :: k in base.stakes && k !in rest && Targets(k, ch)
      && Product(base.stakes[k].amount, ch.offense) > U128_MAX
  }

  predicate UnbondingOverflows(base: Columns, rest: set<UnbondKey>, ch: Charge) {
    exists k :: k in base.unbondings && k !in rest && Trims(base, k, ch)
      && Product(base.unbondings[k].amount, ch.offense) > U128_MAX
  }

  ghost predicate SlashOverflows(base: Columns, ch: Charge) {
    || StakeOverflows(base, {}, ch)
    || UnbondingOverflows(base, {}, ch)
    || Min(CutSum(base, ch), U128_MAX) * BURN_PERCENT > U128_MAX
  }

  function ReportOf(total: u128, affected: nat): SlashReport {
    var burned, toReporter := total * BURN_PERCENT / 100, total * REPORTER_PERCENT / 100;
    SlashReport(total, burned, toReporter, total - burned - toReporter, affected)
  }

  // ----- Where it is written -----

  /** Committed positions written back with their cut taken off, over the live ones. */
  function Lowered(committed: Stakes, stakes: Stakes, cuts: map<StakeKey, nat>): Stakes {
    map k | k in stakes.Keys + cuts.Keys && (k in cuts ==> k in committed && committed[k].amount > cuts[k]) ::
      if k in cuts then committed[k].(amount := committed[k].amount - cuts[k]) else stakes[k]
  }

  type Pending = map<UnbondKey, UnbondingEntry>

  function Trimmed(committed: Pending, unbondings: Pending, cuts: map<UnbondKey, nat>): Pending {
    map k | k in unbondings.Keys + cuts.Keys && (k in cuts ==> k in committed && committed[k].amount >= cuts[k]) ::
      if k in cuts then committed[k].(amount := committed[k].amount - cuts[k]) else unbondings[k]
  }

  function SlashPaid(accounts: Accounts, r: SlashReport, reporter: Address, treasury: Address): Accounts {
    CreditIfPositive(CreditIfPositive(accounts, reporter, r.toReporter), treasury, r.toTreasury)
  }

  ghost function SlashReportOf(base: Columns, ch: Charge): SlashReport {
    ReportOf(Min(CutSum(base, ch), U128_MAX), |StakeCuts(base, ch)| + |UnbondingCuts(base, ch)|)
  }

  ghost function CutBook(base: Columns, book: StakeBook, ch: Charge): StakeBook {
    StakeBook(
      book.accounts,
      Lowered(base.stakes, book.stakes, StakeCuts(base, ch)),
      Trimmed(base.unbondings, book.unbondings, UnbondingCuts(base, ch)),
      book.nextUnbondId)
  }

  /** The stake book after a slash; `None` on overflow. */
  ghost function Slashed(base: Columns, book: StakeBook, ch: Charge, reporter: Address, treasury: Address)
    : Option<StakeBook>
  {
    if SlashOverflows(base, ch) then None
    else
      Some(CutBook(base, book, ch).(
        accounts := SlashPaid(book.accounts, SlashReportOf(base, ch), reporter, treasury)))
  }

  // ----- The procedure -----

  lemma LowerOne(committed: Stakes, stakes: Stakes, cuts: map<StakeKey, nat>, k: StakeKey, c: nat)
    requires k in committed && c <= committed[k].amount && k !in cuts
    ensures Lowered(committed, stakes, cuts[k := c]) ==
      PutStake(Lowered(committed, stakes, cuts), k, committed[k].(amount := committed[k].amount - c))
  {
  }

  lemma TrimOne(committed: Pending, unbondings: Pending, cuts: map<UnbondKey, nat>, k: UnbondKey, c: nat)
    requires k in committed && c <= committed[k].amount && k !in cuts
    ensures Trimmed(committed, unbondings, cuts[k := c]) ==
      Trimmed(committed, unbondings, cuts)[k := committed[k].(amount := committed[k].amount - c)]
  {
  }

  lemma StakeCutsOneMore(base: Columns, rest: set<StakeKey>, ch: Charge, k: StakeKey)
    requires k in rest && k in base.stakes
    ensures var c := Cut(base.stakes[k].amount, ch.offense);
      StakeCutsOutside(base, rest - {k}, ch) ==
        if Loses(base, k, ch) then StakeCutsOutside(base, rest, ch)[k := c]
        else StakeCutsOutside(base, rest, ch)
    ensures k !in StakeCutsOutside(base, rest, ch)
  {
    hide Loses, IsTrimmed, Cut, Product;
  }

  lemma UnbondingCutsOneMore(base: Columns, rest: set<UnbondKey>, ch: Charge, k: UnbondKey)
    requires k in rest && k in base.unbondings
    ensures var c := Cut(base.unbondings[k].amount, ch.offense);
      UnbondingCutsOutside(base, rest - {k}, ch) ==
        if IsTrimmed(base, k, ch) then UnbondingCutsOutside(base, rest, ch)[k := c]
        else UnbondingCutsOutside(base, rest, ch)
    ensures k !in UnbondingCutsOutside(base, rest, ch)
  {
    hide Loses, IsTrimmed, Cut, Product;
  }

  lemma LoweredNone(committed: Stakes, stakes: Stakes)
    ensures Lowered(committed, stakes, map[]) == stakes
  {
  }

  lemma TrimmedNone(committed: Pending, unbondings: Pending)
    ensures Trimmed(committed, unbondings, map[]) == unbondings
  {
  }

  /** Sum and size of a map of cuts grown by one. */
  lemma CountOne<K(!new)>(cuts: map<K, nat>, k: K, c: nat)
    requires k !in cuts
    ensures Sum(cuts[k := c], Whole) == Sum(cuts, Whole) + c && |cuts[k := c]| == |cuts| + 1
  {
    SumUpdate(cuts, Whole, k, c);
    assert cuts[k := c].Keys == cuts.Keys + {k};
    assert |cuts| == |cuts.Keys| && |cuts[k := c]| == |cuts[k := c].Keys|;
  }

  /** The cuts taken so far, everything in `rest` still to be looked at. */
  ghost predicate CutSoFar(base: Columns, before: Columns, live: Columns, rest: set<StakeKey>, ch: Charge,
    total: u128, affected: nat)
  {
    var cuts := StakeCutsOutside(base, rest, ch);
    && !StakeOverflows(base, rest, ch)
    && total == Min(Sum(cuts, Whole), U128_MAX) && affected == |cuts|
    && live == before.(stakes := Lowered(base.stakes, before.stakes, cuts))
  }

  lemma NothingCut(base: Columns, before: Columns, ch: Charge)
    ensures CutSoFar(base, before, before, base.stakes.Keys, ch, 0, 0)
  {
    hide Loses, IsTrimmed, Cut, Product;
    assert StakeCutsOutside(base, base.stakes.Keys, ch) == map[];
    LoweredNone(base.stakes, before.stakes);
  }

  lemma OverflowNext(base: Columns, rest: set<StakeKey>, ch: Charge, k: StakeKey)
    requires !StakeOverflows(base, rest, ch) && k in rest && k in base.stakes
    requires Targets(k, ch) ==> Product(base.stakes[k].amount, ch.offense) <= U128_MAX
    ensures !StakeOverflows(base, rest - {k}, ch)
  {
    hide Product;
  }

  lemma CutSkips(base: Columns, before: Columns, live: Columns, rest: set<StakeKey>, ch: Charge,
    total: u128, affected: nat, k: StakeKey)
    requires CutSoFar(base, before, live, rest, ch, total, affected)
    requires k in rest && k in base.stakes && !Loses(base, k, ch)
    requires Targets(k, ch) ==> Product(base.stakes[k].amount, ch.offense) <= U128_MAX
    ensures CutSoFar(base, before, live, rest - {k}, ch, total, affected)
  {
    hide Loses, StakeCutsOutside, Lowered, Cut, PutStake, Product, StakeOverflows, Sum, Targets;
    OverflowNext(base, rest, ch, k);
    StakeCutsOneMore(base, rest, ch, k);
  }

  lemma OneStakeColumn(before: Columns, live: Columns, u: Stakes, v: Stakes)
    requires live == before.(stakes := u)
    ensures live.(stakes := v) == before.(stakes := v) && live.stakes == u
  {
  }

  lemma CutTakes(base: Columns, before: Columns, live: Columns, rest: set<StakeKey>, ch: Charge, total: u128,
      affected: nat,
    k: StakeKey, e: StakeEntry, c: nat)
    requires CutSoFar(base, before, live, rest, ch, total, affected)
    requires k in rest && k in base.stakes && Loses(base, k, ch) && e == base.stakes[k]
    requires c == Cut(e.amount, ch.offense) && Product(e.amount, ch.offense) <= U128_MAX
    ensures CutSoFar(base, before, live.(stakes := PutStake(live.stakes, k, e.(amount := e.amount - c))), rest - {k},
      ch,
      SatAdd128(total, c), affected + 1)
  {
    var cuts := StakeCutsOutside(base, rest, ch);
    hide Loses, StakeCutsOutside, Lowered, Cut, PutStake, Product, StakeOverflows, Sum, Targets;
    OverflowNext(base, rest, ch, k);
    StakeCutsOneMore(base, rest, ch, k);
    LowerOne(base.stakes, before.stakes, cuts, k, c);
    CountOne(cuts, k, c);
    OneStakeColumn(before, live, Lowered(base.stakes, before.stakes, cuts),
      PutStake(live.stakes, k, e.(amount := e.amount - c)));
  }

  lemma OverflowStays(base: Columns, ch: Charge, k: StakeKey)
    requires k in base.stakes && Targets(k, ch) && Product(base.stakes[k].amount, ch.offense) > U128_MAX
    ensures StakeOverflows(base, {}, ch)
  {
  }

  method CutOne(ctx: BlockCtx, ch: Charge, k: StakeKey, total: u128, affected: nat,
    ghost before: Columns, ghost rest: set<StakeKey>) returns (total': u128, affected': nat, overflow: bool)
    requires ctx.Valid() && k in rest && k in ctx.state.db.stakes
    requires CutSoFar(ctx.state.db, before, ctx.live, rest, ch, total, affected)
    modifies ctx
    ensures ctx.Valid()
    ensures if overflow then StakeOverflows(ctx.state.db, {}, ch)
      else CutSoFar(ctx.state.db, before, ctx.live, rest - {k}, ch, total', affected')
  {
    hide CutSoFar, StakeOverflows, Product, Cut, PutStake;
    ghost var base := ctx.state.db;
    var entry := ctx.state.db.stakes[k];
    total', affected', overflow := total, affected, Targets(k, ch) && Product(entry.amount, ch.offense) > U128_MAX;
    if overflow {
      OverflowStays(base, ch, k);
    } else {
      var slash: nat := Cut(entry.amount, ch.offense);
      if !(Targets(k, ch) && slash > 0) {
        CutSkips(base, before, ctx.live, rest, ch, total, affected, k);
      } else {
        CutTakes(base, before, ctx.live, rest, ch, total, affected, k, entry, slash);
        ctx.SetStake(k, entry.(amount := entry.amount - slash));
        total', affected' := SatAdd128(total, slash), affected + 1;
      }
    }
  }

  lemma CutEnds(base: Columns, before: Columns, live: Columns, ch: Charge, total: u128, affected: nat)
    requires CutSoFar(base, before, live, {}, ch, total, affected)
    ensures !StakeOverflows(base, {}, ch)
    ensures total == Min(Sum(StakeCuts(base, ch), Whole), U128_MAX) && affected == |StakeCuts(base, ch)|
    ensures live == before.(stakes := Lowered(base.stakes, before.stakes, StakeCuts(base, ch)))
  {
    hide Loses, IsTrimmed, Cut, Product;
  }

  method CutStakes(ctx: BlockCtx, ch: Charge) returns (total: u128, affected: nat, overflow: bool)
    requires ctx.Valid()
    modifies ctx
    ensures ctx.Valid() && overflow == StakeOverflows(ctx.state.db, {}, ch)
    ensures !overflow ==> CutSoFar(ctx.state.db, old(ctx.live), ctx.live, {}, ch, total, affected)
  {
    ghost var base, before := ctx.state.db, ctx.live;
    var stakes := ctx.state.db.stakes;
    NothingCut(base, before, ch);
    total, affected, overflow := 0, 0, false;
    var rest := stakes.Keys;
    hide CutSoFar, StakeOverflows;
    while rest != {} && !overflow
      invariant ctx.Valid() && rest <= stakes.Keys
      invariant if overflow then StakeOverflows(base, {}, ch)
        else CutSoFar(base, before, ctx.live, rest, ch, total, affected)
      decreases |rest|
    {
      var k :| k in rest;
      total, affected, overflow := CutOne(ctx, ch, k, total, affected, before, rest);
      rest := rest - {k};
    }
    if !overflow {
      CutEnds(base, before, ctx.live, ch, total, affected);
    }
  }

  ghost predicate TrimmedSoFar(base: Columns, before: Columns, live: Columns, rest: set<UnbondKey>, ch: Charge,
      total0: u128, affected0: nat, total: u128, affected: nat)
  {
    var cuts := UnbondingCutsOutside(base, rest, ch);
    && !UnbondingOverflows(base, rest, ch)
    && total == Min(total0 + Sum(cuts, Whole), U128_MAX) && affected == affected0 + |cuts|
    && live == before.(unbondings := Trimmed(base.unbondings, before.unbondings, cuts))
  }

  lemma NothingTrimmed(base: Columns, before: Columns, ch: Charge, total0: u128, affected0: nat)
    ensures TrimmedSoFar(base, before, before, base.unbondings.Keys, ch, total0, affected0, total0, affected0)
  {
    hide Loses, IsTrimmed, Cut, Product;
    assert UnbondingCutsOutside(base, base.unbondings.Keys, ch) == map[];
    TrimmedNone(base.unbondings, before.unbondings);
  }

  lemma OneColumn(before: Columns, live: Columns, u: Pending, v: Pending)
    requires live == before.(unbondings := u)
    ensures live.(unbondings := v) == before.(unbondings := v) && live.unbondings == u
  {
  }

  lemma TrimOverflowNext(base: Columns, rest: set<UnbondKey>, ch: Charge, k: UnbondKey)
    requires !UnbondingOverflows(base, rest, ch) && k in rest && k in base.unbondings
    requires Trims(base, k, ch) ==> Product(base.unbondings[k].amount, ch.offense) <= U128_MAX
    ensures !UnbondingOverflows(base, rest - {k}, ch)
  {
    hide Product;
  }

  lemma TrimSkips(base: Columns, before: Columns, live: Columns, rest: set<UnbondKey>, ch: Charge, total0: u128,
      affected0: nat, total: u128, affected: nat, k: UnbondKey)
    requires TrimmedSoFar(base, before, live, rest, ch, total0, affected0, total, affected)
    requires k in rest && k in base.unbondings && !IsTrimmed(base, k, ch)
    requires Trims(base, k, ch) ==> Product(base.unbondings[k].amount, ch.offense) <= U128_MAX
    ensures TrimmedSoFar(base, before, live, rest - {k}, ch, total0, affected0, total, affected)
  {
    hide IsTrimmed, UnbondingCutsOutside, Trimmed, Cut, Product, UnbondingOverflows, Sum, Trims;
    TrimOverflowNext(base, rest, ch, k);
    UnbondingCutsOneMore(base, rest, ch, k);
  }

  lemma TrimTakes(base: Columns, before: Columns, live: Columns, rest: set<UnbondKey>, ch: Charge, total0: u128,
      affected0: nat,
    total: u128, affected: nat, k: UnbondKey, e: UnbondingEntry, c: nat)
    requires TrimmedSoFar(base, before, live, rest, ch, total0, affected0, total, affected)
    requires k in rest && k in base.unbondings && IsTrimmed(base, k, ch) && e == base.unbondings[k]
    requires c == Cut(e.amount, ch.offense) && Product(e.amount, ch.offense) <= U128_MAX
    ensures TrimmedSoFar(base, before, live.(unbondings := live.unbondings[k := e.(amount := e.amount - c)]),
      rest - {k}, ch,
      total0, affected0, SatAdd128(total, c), affected + 1)
  {
    var cuts := UnbondingCutsOutside(base, rest, ch);
    hide IsTrimmed, UnbondingCutsOutside, Trimmed, Cut, Product, UnbondingOverflows, Sum, Trims;
    TrimOverflowNext(base, rest, ch, k);
    UnbondingCutsOneMore(base, rest, ch, k);
    TrimOne(base.unbondings, before.unbondings, cuts, k, c);
    CountOne(cuts, k, c);
    OneColumn(before, live, Trimmed(base.unbondings, before.unbondings, cuts),
      live.unbondings[k := e.(amount := e.amount - c)]);
  }

  lemma TrimOverflowStays(base: Columns, ch: Charge, k: UnbondKey)
    requires k in base.unbondings && Trims(base, k, ch) && Product(base.unbondings[k].amount, ch.offense) > U128_MAX
    ensures UnbondingOverflows(base, {}, ch)
  {
  }

  method TrimOneEntry(ctx: BlockCtx, ch: Charge, k: UnbondKey, total: u128, affected: nat,
    ghost before: Columns, ghost rest: set<UnbondKey>, ghost total0: u128, ghost affected0: nat)
    returns (total': u128, affected': nat, overflow: bool)
    requires ctx.Valid() && k in rest && k in ctx.state.db.unbondings
    requires TrimmedSoFar(ctx.state.db, before, ctx.live, rest, ch, total0, affected0, total, affected)
    modifies ctx
    ensures ctx.Valid()
    ensures if overflow then UnbondingOverflows(ctx.state.db, {}, ch)
      else TrimmedSoFar(ctx.state.db, before, ctx.live, rest - {k}, ch, total0, affected0, total', affected')
  {
    hide TrimmedSoFar, UnbondingOverflows, Product, Cut;
    ghost var base := ctx.state.db;
    var entry := ctx.state.db.unbondings[k];
    var trims := k.node == ch.node && entry.role == ch.role && entry.completesAt > ctx.state.db.height;
    total', affected', overflow := total, affected, trims && Product(entry.amount, ch.offense) > U128_MAX;
    if overflow {
      TrimOverflowStays(base, ch, k);
    } else {
      var slash: nat := Cut(entry.amount, ch.offense);
      if !(trims && slash > 0) {
        TrimSkips(base, before, ctx.live, rest, ch, total0, affected0, total, affected, k);
      } else {
        TrimTakes(base, before, ctx.live, rest, ch, total0, affected0, total, affected, k, entry, slash);
        ctx.SetUnbonding(k, entry.(amount := entry.amount - slash));
        total', affected' := SatAdd128(total, slash), affected + 1;
      }
    }
  }

  lemma TrimEnds(base: Columns, before: Columns, live: Columns, ch: Charge,
    total0: u128, affected0: nat, total: u128, affected: nat)
    requires TrimmedSoFar(base, before, live, {}, ch, total0, affected0, total, affected)
    ensures !UnbondingOverflows(base, {}, ch)
    ensures total == Min(total0 + Sum(UnbondingCuts(base, ch), Whole), U128_MAX)
    ensures affected == affected0 + |UnbondingCuts(base, ch)|
    ensures live == before.(unbondings := Trimmed(base.unbondings, before.unbondings, UnbondingCuts(base, ch)))
  {
    hide Loses, IsTrimmed, Cut, Product;
  }

  method TrimUnbondings(ctx: BlockCtx, ch: Charge, total0: u128, affected0: nat)
    returns (total: u128, affected: nat, overflow: bool)
    requires ctx.Valid()
    modifies ctx
    ensures ctx.Valid() && overflow == UnbondingOverflows(ctx.state.db, {}, ch)
    ensures !overflow ==>
      TrimmedSoFar(ctx.state.db, old(ctx.live), ctx.live, {}, ch, total0, affected0, total, affected)
  {
    ghost var base, before := ctx.state.db, ctx.live;
    var unbondings := ctx.state.db.unbondings;
    NothingTrimmed(base, before, ch, total0, affected0);
    total, affected, overflow := total0, affected0, false;
    var rest := unbondings.Keys;
    hide TrimmedSoFar, UnbondingOverflows;
    while rest != {} && !overflow
      invariant ctx.Valid() && rest <= unbondings.Keys
      invariant if overflow then UnbondingOverflows(base, {}, ch)
        else TrimmedSoFar(base, before, ctx.live, rest, ch, total0, affected0, total, affected)
      decreases |rest|
    {
      var k :| k in rest;
      total, affected, overflow := TrimOneEntry(ctx, ch, k, total, affected, before, rest, total0, affected0);
      rest := rest - {k};
    }
    if !overflow {
      TrimEnds(base, before, ctx.live, ch, total0, affected0, total, affected);
    }
  }

  lemma PaidBook(base: Columns, c: Columns, ch: Charge, accounts: Accounts)
    ensures var b := CutBook(base, StakesOf(c), ch);
      && StakesOf(c).accounts == WithStakes(c, b).accounts == c.accounts
      && WithStakes(c, b).(accounts := accounts) == WithStakes(c, b.(accounts := accounts))
  {
    hide Lowered, Trimmed, StakeCuts, UnbondingCuts;
  }

  method Reward(ctx: BlockCtx, report: SlashReport, reporter: Address, treasury: Address)
    requires ctx.Valid()
    modifies ctx
    ensures ctx.Valid()
    ensures ctx.live == old(ctx.live).(accounts := SlashPaid(old(ctx.live).accounts, report, reporter, treasury))
  {
    ctx.CreditLine(reporter, report.toReporter);
    ctx.CreditLine(treasury, report.toTreasury);
  }

  method TakeCuts(ctx: BlockCtx, ch: Charge) returns (total: u128, affected: nat, overflow: bool)
    requires ctx.Valid()
    modifies ctx
    ensures ctx.Valid()
    ensures var base := ctx.state.db;
      && overflow == (StakeOverflows(base, {}, ch) || UnbondingOverflows(base, {}, ch))
      && (!overflow ==>
           && total == Min(CutSum(base, ch), U128_MAX)
           && affected == |StakeCuts(base, ch)| + |UnbondingCuts(base, ch)|
           && ctx.live == WithStakes(old(ctx.live), CutBook(base, StakesOf(old(ctx.live)), ch)))
  {
    hide StakeOverflows, UnbondingOverflows, CutSoFar, TrimmedSoFar, StakeCuts, UnbondingCuts, Lowered, Trimmed, Sum;
    ghost var base, before := ctx.state.db, ctx.live;
    total, affected, overflow := CutStakes(ctx, ch);
    if !overflow {
      CutEnds(base, before, ctx.live, ch, total, affected);
      ghost var between, cut, count := ctx.live, total, affected;
      total, affected, overflow := TrimUnbondings(ctx, ch, total, affected);
      if !overflow {
        TrimEnds(base, between, ctx.live, ch, cut, count, total, affected);
      }
    }
  }

  /** Slashes a node for an offence, whatever the block has done to its stakes before. */
  method ApplySlash(ctx: BlockCtx, ch: Charge, reporter: Address, treasury: Address)
    returns (report: SlashReport, overflow: bool)
    requires ctx.Valid()
    modifies ctx
    ensures ctx.Valid()
    ensures var expected := Slashed(ctx.state.db, StakesOf(old(ctx.live)), ch, reporter, treasury);
      && overflow == expected.None?
      && (!overflow ==>
            && report == SlashReportOf(ctx.state.db, ch)
            && ctx.live == WithStakes(old(ctx.live), expected.value))
  {
    hide StakeOverflows, UnbondingOverflows, CutSum, CutBook, SlashPaid, WithStakes, StakesOf, StakeCuts, UnbondingCuts;
    PaidBook(ctx.state.db, ctx.live, ch,
      SlashPaid(ctx.live.accounts, SlashReportOf(ctx.state.db, ch), reporter, treasury));
    report := ReportOf(0, 0);
    var total, affected;
    total, affected, overflow := TakeCuts(ctx, ch);
    if !overflow {
      overflow := total * BURN_PERCENT > U128_MAX;
    }
    if !overflow {
      report := ReportOf(total, affected);
      Reward(ctx, report, reporter, treasury);
    }
  }
}
