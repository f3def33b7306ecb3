/**
 Proposal lifecycles: the tally, its thresholds, and the epoch-boundary pass that opens
 voting, resolves proposals and returns deposits.
 */
module Governance {
  import opened Numeric
  import opened Division
  import opened MapSums
  import opened Types
  import opened LedgerSpec
  import opened Store
  import opened KeyOrder

  const QUORUM_BPS: u128 := 5_000
  const APPROVAL_THRESHOLD_BPS: u128 := 6_600
  const VETO_THRESHOLD_BPS: u128 := 3_300

  // ----- Tally -----

  datatype Tally = Tally(yes: u128, no: u128, abstain: u128, noWithVeto: u128) {

    function Total(): u128 {
      SatAdd128(SatAdd128(SatAdd128(yes, no), abstain), noWithVeto)
    }

    function NonAbstain(): u128 {
      SatAdd128(SatAdd128(yes, no), noWithVeto)
    }

    function AddVote(choice: VoteChoice, stake: u128): Tally {
      match choice
      case Yes => this.(yes := SatAdd128(yes, stake))
      case No => this.(no := SatAdd128(no, stake))
      case Abstain => this.(abstain := SatAdd128(abstain, stake))
      case NoWithVeto => this.(noWithVeto := SatAdd128(noWithVeto, stake))
    }
  }

  /** The phase a tally resolves to; `Overflow` aborts the process. */
  datatype Verdict = Resolved(phase: ProposalPhase) | Overflow

  function Evaluate(t: Tally, bonded: u128): Verdict {
    var total, nonAbstain := t.Total(), t.NonAbstain();
    if bonded == 0 || total == 0 then Resolved(Rejected)
    else if total * 10_000 > U128_MAX then Overflow
    else if total * 10_000 / bonded < QUORUM_BPS then Resolved(Rejected)
    else if t.noWithVeto * 10_000 / total >= VETO_THRESHOLD_BPS then Resolved(RejectedWithVeto)
    else if nonAbstain == 0 then Resolved(Rejected)
    else if t.yes * 10_000 / nonAbstain >= APPROVAL_THRESHOLD_BPS then Resolved(Passed)
    else Resolved(Rejected)
  }

  lemma RatioAtLeast(part: nat, whole: nat, bps: nat)
    requires whole > 0
    ensures part * 10_000 / whole >= bps <==> part * 10_000 >= bps * whole
  {
    if part * 10_000 >= bps * whole {
      DivGe(part * 10_000, bps, whole);
    } else if part * 10_000 / whole >= bps {
      MulMono(whole, bps, part * 10_000 / whole);
    }
  }

  /** The verdict without divisions: half of the bonded stake must vote, a third of the
      votes (33%) vetoes, 66% of the non-abstaining votes passes. Every bound is inclusive. */
  lemma EvaluateExactly(t: Tally, bonded: u128)
    requires t.Total() * 10_000 <= U128_MAX
    ensures var total, quorum := t.Total(), bonded > 0 && t.Total() > 0 && 2 * t.Total() >= bonded;
      var vetoed := 100 * t.noWithVeto >= 33 * total;
      && Evaluate(t, bonded).Resolved?
      && (Evaluate(t, bonded).phase == RejectedWithVeto <==> quorum && vetoed)
      && (Evaluate(t, bonded).phase == Passed <==>
          quorum && !vetoed && t.NonAbstain() > 0 && 100 * t.yes >= 66 * t.NonAbstain())
      && Evaluate(t, bonded).phase in {Passed, Rejected, RejectedWithVeto}
  {
    if bonded > 0 && t.Total() > 0 {
      RatioAtLeast(t.Total(), bonded, QUORUM_BPS);
      RatioAtLeast(t.noWithVeto, t.Total(), VETO_THRESHOLD_BPS);
      if t.NonAbstain() > 0 {
        RatioAtLeast(t.yes, t.NonAbstain(), APPROVAL_THRESHOLD_BPS);
      }
    }
  }

  /** The only product that can overflow is the first. */
  lemma OnlyTotalOverflows(t: Tally)
    requires t.Total() * 10_000 <= U128_MAX
    ensures t.noWithVeto * 10_000 <= U128_MAX && t.yes * 10_000 <= U128_MAX
  {
  }

  method EvaluateTally(t: Tally, bonded: u128) returns (v: Verdict)
    ensures v == Evaluate(t, bonded)
  {
    if bonded == 0 || t.Total() == 0 {
      return Resolved(Rejected);
    }
    if t.Total() * 10_000 > U128_MAX {
      return Overflow;
    }
    var scaled: u128 := t.Total() * 10_000;
    if scaled / bonded < QUORUM_BPS {
      return Resolved(Rejected);
    }
    OnlyTotalOverflows(t);
    var vetoScaled: u128 := t.noWithVeto * 10_000;
    if vetoScaled / t.Total() >= VETO_THRESHOLD_BPS {
      return Resolved(RejectedWithVeto);
    }
    if t.NonAbstain() == 0 {
      return Resolved(Rejected);
    }
    var yesScaled: u128 := t.yes * 10_000;
    v := if yesScaled / t.NonAbstain() >= APPROVAL_THRESHOLD_BPS then Resolved(Passed) else Resolved(Rejected);
  }

  // ----- Counting the votes -----

  type Votes = map<VoteKey, VoteChoice>

  function Weight(w: u128): nat {
    w
  }

  /** Each voter on proposal `id` with choice `c`, weighed by its balance, among `keys`. */
  ghost function Ballots(votes: Votes, keys: set<VoteKey>, id: u64, c: VoteChoice, accounts: Accounts)
    : map<VoteKey, u128>
  {
    map k | k in keys && k in votes && k.proposal == id && votes[k] == c :: AccountAt(accounts, k.voter).balance
  }

  ghost function Bucket(votes: Votes, keys: set<VoteKey>, id: u64, c: VoteChoice, accounts: Accounts): u128 {
    Min(Sum(Ballots(votes, keys, id, c, accounts), Weight), U128_MAX)
  }

  /** The tally of a proposal: every committed vote counted once, whatever the order. */
  ghost function TallyOver(votes: Votes, keys: set<VoteKey>, id: u64, accounts: Accounts): Tally {
    Tally(
      Bucket(votes, keys, id, Yes, accounts), Bucket(votes, keys, id, No, accounts),
      Bucket(votes, keys, id, Abstain, accounts), Bucket(votes, keys, id, NoWithVeto, accounts))
  }

  ghost function TallyOf(votes: Votes, id: u64, accounts: Accounts): Tally {
    TallyOver(votes, votes.Keys, id, accounts)
  }

  /** The balances, added up and clamped, of those whose vote on the proposal is `c`. */
  ghost function VotedFor(votes: Votes, id: u64, c: VoteChoice, accounts: Accounts): u128 {
    Min(Sum(map k | k in votes && k.proposal == id && votes[k] == c :: AccountAt(accounts, k.voter).balance, Weight),
      U128_MAX)
  }

  /** Each field of a tally counts the votes of its own choice. */
  ghost predicate Counts(t: Tally, votes: Votes, id: u64, accounts: Accounts) {
    && t.yes == VotedFor(votes, id, Yes, accounts) && t.no == VotedFor(votes, id, No, accounts)
    && t.abstain == VotedFor(votes, id, Abstain, accounts)
    && t.noWithVeto == VotedFor(votes, id, NoWithVeto, accounts)
  }

  lemma BucketCounts(votes: Votes, id: u64, c: VoteChoice, accounts: Accounts)
    ensures Bucket(votes, votes.Keys, id, c, accounts) == VotedFor(votes, id, c, accounts)
  {
    assert Ballots(votes, votes.Keys, id, c, accounts) ==
      map k | k in votes && k.proposal == id && votes[k] == c :: AccountAt(accounts, k.voter).balance;
  }

  lemma TallyCounts(votes: Votes, id: u64, accounts: Accounts)
    ensures Counts(TallyOf(votes, id, accounts), votes, id, accounts)
  {
    hide Bucket, VotedFor;
    BucketCounts(votes, id, Yes, accounts);
    BucketCounts(votes, id, No, accounts);
    BucketCounts(votes, id, Abstain, accounts);
    BucketCounts(votes, id, NoWithVeto, accounts);
  }

  lemma BucketStep(votes: Votes, keys: set<VoteKey>, id: u64, c: VoteChoice, accounts: Accounts, k: VoteKey)
    requires k in votes && k !in keys && k.proposal == id
    ensures Bucket(votes, keys + {k}, id, c, accounts) ==
      if votes[k] == c then SatAdd128(Bucket(votes, keys, id, c, accounts), AccountAt(accounts, k.voter).balance)
      else Bucket(votes, keys, id, c, accounts)
  {
    var before, after := Ballots(votes, keys, id, c, accounts), Ballots(votes, keys + {k}, id, c, accounts);
    if votes[k] == c {
      var w := AccountAt(accounts, k.voter).balance;
      assert after == before[k := w];
      SumUpdate(before, Weight, k, w);
    } else {
      assert after == before;
    }
  }

  lemma TallyStep(votes: Votes, keys: set<VoteKey>, id: u64, accounts: Accounts, k: VoteKey)
    requires k in votes && k !in keys && k.proposal == id
    ensures TallyOver(votes, keys + {k}, id, accounts) ==
      TallyOver(votes, keys, id, accounts).AddVote(votes[k], AccountAt(accounts, k.voter).balance)
  {
    BucketStep(votes, keys, id, Yes, accounts, k);
    BucketStep(votes, keys, id, No, accounts, k);
    BucketStep(votes, keys, id, Abstain, accounts, k);
    BucketStep(votes, keys, id, NoWithVeto, accounts, k);
  }

  lemma TallyIgnoresOthers(votes: Votes, id: u64, accounts: Accounts, mine: set<VoteKey>)
    requires mine == set k | k in votes && k.proposal == id
    ensures TallyOver(votes, mine, id, accounts) == TallyOf(votes, id, accounts)
  {
    assert forall c :: Ballots(votes, mine, id, c, accounts) == Ballots(votes, votes.Keys, id, c, accounts);
  }

  lemma NoBallots(votes: Votes, id: u64, accounts: Accounts)
    ensures TallyOver(votes, {}, id, accounts) == Tally(0, 0, 0, 0)
  {
    assert forall c :: Ballots(votes, {}, id, c, accounts) == map[];
  }

  /** Counts the committed votes of a proposal in an arbitrary order. */
  method CountVotes(ctx: BlockCtx, id: u64) returns (tally: Tally)
    requires ctx.Valid()
    ensures tally == TallyOf(ctx.state.db.votes, id, ctx.live.accounts)
    ensures Counts(tally, ctx.state.db.votes, id, ctx.live.accounts)
  {
    hide Counts;
    var votes := ctx.state.db.votes;
    ghost var accounts := ctx.live.accounts;
    var mine := set k | k in votes && k.proposal == id;
    var rest := mine;
    tally := Tally(0, 0, 0, 0);
    NoBallots(votes, id, accounts);
    assert mine - rest == {};
    while rest != {}
      invariant rest <= mine
      invariant tally == TallyOver(votes, mine - rest, id, accounts)
      decreases |rest|
    {
      var k :| k in rest;
      var weight := ctx.GetAccount(k.voter).GetOr(ZERO_ACCOUNT).balance;
      TallyStep(votes, mine - rest, id, accounts, k);
      assert mine - (rest - {k}) == (mine - rest) + {k};
      tally := tally.AddVote(votes[k], weight);
      rest := rest - {k};
    }
    assert mine - rest == mine;
    TallyIgnoresOthers(votes, id, accounts, mine);
    TallyCounts(votes, id, accounts);
  }

  // ----- The epoch pass -----

  function Staked(e: StakeEntry): nat {
    e.amount
  }

  /** Bonded stake, saturating. */
  ghost function TotalBonded(stakes: Stakes): u128 {
    Min(Sum(stakes, Staked), U128_MAX)
  }

  method TotalBondedStake(s: State) returns (total: u128)
    ensures total == TotalBonded(s.db.stakes)
  {
    var stakes := s.db.stakes;
    var rest := stakes.Keys;
    total := 0;
    ghost var seen: Stakes := map[];
    while rest != {}
      invariant rest <= stakes.Keys
      invariant seen == map k | k in stakes && k !in rest :: stakes[k]
      invariant total == TotalBonded(seen)
      decreases |rest|
    {
      var k :| k in rest;
      SumUpdate(seen, Staked, k, stakes[k]);
      total := SatAdd128(total, stakes[k].amount);
      seen := seen[k := stakes[k]];
      rest := rest - {k};
    }
    assert seen == stakes;
  }

  datatype Resolution = Kept | Moved(record: ProposalRecord, refund: bool) | TallyOverflow

  predicate Terminal(p: ProposalPhase) {
    p in {Passed, Rejected, RejectedWithVeto, Executed}
  }

  /** What the pass decides about one committed proposal, votes weighed by `accounts`. */
  ghost function Resolve(votes: Votes, bonded: u128, accounts: Accounts, id: u64, record: ProposalRecord,
      now: u64): Resolution {
    if record.phase == Discussion then
      if now >= record.proposal.discussionEnds then Moved(record.(phase := Voting), false) else Kept
    else if record.phase == Voting && now >= record.proposal.votingEnds then
      match Evaluate(TallyOf(votes, id, accounts), bonded)
      case Resolved(phase) => Moved(record.(phase := phase), phase != RejectedWithVeto)
      case Overflow => TallyOverflow
    else Kept
  }

  ghost function AdvanceOne(base: Columns, book: GovBook, id: u64, now: u64): Option<GovBook>
    requires id in base.proposals
  {
    match Resolve(base.votes, TotalBonded(base.stakes), book.accounts, id, base.proposals[id], now)
    case Kept => Some(book)
    case Moved(record, refund) =>
      Some(book.(
        accounts := if refund then CreditIfPositive(book.accounts, record.proposal.proposer, record.proposal.deposit)
                    else book.accounts,
        proposals := book.proposals[id := record]))
    case TallyOverflow => None
  }

  /** The pass over the committed proposals `ids`; `None` on overflow. */
  ghost function Advance(base: Columns, book: GovBook, ids: seq<u64>, now: u64): Option<GovBook>
    requires forall id :: id in ids ==> id in base.proposals
    decreases |ids|
  {
    if ids == [] then Some(book)
    else
      var before := Advance(base, book, ids[..|ids| - 1], now);
      if before.None? then None
      else AdvanceOne(base, before.value, ids[|ids| - 1], now)
  }

  lemma AdvanceNone(base: Columns, book: GovBook, now: u64)
    ensures Advance(base, book, [], now) == Some(book)
  {
  }

  lemma AdvanceSnoc(base: Columns, book: GovBook, ids: seq<u64>, id: u64, now: u64)
    requires (forall i :: i in ids ==> i in base.proposals) && id in base.proposals
    ensures var before := Advance(base, book, ids, now);
      Advance(base, book, ids + [id], now) == if before.None? then None else AdvanceOne(base, before.value, id, now)
  {
    assert (ids + [id])[..|ids|] == ids;
  }

  method ReturnDeposit(ctx: BlockCtx, proposer: Address, deposit: u128)
    requires ctx.Valid()
    modifies ctx
    ensures ctx.Valid()
    ensures ctx.live == old(ctx.live).(accounts := CreditIfPositive(old(ctx.live).accounts, proposer, deposit))
  {
    if deposit == 0 {
      return;
    }
    ctx.CreditAccount(proposer, deposit);
  }

  ghost predicate Processed(before: Columns, after: Columns, expected: Option<GovBook>, overflow: bool) {
    overflow == expected.None? && (overflow || after == WithGov(before, expected.value))
  }

  method ResolveProposal(ctx: BlockCtx, id: u64, record: ProposalRecord, bonded: u128,
      now: u64) returns (overflow: bool)
    requires ctx.Valid() && id in ctx.state.db.proposals && bonded == TotalBonded(ctx.state.db.stakes)
    requires record == ctx.state.db.proposals[id] && record.phase == Voting && now >= record.proposal.votingEnds
    modifies ctx
    ensures ctx.Valid()
    ensures Processed(old(ctx.live), ctx.live, AdvanceOne(ctx.state.db, GovOf(old(ctx.live)), id, now), overflow)
  {
    hide BlockCtx.Valid, TotalBonded, TallyOf, Evaluate, CreditIfPositive;
    var tally := CountVotes(ctx, id);
    var outcome := EvaluateTally(tally, bonded);
    if outcome.Overflow? {
      return true;
    }
    if outcome.phase != RejectedWithVeto {
      ReturnDeposit(ctx, record.proposal.proposer, record.proposal.deposit);
    }
    ctx.Put(WriteProposal(id, record.(phase := outcome.phase)));
    overflow := false;
  }

  method ProcessProposal(ctx: BlockCtx, id: u64, bonded: u128, now: u64) returns (overflow: bool)
    requires ctx.Valid() && id in ctx.state.db.proposals && bonded == TotalBonded(ctx.state.db.stakes)
    modifies ctx
    ensures ctx.Valid()
    ensures Processed(old(ctx.live), ctx.live, AdvanceOne(ctx.state.db, GovOf(old(ctx.live)), id, now), overflow)
  {
    var record := ctx.state.db.proposals[id];
    overflow := false;
    match record.phase {
      case Discussion =>
        if now >= record.proposal.discussionEnds {
          ctx.Put(WriteProposal(id, record.(phase := Voting)));
        }
      case Voting =>
        if now >= record.proposal.votingEnds {
          overflow := ResolveProposal(ctx, id, record, bonded, now);
        }
      case _ =>
    }
  }

  lemma GovBookLaws(c: Columns, b: GovBook, b': GovBook)
    ensures WithGov(c, GovOf(c)) == c && GovOf(WithGov(c, b)) == b && WithGov(WithGov(c, b), b') == WithGov(c, b')
    ensures GovOf(WithGov(c, b')) == b'
  {
  }

  lemma {:induction false} AdvanceStuck(base: Columns, book: GovBook, ids: seq<u64>, n: nat, now: u64)
    requires (forall i :: i in ids ==> i in base.proposals) && n <= |ids|
    requires Advance(base, book, ids[..n], now).None?
    ensures Advance(base, book, ids, now).None?
    decreases |ids|
  {
    if n == |ids| {
      assert ids[..n] == ids;
    } else {
      assert ids[..|ids| - 1][..n] == ids[..n];
      AdvanceStuck(base, book, ids[..|ids| - 1], n, now);
    }
  }

  method AdvanceAll(ctx: BlockCtx, ids: seq<u64>, bonded: u128, now: u64) returns (overflow: bool)
    requires ctx.Valid() && (forall id :: id in ids ==> id in ctx.state.db.proposals)
    requires bonded == TotalBonded(ctx.state.db.stakes)
    modifies ctx
    ensures ctx.Valid()
    ensures Processed(old(ctx.live), ctx.live, Advance(ctx.state.db, GovOf(old(ctx.live)), ids, now), overflow)
  {
    hide Advance, AdvanceOne, WithGov;
    AdvanceNone(ctx.state.db, GovOf(ctx.live), now);
    ghost var base, before, start := ctx.state.db, ctx.live, GovOf(ctx.live);
    overflow := false;
    GovBookLaws(before, start, start);
    for i := 0 to |ids|
      invariant ctx.Valid()
      invariant Processed(before, ctx.live, Advance(base, start, ids[..i], now), false)
    {
      ghost var book := Advance(base, start, ids[..i], now).value;
      AdvanceSnoc(base, start, ids[..i], ids[i], now);
      assert ids[..i + 1] == ids[..i] + [ids[i]];
      ghost var next := AdvanceOne(base, book, ids[i], now);
      GovBookLaws(before, book, next.GetOr(book));
      overflow := ProcessProposal(ctx, ids[i], bonded, now);
      if overflow {
        AdvanceStuck(base, start, ids, i + 1, now);
        return;
      }
    }
    assert ids[..|ids|] == ids;
  }

  /** Advances every committed proposal, in key order. */
  method ProcessGovernanceProposals(ctx: BlockCtx, now: u64) returns (overflow: bool)
    requires ctx.Valid()
    modifies ctx
    ensures ctx.Valid()
    ensures Processed(old(ctx.live), ctx.live,
      Advance(ctx.state.db, GovOf(old(ctx.live)), IdsInOrder(ctx.state.db.proposals.Keys), now), overflow)
  {
    var ids := IdsInOrder(ctx.state.db.proposals.Keys);
    if ids == [] {
      GovBookLaws(ctx.live, GovOf(ctx.live), GovOf(ctx.live));
      return false;
    }
    var bonded := TotalBondedStake(ctx.state);
    overflow := AdvanceAll(ctx, ids, bonded, now);
  }
}
