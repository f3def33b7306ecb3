/**
 What the epoch pass makes of each committed proposal, in terms of times, votes and balances:
 when its voting opens, when it is resolved, and how.
 */
module Verdicts {
  import opened Numeric
  import opened MapSums
  import opened Types
  import opened LedgerSpec
  import opened Governance
  import opened KeyOrder
  import Blocks
  import Lifecycle

  /** The verdict on votes of these weights: at least half of what is bonded must have voted; a third
      (33%) of the votes vetoes; two thirds (66%) of those not abstaining pass. */
  function PhaseOf(yes: u128, no: u128, abstain: u128, veto: u128, bonded: u128): ProposalPhase {
    var cast, decided := Min(yes + no + abstain + veto, U128_MAX), Min(yes + no + veto, U128_MAX);
    if bonded == 0 || cast == 0 || 2 * cast < bonded then Rejected
    else if 100 * veto >= 33 * cast then RejectedWithVeto
    else if decided > 0 && 100 * yes >= 66 * decided then Passed
    else Rejected
  }

  lemma TotalsClamp(t: Tally)
    ensures t.Total() == Min(t.yes + t.no + t.abstain + t.noWithVeto, U128_MAX)
    ensures t.NonAbstain() == Min(t.yes + t.no + t.noWithVeto, U128_MAX)
  {
  }

  lemma VerdictIs(t: Tally, bonded: u128)
    requires Evaluate(t, bonded).Resolved?
    ensures Evaluate(t, bonded).phase == PhaseOf(t.yes, t.no, t.abstain, t.noWithVeto, bonded)
  {
    TotalsClamp(t);
    if bonded > 0 && t.Total() > 0 {
      EvaluateExactly(t, bonded);
    }
  }

  /** The stake of the whole chain, clamped. */
  ghost function Bonded(base: Columns): u128 {
    Min(Sum(base.stakes, Staked), U128_MAX)
  }

  /** The phase of a committed proposal after the pass of a boundary at `now`, its votes weighed by `accounts`. */
  ghost function PhaseDue(base: Columns, accounts: Accounts, id: u64, now: u64): ProposalPhase
    requires id in base.proposals
  {
    var r := base.proposals[id];
    match r.phase
    case Discussion => if now >= r.proposal.discussionEnds then Voting else Discussion
    case Voting =>
      if now < r.proposal.votingEnds then Voting
      else PhaseOf(VotedFor(base.votes, id, Yes, accounts), VotedFor(base.votes, id, No, accounts),
        VotedFor(base.votes, id, Abstain, accounts), VotedFor(base.votes, id, NoWithVeto, accounts), Bonded(base))
    case other => other
  }

  lemma OneMoves(base: Columns, book: GovBook, id: u64, now: u64)
    requires id in base.proposals && id in book.proposals && book.proposals[id] == base.proposals[id]
    requires AdvanceOne(base, book, id, now).Some?
    ensures AdvanceOne(base, book, id, now).value.proposals ==
      book.proposals[id := base.proposals[id].(phase := PhaseDue(base, book.accounts, id, now))]
  {
    hide VotedFor, TallyOf, Evaluate, PhaseOf;
    var r, t := base.proposals[id], TallyOf(base.votes, id, book.accounts);
    TallyCounts(base.votes, id, book.accounts);
    if r.phase == Voting && now >= r.proposal.votingEnds {
      VerdictIs(t, TotalBonded(base.stakes));
    } else {
      assert book.proposals[id := r] == book.proposals;
    }
  }

  /** The accounts when the pass comes to its proposal number `i`: earlier deposits are back. */
  ghost function AtTurn(base: Columns, book: GovBook, ids: seq<u64>, i: nat, now: u64): Accounts
    requires i <= |ids| && (forall id :: id in ids[..i] ==> id in base.proposals)
    requires Advance(base, book, ids[..i], now).Some?
  {
    Advance(base, book, ids[..i], now).value.accounts
  }

  lemma {:induction false} PrefixAdvances(base: Columns, book: GovBook, ids: seq<u64>, i: nat, now: u64)
    requires (forall id :: id in ids ==> id in base.proposals) && i <= |ids|
    requires Advance(base, book, ids, now).Some?
    ensures Advance(base, book, ids[..i], now).Some?
  {
    if Advance(base, book, ids[..i], now).None? {
      AdvanceStuck(base, book, ids, i, now);
    }
  }

  /** Every proposal of the pass gets the phase due to it, by the balances of its turn, and keeps the rest of
      its record; the others keep theirs. */
  lemma {:induction false} PassMovesExactly(base: Columns, book: GovBook, ids: seq<u64>, now: u64, i: nat)
    requires (forall id :: id in ids ==> id in base.proposals) && Advance(base, book, ids, now).Some? && i < |ids|
    requires forall j, k :: 0 <= j < k < |ids| ==> ids[j] != ids[k]
    requires forall id :: id in base.proposals ==> id in book.proposals && book.proposals[id] == base.proposals[id]
    ensures Advance(base, book, ids[..i], now).Some? && ids[i] in Advance(base, book, ids, now).value.proposals
    ensures Advance(base, book, ids, now).value.proposals[ids[i]] ==
      base.proposals[ids[i]].(phase := PhaseDue(base, AtTurn(base, book, ids, i, now), ids[i], now))
    decreases |ids|
  {
    hide AdvanceOne, PhaseDue;
    PrefixAdvances(base, book, ids, i, now);
    var n := |ids| - 1;
    var earlier := ids[..n];
    PrefixAdvances(base, book, ids, n, now);
    Lifecycle.AdvanceSteps(base, book, earlier, now);
    var was := Advance(base, book, earlier, now).value;
    assert ids[n] !in earlier;
    OneMoves(base, was, ids[n], now);
    if i < n {
      assert earlier[..i] == ids[..i];
      PassMovesExactly(base, book, earlier, now, i);
    }
  }

  /** So at every epoch boundary, on the proposals committed before the block. */
  lemma BoundaryMovesExactly(base: Columns, live: Columns, header: Blocks.Header, i: nat)
    requires Blocks.IsEpochBoundary(header.height) && Blocks.Rotated(base, live, header).Some?
    requires Lifecycle.Extended(base, live) && i < |IdsInOrder(base.proposals.Keys)|
    ensures var ids, c := IdsInOrder(base.proposals.Keys), Blocks.AfterMint(base, live, header.height);
      var after := Blocks.Rotated(base, live, header).value.proposals;
      && c.Some? && Advance(base, GovOf(c.value), ids[..i], header.timestamp).Some? && ids[i] in after
      && after[ids[i]] == base.proposals[ids[i]].(phase :=
           PhaseDue(base, AtTurn(base, GovOf(c.value), ids, i, header.timestamp), ids[i], header.timestamp))
  {
    Lifecycle.PassStart(base, live, header);
    var c := Blocks.AfterMint(base, live, header.height).value;
    var ids := IdsInOrder(base.proposals.Keys);
    Lifecycle.GovView(c);
    Lifecycle.GovView(Blocks.Rotated(base, live, header).value);
    hide Blocks.Rotated, Blocks.AfterMint, Advance, PhaseDue, GovOf;
    PassMovesExactly(base, GovOf(c), ids, header.timestamp, i);
  }

  // ----- Unanimous votes -----

  /** The proposal is due and everybody who voted on it chose `c`. */
  predicate Unanimous(base: Columns, id: u64, c: VoteChoice, now: u64) {
    && id in base.proposals && base.proposals[id].phase == Voting && now >= base.proposals[id].proposal.votingEnds
    && forall k :: k in base.votes && k.proposal == id ==> base.votes[k] == c
  }

  lemma NobodyElse(votes: Votes, id: u64, c: VoteChoice, d: VoteChoice, accounts: Accounts)
    requires c != d && forall k :: k in votes && k.proposal == id ==> votes[k] == c
    ensures VotedFor(votes, id, d, accounts) == 0
  {
    assert (map k | k in votes && k.proposal == id && votes[k] == d :: AccountAt(accounts, k.voter).balance) == map[];
  }

  /** With quorum, a proposal everybody wants passes, one nobody wants is rejected, with a veto where all
      votes veto; where all abstain it is rejected, and so it is without quorum. */
  lemma UnanimousVerdict(base: Columns, accounts: Accounts, id: u64, c: VoteChoice, now: u64)
    requires Unanimous(base, id, c, now)
    ensures var weight := VotedFor(base.votes, id, c, accounts);
      PhaseDue(base, accounts, id, now) ==
        if Bonded(base) == 0 || weight == 0 || 2 * weight < Bonded(base) then Rejected
        else
          match c
          case Yes => Passed
          case NoWithVeto => RejectedWithVeto
          case _ => Rejected
  {
    hide VotedFor, Bonded;
    forall d | d != c
      ensures VotedFor(base.votes, id, d, accounts) == 0
    {
      NobodyElse(base.votes, id, c, d, accounts);
    }
  }
}
