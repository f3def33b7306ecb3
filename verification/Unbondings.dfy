/**
 Unbondings over whole chains: identifiers are never reused, slashes trim what is pending
 by five percent, and each unbonding is paid at most once, in full, and not before its
 period has passed.
 */
module Unbondings {
  import opened Numeric
  import opened Types
  import opened LedgerSpec
  import opened Blocks
  import Chain
  import Replay
  import SlashEffects

  type Pending = map<UnbondKey, UnbondingEntry>

  /** What a run does to unbondings: one is opened, one is paid to `to`, whose balance goes
      from `before` to `after` at block height `height`, or the slashes of a block against
      `nodes` leave `cuts` in place of what was pending. */
  datatype Event =
    | Opened(key: UnbondKey, entry: UnbondingEntry)
    | Paid(key: UnbondKey, to: Address, before: u128, after: u128, height: u64)
    | Trimmed(cuts: Pending, nodes: set<NodeId>, height: u64)

  // ----- Observing one step -----

  function KeyOf(live: Columns, tx: Transaction): Option<UnbondKey> {
    if !tx.Stake? then None
    else match tx.op
      case Withdraw(node, _, _, _) => Some(UnbondKey(node, live.nextUnbondId))
      case Complete(node, id) => Some(UnbondKey(node, id))
      case _ => None
  }

  function PayeeOf(live: Columns, stx: SignedTx, key: UnbondKey): Address {
    if key in live.unbondings then Holder(live.unbondings[key].delegator, OfSigner(stx.signer))
      else OfSigner(stx.signer)
  }

  /** The events of one transaction, read off the columns before and after it. */
  function EventsOf(live: Columns, after: Columns, stx: SignedTx): seq<Event> {
    match KeyOf(live, stx.tx)
    case None => []
    case Some(key) =>
      if key in after.unbondings && after.nextUnbondId != live.nextUnbondId then [Opened(key, after.unbondings[key])]
      else if key !in after.unbondings && key in live.unbondings then
        var to := PayeeOf(live, stx, key);
        [Paid(key, to, AccountAt(live.accounts, to).balance, AccountAt(after.accounts, to).balance, live.height)]
      else []
  }

  /** Paid in full, up to the width of a balance, to the delegator if one is named, on time. */
  predicate PaysFor(p: Event, e: UnbondingEntry)
    requires p.Paid?
  {
    && p.height >= e.completesAt
    && p.after == Min(p.before + e.amount, U128_MAX)
    && (e.delegator.Some? ==> p.to == e.delegator.value)
  }

  /** What a step may do to the pending unbondings and the counter. */
  predicate StepsTo(unb: Pending, next: nat, events: seq<Event>, unb': Pending, next': nat, height: u64) {
    if events == [] then unb' == unb && next' == next
    else if events[0].Opened? then
      var (k, e) := (events[0].key, events[0].entry);
      |events| == 1 && k.id == next && next' == next + 1 && unb' == unb[k := e]
        && e.startedAt == height && e.completesAt == height + UNBONDING_PERIOD_BLOCKS
    else if events[0].Trimmed? then false
    else
      && |events| == 1 && events[0].key in unb && unb' == unb - {events[0].key} && next' == next
      && PaysFor(events[0], unb[events[0].key])
  }

  lemma CreditedBalance(accounts: Accounts, to: Address, amount: u128)
    ensures AccountAt(Credit(accounts, to, amount), to).balance == SatAdd128(AccountAt(accounts, to).balance, amount)
  {
  }

  lemma CompleteSteps(live: Columns, stx: SignedTx, node: NodeId, id: u64, after: Columns)
    requires stx.tx == Stake(Complete(node, id))
    requires Completed(StakesOf(live), OfSigner(stx.signer), node, id, live.height).outcome.Applied?
    requires StakesOf(after) == Completed(StakesOf(live), OfSigner(stx.signer), node, id, live.height).book
    ensures StepsTo(live.unbondings, live.nextUnbondId, EventsOf(live, after, stx), after.unbondings,
      after.nextUnbondId, live.height)
  {
    hide Credit, AccountAt;
    var key := UnbondKey(node, id);
    var e := live.unbondings[key];
    CreditedBalance(live.accounts, Holder(e.delegator, OfSigner(stx.signer)), e.amount);
  }

  lemma WithdrawSteps(live: Columns, stx: SignedTx, after: Columns)
    requires stx.tx.Stake? && stx.tx.op.Withdraw?
    requires var op := stx.tx.op;
      var done := Withdrawn(StakesOf(live), OfSigner(stx.signer), op.node, op.role, op.pool, op.amount, live.height);
      done.outcome.Applied? && StakesOf(after) == done.book
    ensures StepsTo(live.unbondings, live.nextUnbondId, EventsOf(live, after, stx), after.unbondings,
      after.nextUnbondId, live.height)
  {
    hide Credit, AccountAt, SourceKey, DrawDown;
  }

  predicate SamePending(c: Columns, d: Columns) {
    d.unbondings == c.unbondings && d.nextUnbondId == c.nextUnbondId
  }

  lemma MoneyKeepsPending(live: Columns)
    ensures forall d :: SamePending(live, OnAccounts(live, d).live)
    ensures forall d :: SamePending(live, OnEscrows(live, d).live)
  {
  }

  lemma RecordsKeepPending(live: Columns)
    ensures forall d :: SamePending(live, OnReceipts(live, d).live)
    ensures forall d :: SamePending(live, OnModels(live, d).live)
    ensures forall d :: SamePending(live, OnGov(live, d).live)
  {
  }

  lemma RegistryKeepsPending(live: Columns)
    ensures forall d :: SamePending(live, OnRegistry(live, d).live)
  {
  }

  lemma StakeBookPending(live: Columns, d: Done<StakeBook>)
    requires d.book.unbondings == live.unbondings && d.book.nextUnbondId == live.nextUnbondId
    ensures SamePending(live, OnStakes(live, d).live)
  {
  }

  lemma MovesKeepPending(bootstrap: bool, book: StakeBook, sender: Address, op: StakeOp, height: u64)
    requires op.Deposit? || op.Redelegate?
    ensures var after := StakeOpApplied(bootstrap, book, sender, op, height).book;
      after.unbondings == book.unbondings && after.nextUnbondId == book.nextUnbondId
  {
    hide Debit, TopUp, DrawDown, BelowMinimum, SourceKey;
  }

  lemma OtherSteps(base: Columns, live: Columns, stx: SignedTx)
    requires KeyOf(live, stx.tx).None?
    ensures SamePending(live, Apply(base, live, stx).live)
  {
    MoneyKeepsPending(live);
    RecordsKeepPending(live);
    RegistryKeepsPending(live);
    hide Transferred, ModelRegistered, Proposed, Voted, Settling, Locking, Anchored, Disputed, Minted, InBootstrap,
      StakeOpApplied;
    hide OnAccounts, OnEscrows, OnReceipts, OnModels, OnGov, OnRegistry, TeeRegistered, GatewayRegistered,
      GatewayRemoved;
    if stx.tx.Stake? {
      var bootstrap := InBootstrap(live.height, |base.validators|);
      MovesKeepPending(bootstrap, StakesOf(live), OfSigner(stx.signer), stx.tx.op, live.height);
      StakeBookPending(live, StakeOpApplied(bootstrap, StakesOf(live), OfSigner(stx.signer), stx.tx.op, live.height));
    }
  }

  /** Every applied transaction opens one unbonding with the counter's value, pays one
      that is due, or leaves unbondings and counter alone. */
  lemma StepSteps(base: Columns, live: Columns, stx: SignedTx)
    requires Apply(base, live, stx).outcome.Applied?
    ensures var after := Apply(base, live, stx).live;
      StepsTo(live.unbondings, live.nextUnbondId, EventsOf(live, after, stx), after.unbondings, after.nextUnbondId,
        live.height)
  {
    var after := Apply(base, live, stx).live;
    if KeyOf(live, stx.tx).None? {
      OtherSteps(base, live, stx);
    } else {
      hide Completed, Withdrawn, InBootstrap, EventsOf, StepsTo;
      if stx.tx.op.Complete? {
        CompleteSteps(live, stx, stx.tx.op.node, stx.tx.op.unbondId, after);
      } else {
        WithdrawSteps(live, stx, after);
      }
    }
  }

  // ----- Who is paid -----

  /** Where a completed unbonding goes, if it is paid. */
  function PaidTo(book: StakeBook, sender: Address, key: UnbondKey, height: u64): Option<Address> {
    if Completed(book, sender, key.node, key.id, height).outcome.Applied?
      then Some(Holder(book.unbondings[key].delegator, sender))
    else None
  }

  /** Whoever completes it, the payee of a matured unbonding is the same exactly when the
      entry names a delegator: the node's operator plays no part. */
  lemma PayeeFixedExactly(book: StakeBook, key: UnbondKey, height: u64)
    requires key in book.unbondings && height >= book.unbondings[key].completesAt
    ensures (forall s, t :: PaidTo(book, s, key, height).Some? && PaidTo(book, t, key, height).Some? ==>
               PaidTo(book, s, key, height) == PaidTo(book, t, key, height))
      <==> book.unbondings[key].delegator.Some?
  {
    if book.unbondings[key].delegator.None? {
      assert PaidTo(book, Raw(0), key, height) == Some(Raw(0)) && PaidTo(book, Raw(1), key, height) == Some(Raw(1));
    }
  }

  /** Anyone can withdraw a node's own stake and, when the period is over, be paid for it. */
  lemma StrangerTakesSelfStake(book: StakeBook, stranger: Address, node: NodeId, role: StakeRole, height: u64)
    requires var own := StakeKey(node, role, None, Some(stranger));
      own !in book.stakes && own.(delegator := None) in book.stakes
    requires height + UNBONDING_PERIOD_BLOCKS <= U64_MAX && book.nextUnbondId < U64_MAX
    ensures var self := StakeKey(node, role, None, None);
      var amount := book.stakes[self].amount;
      var one := Withdrawn(book, stranger, node, role, None, amount, height);
      var two := Completed(one.book, stranger, node, book.nextUnbondId, height + UNBONDING_PERIOD_BLOCKS);
      && one.outcome.Applied? && self !in one.book.stakes
      && two.outcome.Applied?
      && AccountAt(two.book.accounts, stranger).balance == SatAdd128(AccountAt(book.accounts, stranger).balance, amount)
  {
    hide Credit, AccountAt;
    var self := StakeKey(node, role, None, None);
    CreditedBalance(book.accounts, stranger, book.stakes[self].amount);
  }

  // ----- Logs -----

  ghost function LogOf(base: Columns, txs: seq<SignedTx>): seq<Event> {
    if txs == [] || RunAll(base, txs).Aborted? then []
    else
      var earlier, stx := txs[..|txs| - 1], txs[|txs| - 1];
      var live := RunAll(base, earlier).live;
      var step := Apply(base, live, stx);
      LogOf(base, earlier) + if step.outcome.Applied? then EventsOf(live, step.live, stx) else []
  }

  function AccusedNodes(txs: seq<SignedTx>): set<NodeId> {
    set i | 0 <= i < |txs| && Accuses(txs[i].tx) :: txs[i].tx.claim.computeNode
  }

  /** What the slashes of a block changed. */
  function CutsBetween(before: Pending, after: Pending): Pending {
    map k | k in before && k in after && after[k] != before[k] :: after[k]
  }

  /** The events of an accepted block: its transactions', then its slashes'. */
  ghost function BlockLog(base: Columns, txs: seq<SignedTx>): seq<Event>
    requires RunAll(base, txs).Pass? && SlashAll(base, RunAll(base, txs).live, txs).Some?
  {
    var live := RunAll(base, txs).live;
    LogOf(base, txs) + [Trimmed(CutsBetween(live.unbondings, SlashAll(base, live, txs).value.unbondings),
      AccusedNodes(txs), base.height)]
  }

  /** Every unbonding event of a chain, in order. */
  ghost function ChainLog(genesis: Columns, blocks: seq<Block>): seq<Event> {
    if blocks == [] then []
    else
      var earlier, block := blocks[..|blocks| - 1], blocks[|blocks| - 1];
      var base := Chain.After(genesis, earlier);
      ChainLog(genesis, earlier) + if Accepts(base, block) then BlockLog(base, block.txs) else []
  }

  function AfterEvent(unb: Pending, ev: Event): Pending {
    match ev
    case Opened(k, e) => unb[k := e]
    case Paid(k, _, _, _, _) => unb - {k}
    case Trimmed(cuts, _, _) => unb + cuts
  }

  /** What a log leaves pending of `unb`. */
  function AfterLog(unb: Pending, log: seq<Event>): Pending {
    if log == [] then unb else AfterEvent(AfterLog(unb, log[..|log| - 1]), log[|log| - 1])
  }

  /** The committed state an honest genesis or an earlier run provides. */
  predicate SoundPending(unb: Pending, next: nat) {
    forall k :: k in unb ==> k.id < next && unb[k].completesAt == unb[k].startedAt + UNBONDING_PERIOD_BLOCKS
  }

  /** Identifiers are handed out in increasing order, above all earlier ones. */
  predicate NeverReused(log: seq<Event>, first: nat) {
    && (forall i :: 0 <= i < |log| && log[i].Opened? ==> log[i].key.id >= first)
    && forall i, j :: 0 <= i < j < |log| && log[i].Opened? && log[j].Opened? ==> log[i].key.id < log[j].key.id
  }

  predicate PaidOnce(log: seq<Event>) {
    forall i, j :: 0 <= i < j < |log| && log[i].Paid? && log[j].Paid? ==> log[i].key != log[j].key
  }

  /** A payment in full, no earlier than the period after the unbonding was started. */
  predicate PaysLate(p: Event, e: UnbondingEntry)
    requires p.Paid?
  {
    PaysFor(p, e) && p.height >= e.startedAt + UNBONDING_PERIOD_BLOCKS
  }

  /** An entry after a slash for failed verification. */
  function Docked(e: UnbondingEntry): UnbondingEntry {
    e.(amount := e.amount - e.amount * 5 / 100)
  }

  /** A block trims compute unbondings of accused nodes that have not matured, once each,
      by the five percent of what was pending. */
  predicate TrimsDue(was: Pending, ev: Event)
    requires ev.Trimmed?
  {
    forall k :: k in ev.cuts ==>
      && k in was && ev.cuts[k] == Docked(was[k])
      && k.node in ev.nodes && was[k].role == Compute && ev.height < was[k].completesAt
  }

  /** What an event may do to what is pending before it. */
  predicate EventDue(was: Pending, ev: Event) {
    match ev
    case Opened(_, e) => e.completesAt == e.startedAt + UNBONDING_PERIOD_BLOCKS
    case Paid(k, _, _, _, _) => k in was && PaysLate(ev, was[k])
    case Trimmed(_, _, _) => TrimsDue(was, ev)
  }

  ghost predicate SoundLog(unb: Pending, first: nat, log: seq<Event>) {
    && NeverReused(log, first)
    && PaidOnce(log)
    && forall j :: 0 <= j < |log| ==> EventDue(AfterLog(unb, log[..j]), log[j])
  }

  /** How a log relates to the pending unbondings it leaves. */
  ghost predicate Explains(unb: Pending, first: nat, log: seq<Event>, now: Pending, next: nat) {
    && first <= next
    && SoundPending(now, next)
    && now == AfterLog(unb, log)
    && (forall i :: 0 <= i < |log| && !log[i].Trimmed? ==> log[i].key.id < next)
    && (forall i :: 0 <= i < |log| && log[i].Paid? ==> log[i].key !in now)
    && SoundLog(unb, first, log)
  }

  lemma ExplainsNothing(unb: Pending, next: nat)
    requires SoundPending(unb, next)
    ensures Explains(unb, next, [], unb, next)
  {
  }

  lemma NamesSnoc(first: nat, log: seq<Event>, ev: Event)
    requires NeverReused(log, first) && PaidOnce(log)
    requires ev.Opened? ==> ev.key.id >= first && forall i :: 0 <= i < |log| && !log[i].Trimmed? ==>
      log[i].key.id < ev.key.id
    requires ev.Paid? ==> forall i :: 0 <= i < |log| && log[i].Paid? ==> log[i].key != ev.key
    ensures NeverReused(log + [ev], first) && PaidOnce(log + [ev])
  {
  }

  lemma SoundSnoc(unb: Pending, first: nat, log: seq<Event>, ev: Event)
    requires SoundLog(unb, first, log)
    requires ev.Opened? ==> ev.key.id >= first && forall i :: 0 <= i < |log| && !log[i].Trimmed? ==>
      log[i].key.id < ev.key.id
    requires ev.Paid? ==> forall i :: 0 <= i < |log| && log[i].Paid? ==> log[i].key != ev.key
    requires EventDue(AfterLog(unb, log), ev)
    ensures SoundLog(unb, first, log + [ev]) && AfterLog(unb, log + [ev]) == AfterEvent(AfterLog(unb, log), ev)
  {
    hide EventDue, AfterEvent;
    var more := log + [ev];
    assert more[..|log|] == log;
    NamesSnoc(first, log, ev);
    hide NeverReused, PaidOnce;
    forall j | 0 <= j < |more|
      ensures EventDue(AfterLog(unb, more[..j]), more[j])
    {
      if j < |log| {
        assert more[..j] == log[..j];
      }
    }
  }

  lemma OpenedKeepsSound(now: Pending, next: nat, k: UnbondKey, e: UnbondingEntry)
    requires SoundPending(now, next) && k.id == next && e.completesAt == e.startedAt + UNBONDING_PERIOD_BLOCKS
    ensures SoundPending(now[k := e], next + 1)
  {
  }

  lemma ExplainsOpened(unb: Pending, first: nat, log: seq<Event>, now: Pending, next: nat, ev: Event, now': Pending,
      next': nat, height: u64)
    requires Explains(unb, first, log, now, next) && ev.Opened? && StepsTo(now, next, [ev], now', next', height)
    ensures Explains(unb, first, log + [ev], now', next')
  {
    hide NeverReused, PaidOnce, TrimsDue, SoundLog, AfterLog;
    OpenedKeepsSound(now, next, ev.key, ev.entry);
    hide SoundPending;
    SoundSnoc(unb, first, log, ev);
    assert forall i :: 0 <= i < |log| ==> (log + [ev])[i] == log[i];
  }

  lemma PaidKeepsSound(now: Pending, next: nat, k: UnbondKey)
    requires SoundPending(now, next) && k in now
    ensures SoundPending(now - {k}, next) && now[k].completesAt == now[k].startedAt + UNBONDING_PERIOD_BLOCKS
  {
  }

  lemma ExplainsPaid(unb: Pending, first: nat, log: seq<Event>, now: Pending, next: nat, ev: Event, now': Pending,
      next': nat, height: u64)
    requires Explains(unb, first, log, now, next) && ev.Paid? && StepsTo(now, next, [ev], now', next', height)
    ensures Explains(unb, first, log + [ev], now', next')
  {
    assert forall i :: 0 <= i < |log| && log[i].Paid? ==> log[i].key != ev.key;
    hide NeverReused, PaidOnce, TrimsDue, SoundLog, SoundPending;
    PaidKeepsSound(now, next, ev.key);
    SoundSnoc(unb, first, log, ev);
  }

  lemma TrimKeepsSound(now: Pending, next: nat, ev: Event)
    requires SoundPending(now, next) && ev.Trimmed? && TrimsDue(now, ev)
    ensures SoundPending(now + ev.cuts, next) && (now + ev.cuts).Keys == now.Keys
  {
  }

  lemma ExplainsTrimmed(unb: Pending, first: nat, log: seq<Event>, now: Pending, next: nat, ev: Event)
    requires Explains(unb, first, log, now, next) && ev.Trimmed? && TrimsDue(now, ev)
    ensures Explains(unb, first, log + [ev], now + ev.cuts, next)
  {
    TrimKeepsSound(now, next, ev);
    hide NeverReused, PaidOnce, TrimsDue, SoundPending;
    SoundSnoc(unb, first, log, ev);
    hide SoundLog;
  }

  lemma ExplainsStep(unb: Pending, first: nat, log: seq<Event>, now: Pending, next: nat, events: seq<Event>,
      now': Pending, next': nat, height: u64)
    requires Explains(unb, first, log, now, next) && StepsTo(now, next, events, now', next', height)
    ensures Explains(unb, first, log + events, now', next')
  {
    hide Explains;
    if events == [] {
      assert log + events == log;
    } else {
      assert events == [events[0]];
      if events[0].Opened? {
        ExplainsOpened(unb, first, log, now, next, events[0], now', next', height);
      } else {
        ExplainsPaid(unb, first, log, now, next, events[0], now', next', height);
      }
    }
  }

  // ----- Blocks -----

  lemma DroppedUnbondings(base: Columns, live: Columns, stx: SignedTx)
    requires Apply(base, live, stx).outcome.Dropped?
    ensures SamePending(live, Apply(base, live, stx).live) && Apply(base, live, stx).live.height == live.height
  {
    Replay.RejectedLeavesLedgerExactly(base, live, stx);
  }

  lemma MoneyKeepsHeight(live: Columns)
    ensures forall d :: OnAccounts(live, d).live.height == live.height
    ensures forall d :: OnStakes(live, d).live.height == live.height
    ensures forall d :: OnEscrows(live, d).live.height == live.height
  {
  }

  lemma RecordsKeepHeight(live: Columns)
    ensures forall d :: OnReceipts(live, d).live.height == live.height
    ensures forall d :: OnModels(live, d).live.height == live.height
    ensures forall d :: OnGov(live, d).live.height == live.height
    ensures forall d :: OnRegistry(live, d).live.height == live.height
  {
  }

  lemma StepHeight(base: Columns, live: Columns, stx: SignedTx)
    ensures Apply(base, live, stx).live.height == live.height
  {
    MoneyKeepsHeight(live);
    RecordsKeepHeight(live);
    hide Transferred, ModelRegistered, Proposed, Voted, Settling, Locking, Anchored, Disputed, Minted, InBootstrap,
      StakeOpApplied;
    hide OnAccounts, OnStakes, OnEscrows, OnReceipts, OnModels, OnGov;
    hide OnRegistry, TeeRegistered, GatewayRegistered, GatewayRemoved;
  }

  /** What had not matured when the block began is still pending, unchanged. */
  predicate KeepsImmature(base: Columns, live: Columns) {
    && live.height == base.height && base.nextUnbondId <= live.nextUnbondId
    && forall k :: k in base.unbondings && base.unbondings[k].completesAt > base.height ==>
         k in live.unbondings && live.unbondings[k] == base.unbondings[k]
  }

  lemma {:induction false} PassKeepsImmature(base: Columns, txs: seq<SignedTx>)
    requires RunAll(base, txs).Pass? && SoundPending(base.unbondings, base.nextUnbondId)
    ensures KeepsImmature(base, RunAll(base, txs).live)
  {
    if txs != [] {
      var earlier, stx := txs[..|txs| - 1], txs[|txs| - 1];
      PassKeepsImmature(base, earlier);
      var live := RunAll(base, earlier).live;
      hide Apply;
      StepHeight(base, live, stx);
      if Apply(base, live, stx).outcome.Applied? {
        StepSteps(base, live, stx);
        hide EventsOf;
      } else {
        DroppedUnbondings(base, live, stx);
      }
    }
  }

  lemma {:induction false} PassExplains(unb: Pending, first: nat, log: seq<Event>, base: Columns, txs: seq<SignedTx>)
    requires Explains(unb, first, log, base.unbondings, base.nextUnbondId) && RunAll(base, txs).Pass?
    ensures var live := RunAll(base, txs).live;
      Explains(unb, first, log + LogOf(base, txs), live.unbondings, live.nextUnbondId)
  {
    hide Explains, StepsTo, EventsOf, Apply;
    if txs == [] {
      assert log + LogOf(base, txs) == log;
    } else {
      var earlier, stx := txs[..|txs| - 1], txs[|txs| - 1];
      PassExplains(unb, first, log, base, earlier);
      var live := RunAll(base, earlier).live;
      var step := Apply(base, live, stx);
      var events := if step.outcome.Applied? then EventsOf(live, step.live, stx) else [];
      assert log + LogOf(base, txs) == (log + LogOf(base, earlier)) + events;
      if step.outcome.Applied? {
        StepSteps(base, live, stx);
        ExplainsStep(unb, first, log + LogOf(base, earlier), live.unbondings, live.nextUnbondId, events,
          step.live.unbondings, step.live.nextUnbondId, live.height);
      } else {
        DroppedUnbondings(base, live, stx);
        assert log + LogOf(base, earlier) + [] == log + LogOf(base, earlier);
      }
    }
  }

  /** What the slashes against `nodes` leave of what was pending. */
  predicate TrimmedFor(base: Columns, before: Pending, after: Pending, nodes: set<NodeId>) {
    && after.Keys == before.Keys
    && forall k :: k in before ==>
         || after[k] == before[k]
         || (k in base.unbondings && after[k] == Docked(base.unbondings[k]) && k.node in nodes
             && base.unbondings[k].role == Compute && base.height < base.unbondings[k].completesAt)
  }

  lemma CutTrims(base: Columns, before: Pending, live: Pending, after: Pending, node: NodeId, nodes: set<NodeId>)
    requires TrimmedFor(base, before, live, nodes) && SlashEffects.PendingCut(base, live, after, node) && node in nodes
    requires forall k :: k in base.unbondings && base.unbondings[k].completesAt > base.height ==> k in before
    ensures TrimmedFor(base, before, after, nodes)
  {
  }

  lemma SlashForTrims(base: Columns, before: Pending, live: Columns, tx: Transaction, nodes: set<NodeId>)
    requires SlashFor(base, live, tx).Some? && TrimmedFor(base, before, live.unbondings, nodes)
    requires forall k :: k in base.unbondings && base.unbondings[k].completesAt > base.height ==> k in before
    requires Accuses(tx) ==> tx.claim.computeNode in nodes
    ensures TrimmedFor(base, before, SlashFor(base, live, tx).value.unbondings, nodes)
    ensures SlashFor(base, live, tx).value.nextUnbondId == live.nextUnbondId
  {
    hide TrimmedFor, SlashFor, SlashEffects.StakesCut, SlashEffects.PendingCut, SlashEffects.RewardPart;
    if Accuses(tx) {
      SlashEffects.SlashTakes(base, live, tx);
      CutTrims(base, before, live.unbondings, SlashFor(base, live, tx).value.unbondings, tx.claim.computeNode, nodes);
    } else {
      SlashEffects.NoAccusation(base, live, tx);
    }
  }

  lemma {:induction false} SlashesTrim(base: Columns, live: Columns, txs: seq<SignedTx>, nodes: set<NodeId>)
    requires SlashAll(base, live, txs).Some? && AccusedNodes(txs) <= nodes
    requires forall k :: k in base.unbondings && base.unbondings[k].completesAt > base.height ==> k in live.unbondings
    ensures TrimmedFor(base, live.unbondings, SlashAll(base, live, txs).value.unbondings, nodes)
    ensures SlashAll(base, live, txs).value.nextUnbondId == live.nextUnbondId
  {
    hide SlashFor, Docked;
    if txs != [] {
      var earlier := txs[..|txs| - 1];
      assert AccusedNodes(earlier) <= AccusedNodes(txs) by {
        forall i | 0 <= i < |earlier| ensures earlier[i] == txs[i] {}
      }
      SlashesTrim(base, live, earlier, nodes);
      if Accuses(txs[|txs| - 1].tx) {
        assert txs[|txs| - 1].tx.claim.computeNode in AccusedNodes(txs);
      }
      SlashForTrims(base, live.unbondings, SlashAll(base, live, earlier).value, txs[|txs| - 1].tx, nodes);
    }
  }

  lemma BlockTrims(base: Columns, live: Columns, txs: seq<SignedTx>)
    requires KeepsImmature(base, live) && SlashAll(base, live, txs).Some?
    ensures var after := SlashAll(base, live, txs).value;
      var cuts := CutsBetween(live.unbondings, after.unbondings);
      && TrimsDue(live.unbondings, Trimmed(cuts, AccusedNodes(txs), base.height))
      && after.unbondings == live.unbondings + cuts && after.nextUnbondId == live.nextUnbondId
  {
    hide SlashAll, Docked;
    SlashesTrim(base, live, txs, AccusedNodes(txs));
  }

  lemma AcceptedUnbondings(base: Columns, block: Block)
    requires Accepts(base, block)
    ensures var pass := RunAll(base, block.txs);
      pass.Pass? &&
      var r := SlashAll(base, pass.live, block.txs);
      && r.Some?
      && Next(base, block).unbondings == r.value.unbondings
      && Next(base, block).nextUnbondId == r.value.nextUnbondId
  {
    hide RunAll, SlashAll, Rotated;
    RotatedKeepsRest(base, SlashAll(base, RunAll(base, block.txs).live, block.txs).value, block.header);
  }

  lemma AcceptedExplains(unb: Pending, first: nat, log: seq<Event>, base: Columns, block: Block)
    requires Explains(unb, first, log, base.unbondings, base.nextUnbondId) && Accepts(base, block)
    ensures var now := Next(base, block);
      Explains(unb, first, log + BlockLog(base, block.txs), now.unbondings, now.nextUnbondId)
  {
    hide LogOf, Accepts, Next, RunAll, SlashAll, CutsBetween, KeepsImmature, AccusedNodes, TrimsDue;
    AcceptedUnbondings(base, block);
    var live := RunAll(base, block.txs).live;
    PassKeepsImmature(base, block.txs);
    hide Explains;
    PassExplains(unb, first, log, base, block.txs);
    BlockTrims(base, live, block.txs);
    var slashed := SlashAll(base, live, block.txs).value;
    var ev := Trimmed(CutsBetween(live.unbondings, slashed.unbondings), AccusedNodes(block.txs), base.height);
    ExplainsTrimmed(unb, first, log + LogOf(base, block.txs), live.unbondings, live.nextUnbondId, ev);
    assert log + LogOf(base, block.txs) + [ev] == log + BlockLog(base, block.txs);
  }

  lemma {:induction false} ChainExplains(genesis: Columns, blocks: seq<Block>)
    requires SoundPending(genesis.unbondings, genesis.nextUnbondId)
    ensures var now := Chain.After(genesis, blocks);
      Explains(genesis.unbondings, genesis.nextUnbondId, ChainLog(genesis, blocks), now.unbondings, now.nextUnbondId)
  {
    hide Explains, BlockLog, Accepts, Replayed;
    if blocks == [] {
      ExplainsNothing(genesis.unbondings, genesis.nextUnbondId);
    } else {
      var earlier, block := blocks[..|blocks| - 1], blocks[|blocks| - 1];
      var base := Chain.After(genesis, earlier);
      ChainExplains(genesis, earlier);
      var log := ChainLog(genesis, earlier);
      if Accepts(base, block) {
        AcceptedExplains(genesis.unbondings, genesis.nextUnbondId, log, base, block);
      } else {
        assert log + [] == log;
      }
    }
  }

  /** Over every chain: unbonding identifiers are never reused; a block's slashes take five
      percent, once, of the unmatured compute unbondings of the nodes it accuses; each
      unbonding is paid at most once, what was pending of it then, in full, to the delegator
      if one is named, and at least 1,209,600 blocks after it was started; and what is
      pending is what the log leaves. */
  lemma UnbondingRuns(genesis: Columns, blocks: seq<Block>)
    requires SoundPending(genesis.unbondings, genesis.nextUnbondId)
    ensures SoundLog(genesis.unbondings, genesis.nextUnbondId, ChainLog(genesis, blocks))
    ensures Chain.After(genesis, blocks).unbondings == AfterLog(genesis.unbondings, ChainLog(genesis, blocks))
  {
    ChainExplains(genesis, blocks);
  }
}
