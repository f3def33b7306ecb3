/**
 The orders in which the database lists its keys: numbers and identifiers by value,
 composite keys field by field, an absent part before a present one.
 */
module KeyOrder {
  import opened Numeric
  import opened Types
  import opened Ordering

  predicate BelowId(a: u64, b: u64) {
    a < b
  }

  predicate BelowNode(a: NodeId, b: NodeId) {
    a.id < b.id
  }

  predicate BelowJob(a: JobId, b: JobId) {
    a.id < b.id
  }

  predicate BelowPair(a: (nat, nat), b: (nat, nat)) {
    a.0 < b.0 || (a.0 == b.0 && a.1 < b.1)
  }

  /** A fixed numbering of addresses that stands for their byte order. */
  function AddressCode(a: Address): (nat, nat) {
    match a
    case Raw(id) => (1, id)
    case OfSigner(key) => (2, key.id)
    case OfNode(node) => (3, node.id)
    case OfTreasuryTag => (4, 0)
  }

  predicate BelowAddress(a: Address, b: Address) {
    BelowPair(AddressCode(a), AddressCode(b))
  }

  function RoleCode(r: StakeRole): nat {
    match r
    case Validator => 1
    case Router => 2
    case Verifier => 3
    case Compute => 4
  }

  function PoolCode(p: Option<PoolId>): nat {
    match p
    case None => 0
    case Some(pool) => 1 + pool.id
  }

  function DelegatorCode(d: Option<Address>): (nat, nat) {
    match d
    case None => (0, 0)
    case Some(a) => AddressCode(a)
  }

  function StakeCode(k: StakeKey): (nat, nat, nat, (nat, nat)) {
    (k.node.id, RoleCode(k.role), PoolCode(k.pool), DelegatorCode(k.delegator))
  }

  predicate BelowStake(a: StakeKey, b: StakeKey) {
    var x, y := StakeCode(a), StakeCode(b);
    x.0 < y.0 || (x.0 == y.0 &&
      (x.1 < y.1 || (x.1 == y.1 &&
        (x.2 < y.2 || (x.2 == y.2 && BelowPair(x.3, y.3))))))
  }

  lemma StakeCodeInjective(a: StakeKey, b: StakeKey)
    requires StakeCode(a) == StakeCode(b)
    ensures a == b
  {
  }

  lemma IdOrders()
    ensures StrictOrder(BelowId) && StrictOrder(BelowNode) && StrictOrder(BelowJob)
  {
  }

  lemma AddressOrder()
    ensures StrictOrder(BelowAddress)
  {
  }

  lemma StakeOrder()
    ensures StrictOrder(BelowStake)
  {
    hide StakeCode;
    forall a, b | a != b
      ensures BelowStake(a, b) || BelowStake(b, a)
    {
      if StakeCode(a) == StakeCode(b) {
        StakeCodeInjective(a, b);
      }
    }
  }

  function IdsInOrder(ids: set<u64>): (r: seq<u64>)
    ensures forall id :: id in ids <==> id in r
    ensures forall i, j :: 0 <= i < j < |r| ==> r[i] < r[j]
  {
    IdOrders();
    InOrder(ids, BelowId)
  }

  function NodesInOrder(nodes: set<NodeId>): (r: seq<NodeId>)
    ensures forall n :: n in nodes <==> n in r
    ensures forall i, j :: 0 <= i < j < |r| ==> r[i].id < r[j].id
  {
    IdOrders();
    InOrder(nodes, BelowNode)
  }

  function JobsInOrder(jobs: set<JobId>): (r: seq<JobId>)
    ensures forall j :: j in jobs <==> j in r
    ensures forall i, j :: 0 <= i < j < |r| ==> r[i].id < r[j].id
  {
    IdOrders();
    InOrder(jobs, BelowJob)
  }

  function StakesInOrder(keys: set<StakeKey>): (r: seq<StakeKey>)
    ensures forall k :: k in keys <==> k in r
    ensures forall i, j :: 0 <= i < j < |r| ==> r[i] != r[j] && BelowStake(r[i], r[j])
  {
    StakeOrder();
    InOrder(keys, BelowStake)
  }
}
