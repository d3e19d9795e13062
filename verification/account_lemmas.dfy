/** Properties of the account operations that relate several calls: the
    balance invariant, the round trips of the reservation protocol, the
    subtractions that never wrap, and the per-key totals of `Account1`. */
module AccounterLemmas {
  import opened FixedWidth
  import MapSum
  import opened Accounter

  // ---------------------------------------------------------------------
  // All-or-nothing failure

  /** A failed operation, whichever it is, leaves the account untouched, and
      every reply reports the balances of the account after the call. */
  lemma FailureChangesNothing(a: Account, op: Op)
    ensures Apply(a, op).status.Failed? ==> Apply(a, op).account == a
    ensures Apply(a, op).available == Apply(a, op).account.available
    ensures Apply(a, op).blocked == Apply(a, op).account.blocked
  {
  }

  /** A successful Block only moves funds: the total it holds is kept. */
  lemma BlockKeepsTotal(a: Account, key: Key, amount: u64)
    ensures var r := Block(a, key, amount);
            r.status.Ok? ==>
              r.account.available + r.account.blocked == a.available + a.blocked
  {
  }

  // ---------------------------------------------------------------------
  // The balance invariant `blocked == sum of the reservation table`

  lemma DebitKeepsValid(a: Account, amount: u64)
    requires Valid(a)
    ensures Valid(Debit(a, amount).account)
  {
  }

  lemma BlockKeepsValid(a: Account, key: Key, amount: u64)
    requires Valid(a)
    ensures Valid(Block(a, key, amount).account)
  {
    if Block(a, key, amount).status.Ok? {
      MapSum.SumInsert(a.blocks, key, amount);
    }
  }

  /** Under the invariant, the reservation being released is covered by the
      blocked total, so `blocked - amount` at the release does not wrap and
      the invariant survives. */
  lemma UnblockKeepsValid(a: Account, key: Key, amount: u64)
    requires Valid(a)
    ensures Valid(Unblock(a, key, amount).account)
    ensures Unblock(a, key, amount).status.Ok? ==>
              Unblock(a, key, amount).account.blocked == a.blocked - amount
  {
    if key in a.blocks {
      MapSum.SumRemove(a.blocks, key);
    }
  }

  lemma CreditKeepsValid(a: Account, key: Key, amount: u64)
    requires Valid(a)
    ensures Valid(Credit(a, key, amount).account)
    ensures Credit(a, key, amount).status.Ok? ==>
              Credit(a, key, amount).account.blocked == a.blocked - amount
  {
    if key in a.blocks {
      MapSum.SumRemove(a.blocks, key);
    }
  }

  lemma WriteOffKeepsValid(a: Account, amount: u64)
    requires Valid(a)
    ensures Valid(WriteOff(a, amount).account)
  {
  }

  lemma ApplyKeepsValid(a: Account, op: Op)
    requires Valid(a)
    ensures Valid(Apply(a, op).account)
  {
    match op
    case DebitOp(amount) => DebitKeepsValid(a, amount);
    case BlockOp(key, amount) => BlockKeepsValid(a, key, amount);
    case UnblockOp(key, amount) => UnblockKeepsValid(a, key, amount);
    case CreditOp(key, amount) => CreditKeepsValid(a, key, amount);
    case WriteOffOp(amount) => WriteOffKeepsValid(a, amount);
  }

  lemma {:induction false} RunKeepsValid(a: Account, ops: seq<Op>)
    requires Valid(a)
    ensures Valid(Run(a, ops))
    decreases |ops|
  {
    if |ops| > 0 {
      ApplyKeepsValid(a, ops[0]);
      RunKeepsValid(Apply(a, ops[0]).account, ops[1..]);
    }
  }

  /** Every account reachable from a fresh one, by any sequence of
      operations, satisfies the invariant. */
  lemma ReachableIsValid(ops: seq<Op>)
    ensures Valid(Run(NewAccount(), ops))
  {
    RunKeepsValid(NewAccount(), ops);
  }

  /** Under the invariant, every reservation is covered by the blocked
      total, so the subtraction a release performs never wraps. */
  lemma ReleaseNeverWraps(a: Account, key: Key)
    requires Valid(a) && key in a.blocks
    ensures a.blocks[key] <= a.blocked
    ensures WrapSub(a.blocked, a.blocks[key]) == a.blocked - a.blocks[key]
  {
    MapSum.SumBound(a.blocks, key);
  }

  /** Without the invariant the subtraction in Credit does wrap: the
      invariant is what keeps the blocked total meaningful. */
  lemma CreditWrapsWithoutInvariant()
    ensures var a := Account(0, 0, map["k" := 5]);
            var r := Credit(a, "k", 5);
            r.status.Ok? && r.blocked == MAX_U64 - 4
  {
  }

  /** Unlike the dead test in WriteOff, the overflow test in Unblock can
      fire on an account reached from a fresh one: Debit bounds only the
      available funds, not their sum with what is blocked. */
  lemma UnblockOverflowIsReachable()
    ensures var a := Run(NewAccount(), [DebitOp(MAX_U64), BlockOp("k", 5), DebitOp(5)]);
            a == Account(MAX_U64, 5, map["k" := 5]) &&
            Valid(a) && Unblock(a, "k", 5).status == Failed(Overflow)
  {
    var ops := [DebitOp(MAX_U64), BlockOp("k", 5), DebitOp(5)];
    var a1 := Account(MAX_U64, 0, map[]);
    var a2 := Account(MAX_U64 - 5, 5, map["k" := 5]);
    var a3 := Account(MAX_U64, 5, map["k" := 5]);
    assert Apply(NewAccount(), ops[0]).account == a1;
    assert Apply(a1, ops[1]).account == a2;
    assert Apply(a2, ops[2]).account == a3;
    assert Run(a3, ops[3..]) == a3;
    assert Run(a2, ops[2..]) == a3 by { assert ops[2..][1..] == ops[3..]; }
    assert Run(a1, ops[1..]) == a3 by { assert ops[1..][1..] == ops[2..]; }
    ReachableIsValid(ops);
  }

  // ---------------------------------------------------------------------
  // Round trips of the reservation protocol

  /** Blocking under a fresh key and then unblocking the same amount always
      succeeds and restores the account exactly. */
  lemma BlockThenUnblock(a: Account, key: Key, amount: u64)
    requires key !in a.blocks
    ensures var b := Block(a, key, amount);
            b.status.Ok? ==>
              var u := Unblock(b.account, key, amount);
              u.status.Ok? && u.account == a
  {
    var b := Block(a, key, amount);
    if b.status.Ok? {
      assert b.account.blocks - {key} == a.blocks;
    }
  }

  /** Blocking under a fresh key and then crediting the same amount always
      succeeds, leaves the blocked total and the table as they were, and
      takes `amount` out of the available funds. */
  lemma BlockThenCredit(a: Account, key: Key, amount: u64)
    requires key !in a.blocks
    ensures var b := Block(a, key, amount);
            b.status.Ok? ==>
              var c := Credit(b.account, key, amount);
              c.status.Ok? && c.account == a.(available := a.available - amount)
  {
    var b := Block(a, key, amount);
    if b.status.Ok? {
      assert b.account.blocks - {key} == a.blocks;
    }
  }

  // ---------------------------------------------------------------------
  // Worked cases

  /** At the largest balance a Debit of one overflows and changes nothing. */
  lemma DebitAtMaximum(a: Account)
    requires a.available == MAX_U64
    ensures Debit(a, 1).status == Failed(Overflow) && Debit(a, 1).account == a
  {
  }

  /** A second Block under the same key is refused and keeps the first. */
  lemma SecondBlockSameKey(a: Account, key: Key, first: u64, second: u64)
    requires key !in a.blocks
    ensures var b := Block(a, key, first);
            b.status.Ok? ==>
              var c := Block(b.account, key, second);
              c.status == Failed(DuplicateKey) && c.account == b.account
  {
  }

  /** Unblocking any amount other than the one blocked is refused and keeps
      the reservation. */
  lemma MismatchedUnblockRefused(a: Account, key: Key, amount: u64, other: u64)
    requires key !in a.blocks && other != amount
    ensures var b := Block(a, key, amount);
            b.status.Ok? ==>
              var u := Unblock(b.account, key, other);
              u.status == Failed(AmountMismatch) && u.account.blocks[key] == amount
  {
  }

  /** Writing off the whole balance empties it; a second identical write-off
      is refused. */
  lemma WriteOffTwice(a: Account)
    requires a.available > 0
    ensures var w := WriteOff(a, a.available);
            w.status.Ok? && w.available == 0 &&
            WriteOff(w.account, a.available).status == Failed(Insufficient)
  {
  }

  // ---------------------------------------------------------------------
  // Account1.AddAmount

  /** Totals stay positive: only a positive result is ever written. */
  lemma AddAmountKeepsPositive(a: Account1, sub: Key, amount: i64)
    requires AllPositive(a)
    requires MIN_I64 <= Stored(a, sub) + amount <= MAX_I64
    ensures AllPositive(AddAmount(a, sub, amount).0)
  {
  }

  /** Two additions whose first result is positive accumulate. */
  lemma AddAmountAccumulates(a: Account1, sub: Key, x: i64, y: i64)
    requires MIN_I64 <= Stored(a, sub) + x <= MAX_I64
    requires Stored(a, sub) + x > 0
    requires MIN_I64 <= Stored(a, sub) + x + y <= MAX_I64
    ensures AddAmount(AddAmount(a, sub, x).0, sub, y).1 == Stored(a, sub) + x + y
  {
  }

  /** A non-positive result is not written back, so the next addition
      starts again from the earlier total: the delta is forgotten. */
  lemma AddAmountForgetsNonPositive(a: Account1, sub: Key, x: i64, y: i64)
    requires MIN_I64 <= Stored(a, sub) + x <= MAX_I64
    requires Stored(a, sub) + x <= 0
    requires MIN_I64 <= Stored(a, sub) + y <= MAX_I64
    ensures AddAmount(AddAmount(a, sub, x).0, sub, y).1 == Stored(a, sub) + y
  {
  }
}
