/** The balance state machine of account.go. An `Account` holds an
    `available` amount, a `blocked` amount and a table of reservations, each
    a key with the amount blocked under it; `Account1` is a separate table of
    signed per-key totals. Every operation is a pure step from the account
    before to the account after, together with the `(available, blocked,
    error)` triple the Go method returns. Every error path returns before
    any field is written, so a failed step hands back the account it was
    given. */
module Accounter {
  import opened FixedWidth
  import MapSum

  /** A caller-chosen reservation identifier. */
  type Key = string

  /** A table of signed running totals, one per key. The Go struct leaves
      the table `nil`; it is modelled as a plain map. */
  datatype Account1 = Account1(data: map<Key, i64>)

  /** The total stored under `sub`, reading an absent key as zero as Go's
      map lookup does. */
  function Stored(a: Account1, sub: Key): int
  {
    if sub in a.data then a.data[sub] else 0
  }

  /** Every total the table holds is positive. */
  ghost predicate AllPositive(a: Account1)
  {
    forall k :: k in a.data ==> a.data[k] > 0
  }

  /** Adds the signed `amount` to the total under `sub` and returns the new
      total; the table keeps it only when it is positive, and otherwise the
      table is left exactly as it was, any earlier entry included. */
  function AddAmount(a: Account1, sub: Key, amount: i64): (r: (Account1, i64))
    requires MIN_I64 <= Stored(a, sub) + amount <= MAX_I64
    ensures r.1 == Stored(a, sub) + amount
    ensures r.1 > 0 ==> r.0.data == a.data[sub := r.1]
    ensures r.1 <= 0 ==> r.0 == a
  {
    var cur := Stored(a, sub) + amount;
    if cur > 0 then (Account1(a.data[sub := cur]), cur) else (a, cur)
  }

  /** The kinds of error the Go methods report through `fmt.Errorf`. */
  datatype Error = Overflow | Insufficient | DuplicateKey | MissingKey | AmountMismatch

  /** Go's `error` result: `nil` or one of the kinds above. */
  datatype Status = Ok | Failed(error: Error)

  datatype Account = Account(available: u64, blocked: u64, blocks: map<Key, u64>)

  /** The account after the call and the three values the call returns. */
  datatype Outcome = Outcome(account: Account, available: u64, blocked: u64, status: Status)

  /** The reply every method builds: the balances of the account as it
      stands after the call. */
  function Reply(a: Account, s: Status): Outcome
  {
    Outcome(a, a.available, a.blocked, s)
  }

  /** The balance invariant: the blocked amount is exactly what the
      reservation table holds. */
  ghost predicate Valid(a: Account)
  {
    a.blocked == MapSum.Sum(a.blocks)
  }

  /** A fresh account holds nothing and satisfies the invariant. The Go
      constructor leaves the table `nil`; it is modelled as empty. */
  function NewAccount(): (a: Account)
    ensures a.available == 0 && a.blocked == 0 && |a.blocks| == 0
    ensures Valid(a)
  {
    Account(0, 0, map[])
  }

  /** Adds `amount` to the available funds unless the sum would not fit. */
  function Debit(a: Account, amount: u64): (r: Outcome)
    ensures r.status.Ok? <==> a.available + amount <= MAX_U64
    ensures r.status.Ok? ==> r.account == a.(available := a.available + amount)
    ensures r.status.Failed? ==> r.status.error == Overflow && r.account == a
    ensures r.available == r.account.available && r.blocked == r.account.blocked
  {
    var newAvailable := WrapAdd(a.available, amount);
    if newAvailable < a.available then Reply(a, Failed(Overflow))
    else Reply(a.(available := newAvailable), Ok)
  }

  /** Moves `amount` from the available funds into a new reservation under
      `key`. The checks come in the source's order: a key already in use,
      then too little available, then a blocked total that would not fit. */
  function Block(a: Account, key: Key, amount: u64): (r: Outcome)
    ensures r.status.Ok? <==>
              key !in a.blocks && amount <= a.available && a.blocked + amount <= MAX_U64
    ensures key in a.blocks ==> r.status == Failed(DuplicateKey)
    ensures key !in a.blocks && amount > a.available ==> r.status == Failed(Insufficient)
    ensures key !in a.blocks && amount <= a.available && a.blocked + amount > MAX_U64 ==>
              r.status == Failed(Overflow)
    ensures r.status.Ok? ==>
              r.account == Account(a.available - amount, a.blocked + amount, a.blocks[key := amount])
    ensures r.status.Failed? ==> r.account == a
    ensures r.available == r.account.available && r.blocked == r.account.blocked
  {
    if key in a.blocks then Reply(a, Failed(DuplicateKey))
    else if a.available < amount then Reply(a, Failed(Insufficient))
    else
      var newAvailable := WrapSub(a.available, amount);
      var newBlocked := WrapAdd(a.blocked, amount);
      if newBlocked < a.blocked then Reply(a, Failed(Overflow))
      else Reply(Account(newAvailable, newBlocked, a.blocks[key := amount]), Ok)
  }

  /** Releases the reservation under `key` back to the available funds,
      provided `amount` is exactly what it holds. The blocked total is
      reduced by Go's wrapping subtraction; `UnblockKeepsValid` and
      `ReleaseNeverWraps` show that under the invariant it does not wrap. */
  function Unblock(a: Account, key: Key, amount: u64): (r: Outcome)
    ensures r.status.Ok? <==>
              key in a.blocks && a.blocks[key] == amount && a.available + amount <= MAX_U64
    ensures key !in a.blocks ==> r.status == Failed(MissingKey)
    ensures key in a.blocks && a.blocks[key] != amount ==> r.status == Failed(AmountMismatch)
    ensures key in a.blocks && a.blocks[key] == amount && a.available + amount > MAX_U64 ==>
              r.status == Failed(Overflow)
    ensures r.status.Ok? ==>
              r.account == Account(a.available + amount, WrapSub(a.blocked, amount), a.blocks - {key})
    ensures r.status.Failed? ==> r.account == a
    ensures r.available == r.account.available && r.blocked == r.account.blocked
  {
    if key !in a.blocks then Reply(a, Failed(MissingKey))
    else if a.blocks[key] != amount then Reply(a, Failed(AmountMismatch))
    else
      var newAvailable := WrapAdd(a.available, amount);
      var newBlocked := WrapSub(a.blocked, amount);
      if newAvailable < a.available then Reply(a, Failed(Overflow))
      else Reply(Account(newAvailable, newBlocked, a.blocks - {key}), Ok)
  }

  /** Commits the reservation under `key`: its amount leaves the account,
      and the available funds stay as they are. The same key and amount
      checks as `Unblock`; there is no overflow check. */
  function Credit(a: Account, key: Key, amount: u64): (r: Outcome)
    ensures r.status.Ok? <==> key in a.blocks && a.blocks[key] == amount
    ensures key !in a.blocks ==> r.status == Failed(MissingKey)
    ensures key in a.blocks && a.blocks[key] != amount ==> r.status == Failed(AmountMismatch)
    ensures r.status.Ok? ==>
              r.account == Account(a.available, WrapSub(a.blocked, amount), a.blocks - {key})
    ensures r.status.Failed? ==> r.account == a
    ensures r.available == r.account.available && r.blocked == r.account.blocked
  {
    if key !in a.blocks then Reply(a, Failed(MissingKey))
    else if a.blocks[key] != amount then Reply(a, Failed(AmountMismatch))
    else
      var newBlocked := WrapSub(a.blocked, amount);
      Reply(Account(a.available, newBlocked, a.blocks - {key}), Ok)
  }

  /** Takes `amount` straight from the available funds, with no prior
      reservation. The source keeps a second, underflow test after the
      sufficiency test; the contract shows it never fires: the only error
      is `Insufficient`. */
  function WriteOff(a: Account, amount: u64): (r: Outcome)
    ensures r.status.Ok? <==> amount <= a.available
    ensures r.status.Ok? ==> r.account == a.(available := a.available - amount)
    ensures r.status.Failed? ==> r.status.error == Insufficient && r.account == a
    ensures r.available == r.account.available && r.blocked == r.account.blocked
  {
    if a.available < amount then Reply(a, Failed(Insufficient))
    else
      var newAvailable := WrapSub(a.available, amount);
      if newAvailable > a.available then Reply(a, Failed(Overflow))
      else Reply(a.(available := newAvailable), Ok)
  }

  /** The five balance operations as data, so that sequences of them can be
      reasoned about. */
  datatype Op =
    | DebitOp(amount: u64)
    | BlockOp(key: Key, amount: u64)
    | UnblockOp(key: Key, amount: u64)
    | CreditOp(key: Key, amount: u64)
    | WriteOffOp(amount: u64)

  function Apply(a: Account, op: Op): Outcome
  {
    match op
    case DebitOp(amount) => Debit(a, amount)
    case BlockOp(key, amount) => Block(a, key, amount)
    case UnblockOp(key, amount) => Unblock(a, key, amount)
    case CreditOp(key, amount) => Credit(a, key, amount)
    case WriteOffOp(amount) => WriteOff(a, amount)
  }

  /** The account after performing `ops` in order, failed ones included
      (a failed operation leaves the account as it was). */
  function Run(a: Account, ops: seq<Op>): Account
    decreases |ops|
  {
    if |ops| == 0 then a else Run(Apply(a, ops[0]).account, ops[1..])
  }
}
