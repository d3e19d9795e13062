# Account balance state machine

A Dafny model of the single-account ledger entry of the `accounter` Go
package. An account holds two `uint64` balances, `available` and `blocked`,
and a table `blocks` from a reservation key to the amount reserved under it.
Five operations change it:

- `Debit` adds to `available`.
- `Block` moves an amount from `available` into `blocked` under a fresh key.
- `Unblock` returns a keyed reservation to `available`, only when the amount matches exactly.
- `Credit` commits a keyed reservation: the amount leaves `blocked` and the account.
- `WriteOff` takes an amount straight from `available`.

Each Go method returns `(available, blocked, error)` and returns on every
error path before writing a field. The model makes each operation a pure
function from an immutable `Account` to an `Outcome`: the account after the
call plus the returned triple, with the error as a `Status` (`Ok` or
`Failed` with one of `Overflow`, `Insufficient`, `DuplicateKey`,
`MissingKey`, `AmountMismatch`). The small `Account1.AddAmount` helper, a
table of signed per-key `int64` totals, is modelled too.

Go's unsigned `+` and `-` wrap modulo 2^64. They are written out as
`WrapAdd` and `WrapSub` (`(x ± y) % 2^64`), so the source's overflow tests are
transcribed as written: "the wrapped result is smaller (or larger) than the
old value". The contracts then state each test as a plain range check.

Files:

- `fixedwidth.dfy` (module `FixedWidth`): `uint64` and `int64` ranges, wrapping addition and subtraction.
- `mapsum.dfy` (module `MapSum`): the sum of a reservation table's values and how it moves when one entry is added or removed.
- `account.dfy` (module `Accounter`): the data model and the operations of account.go.
- `account_lemmas.dfy` (module `AccounterLemmas`): the balance invariant, the round trips, the dead and live overflow tests, and worked cases.

The central invariant is `Valid`: `blocked` equals the sum of the values in
`blocks`. It holds of a fresh account and every operation keeps it. Under
it, the unchecked subtractions `blocked - amount` in `Unblock` and `Credit`
never wrap. Without it they can wrap.

Go's nil maps. `NewAccount` returns `&Account{}`, so its `blocks` table is
Go's `nil` map, and nothing in account.go ever allocates it. An account
built that way keeps a nil table for its whole life, however many Debits it
receives:

- any `Block` that passes its three checks panics at the write on account.go:62;
- `Unblock` and `Credit` can only ever return MissingKey.

`Account1.data` is never initialised either, so `AddAmount` panics whenever
its result is positive. The model treats both tables as allocated and
starting empty, and does not model the panics. The reservation-protocol
results (the round trips, and `Valid` over non-empty tables) therefore
describe accounts whose table has been allocated, which the Go file as it
stands never produces.

## Model

| member | source | states |
|---|---|---|
| FixedWidth.WrapAdd | account.go:41 | Go's wrapping `uint64` sum equals the true sum when it fits, and the true sum minus 2^64 otherwise |
| FixedWidth.WrapSub | account.go:57 | Go's wrapping `uint64` difference equals the true difference when `y <= x`, and is 2^64 larger otherwise |
| FixedWidth.AddOverflowIff | account.go:41-42 | the overflow test "wrapped sum < old value" fires exactly when the true sum exceeds 2^64 - 1 |
| FixedWidth.SubUnderflowIff | account.go:107-108 | the underflow test "wrapped difference > old value" fires exactly when the amount exceeds the old value |
| Accounter.AddAmount | account.go:15-25 | returns the stored total (0 when absent) plus the delta; writes the key only when that result is positive, and otherwise leaves the table exactly as it was |
| Accounter.NewAccount | account.go:36-38 | a new account has zero available, zero blocked, an empty table, and satisfies the balance invariant |
| Accounter.Debit | account.go:40-47 | succeeds iff `available + amount < 2^64`; on success only `available` grows by `amount`; on failure the error is Overflow and the account is unchanged; the reply is the post-call balances |
| Accounter.Block | account.go:49-66 | succeeds iff the key is new, `amount <= available` and `blocked + amount < 2^64`; names the error of each failing check in source order; on success `available` drops and `blocked` grows by `amount` and the table gains exactly `key ↦ amount`; on failure nothing changes |
| Accounter.Unblock | account.go:68-86 | succeeds iff the key is present, its stored amount equals `amount` and `available + amount < 2^64`; MissingKey, AmountMismatch and Overflow for the failing checks in order; on success the key is removed, `available` grows by `amount` and `blocked` is reduced by Go's wrapping subtraction; on failure nothing changes |
| Accounter.Credit | account.go:88-101 | succeeds iff the key is present with exactly `amount`; MissingKey or AmountMismatch otherwise; on success the key is removed, `blocked` is reduced by the wrapping subtraction and `available` stays the same; on failure nothing changes |
| Accounter.WriteOff | account.go:103-113 | succeeds iff `amount <= available`; on success only `available` drops by `amount`; the only error is Insufficient, so the overflow branch after the sufficiency test is dead |
| AccounterLemmas.FailureChangesNothing | account.go:40-113 | for every operation, a failed call returns the account unchanged, and every reply reports the post-call balances |
| AccounterLemmas.BlockKeepsTotal | account.go:57-64 | a successful Block preserves `available + blocked` |
| AccounterLemmas.DebitKeepsValid | account.go:40-47 | Debit keeps `blocked == sum of the table` |
| AccounterLemmas.BlockKeepsValid | account.go:57-64 | Block keeps `blocked == sum of the table` |
| AccounterLemmas.UnblockKeepsValid | account.go:76-84 | Unblock keeps the invariant, and under it the new `blocked` is exactly `blocked - amount` (no wrap at line 77) |
| AccounterLemmas.CreditKeepsValid | account.go:96-99 | Credit keeps the invariant, and under it the new `blocked` is exactly `blocked - amount` (no wrap at line 96) |
| AccounterLemmas.WriteOffKeepsValid | account.go:103-113 | WriteOff keeps `blocked == sum of the table` |
| AccounterLemmas.ApplyKeepsValid | account.go:40-113 | any one of the five operations keeps the invariant |
| AccounterLemmas.RunKeepsValid | account.go:40-113 | any sequence of operations, failed ones included, keeps the invariant |
| AccounterLemmas.ReachableIsValid | account.go:36-113 | every account reachable from `NewAccount` satisfies the invariant |
| AccounterLemmas.ReleaseNeverWraps | account.go:69-77 | under the invariant every stored reservation is at most `blocked`, so the release subtraction equals the true difference |
| AccounterLemmas.CreditWrapsWithoutInvariant | account.go:96-99 | on an account that breaks the invariant, Credit succeeds and `blocked` wraps to 2^64 - 5 |
| AccounterLemmas.UnblockOverflowIsReachable | account.go:76-81 | the Unblock overflow test is live: Debit(2^64 - 1), Block("k", 5), Debit(5) from a new account reaches an account satisfying the invariant on which Unblock("k", 5) fails with Overflow |
| AccounterLemmas.BlockThenUnblock | account.go:49-86 | with a fresh key, a successful Block followed by Unblock of the same amount always succeeds and restores the exact original account |
| AccounterLemmas.BlockThenCredit | account.go:49-101 | with a fresh key, a successful Block followed by Credit of the same amount always succeeds, restores `blocked` and the table, and lowers `available` by the amount |
| AccounterLemmas.DebitAtMaximum | account.go:41-43 | on any account with `available = 2^64 - 1`, Debit(1) fails with Overflow and leaves the account unchanged |
| AccounterLemmas.SecondBlockSameKey | account.go:50-51 | a second Block under a key already in use fails with DuplicateKey and keeps the first reservation |
| AccounterLemmas.MismatchedUnblockRefused | account.go:73-74 | Unblock with any amount different from the blocked one, smaller or larger, fails with AmountMismatch and the reservation stays |
| AccounterLemmas.WriteOffTwice | account.go:103-106 | writing off a positive balance in full leaves zero; repeating it fails with Insufficient |
| AccounterLemmas.AddAmountKeepsPositive | account.go:20-23 | if every stored total is positive, it stays so after AddAmount |
| AccounterLemmas.AddAmountAccumulates | account.go:15-24 | two additions whose first result is positive return the old total plus both deltas |
| AccounterLemmas.AddAmountForgetsNonPositive | account.go:16-23 | a non-positive result is not stored, so the next addition starts again from the earlier total |

## Left out

- Accounter.AddAmount: requires the new total to stay within `int64`, because Go's `int64` wrap-around on `cur += amount` is not modelled.
- The error message text built with `fmt.Errorf`: errors are an enumeration of kinds.
- Go's nil-map panics (see above): both tables are modelled as allocated and starting empty, so the model does not promise that Block, Unblock and Credit behave on an account built by `NewAccount` as the Go code does.
- An identifier-to-account registry: account.go has none.
- Locking and concurrency: the Go code has none, and each operation is modelled as one atomic step.
