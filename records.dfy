/** The tables the transfer endpoint reads and writes, as values.
    A database row becomes a datatype value; a table keyed by user id becomes a
    map; an append-only table becomes a sequence in insertion order. */
module Records {

  datatype Option<+T> = None | Some(value: T)

  /** Primary keys: user ids, transaction-type ids, payment-method ids. */
  type UserId = nat
  type RowId = nat

  /** A row of `wallets`: one per user, keyed by its owner's id. */
  datatype Wallet = Wallet(balance: int, cardNumber: string)

  /** A row of `transactions`: one side of a money movement. */
  datatype Transaction = Transaction(
    userId: UserId,
    transactionTypeId: RowId,
    description: string,
    amount: int,
    transactionCode: string,
    status: string,
    paymentMethodId: RowId)

  /** A row of `transfer_histories`: links the two sides of one transfer by code. */
  datatype TransferHistory = TransferHistory(senderId: UserId, receiverId: UserId, transactionCode: string)

  /** Everything the endpoint can observe.
      `usernames` is the `users` table (id to username); `transactionTypes` and
      `paymentMethods` are the reference catalogs, keyed by their `code` column. */
  datatype State = State(
    wallets: map<UserId, Wallet>,
    usernames: map<UserId, string>,
    transactionTypes: map<string, RowId>,
    paymentMethods: map<string, RowId>,
    transactions: seq<Transaction>,
    histories: seq<TransferHistory>)

  /** The status the endpoint writes on both ledger rows. */
  const StatusSuccess: string := "success"

  /** The code of the internal wallet payment method the endpoint settles through. */
  const InternalPaymentMethod: string := "bwa"

  /** Every wallet balance is non-negative. */
  ghost predicate NonNegative(st: State)
  {
    forall id :: id in st.wallets ==> st.wallets[id].balance >= 0
  }
}
