/** The transfer endpoint as a function from the ledger before the request to the
    outcome and the ledger after it. The guards run in the controller's order; the write
    either commits all five of its changes or, on any fault, none of them. */
module TransferSpec {
  import opened Records
  import opened Validation
  import opened Catalog
  import opened Receiver
  import opened TransactionCode

  /** The responses of the endpoint: 200, the 400 validation error, the 400 invalid PIN,
      the 404 unknown receiver, the 400 self transfer, the 400 insufficient balance and
      the 500 of a fault inside the unit of work. */
  datatype Outcome = Success | ValidationError | InvalidPin | NotFound | SelfTransfer | InsufficientBalance | Failed

  /** The statements of the unit of work, in order; the last one is the commit. */
  datatype WriteStep = CreateTransferTransaction | DebitSender | CreateReceiveTransaction | CreditReceiver | CreateHistory | Commit

  /** A fault the storage layer may raise during the unit of work: none, or the statement it
      raises at (that statement takes no effect). */
  datatype Fault = NoFault | FaultAt(step: WriteStep)

  datatype Response = Response(outcome: Outcome, state: State)

  /** The authenticated sender has a user row and a wallet. */
  predicate SenderKnown(st: State, sender: UserId)
  {
    sender in st.wallets && sender in st.usernames
  }

  /** The sender's side of the transfer. */
  function TransferRow(st: State, sender: UserId, receiver: UserId, amount: int, code: string, sides: TypeSides, pm: RowId): Transaction
    requires receiver in st.usernames
  {
    Transaction(sender, sides.transferSide, "Transfer funds to " + st.usernames[receiver], amount, code, StatusSuccess, pm)
  }

  /** The receiver's side of the transfer. */
  function ReceiveRow(st: State, sender: UserId, receiver: UserId, amount: int, code: string, sides: TypeSides, pm: RowId): Transaction
    requires sender in st.usernames
  {
    Transaction(receiver, sides.receiveSide, "Receive funds from " + st.usernames[sender], amount, code, StatusSuccess, pm)
  }

  /** `decrement('balance', amount)` on the wallet of `id`. */
  function Debit(w: map<UserId, Wallet>, id: UserId, amount: int): map<UserId, Wallet>
    requires id in w
  {
    w[id := w[id].(balance := w[id].balance - amount)]
  }

  /** `increment('balance', amount)` on the wallet of `id`. */
  function Credit(w: map<UserId, Wallet>, id: UserId, amount: int): map<UserId, Wallet>
    requires id in w
  {
    w[id := w[id].(balance := w[id].balance + amount)]
  }

  /** The ledger once the unit of work has committed. */
  function Committed(st: State, sender: UserId, receiver: UserId, amount: int, code: string, sides: TypeSides, pm: RowId): State
    requires SenderKnown(st, sender) && SenderKnown(st, receiver)
  {
    st.(wallets := Credit(Debit(st.wallets, sender, amount), receiver, amount),
        transactions := st.transactions
                        + [TransferRow(st, sender, receiver, amount, code, sides, pm),
                           ReceiveRow(st, sender, receiver, amount, code, sides, pm)],
        histories := st.histories + [TransferHistory(sender, receiver, code)])
  }

  /** The unit of work: read the catalogs, then commit, or roll back on any fault. The
      payment method is `PaymentMethod::where('code', 'bwa')->first()`; reading `->id` of
      the null row it gives when "bwa" is missing throws inside the unit of work. */
  function Write(st: State, sender: UserId, receiver: UserId, amount: int, code: string, fault: Fault): (r: Response)
    requires SenderKnown(st, sender) && SenderKnown(st, receiver)
    ensures r.outcome == Success || r.outcome == Failed
    ensures r.outcome == Failed <==> SelectTypes(st.transactionTypes).None?
                                     || InternalPaymentMethod !in st.paymentMethods || fault.FaultAt?
    ensures r.outcome == Failed ==> r.state == st
  {
    var sides := SelectTypes(st.transactionTypes);
    if sides.None? || InternalPaymentMethod !in st.paymentMethods || fault.FaultAt? then Response(Failed, st)
    else Response(Success, Committed(st, sender, receiver, amount, code, sides.value,
                                     st.paymentMethods[InternalPaymentMethod]))
  }

  /** `TransferController::store` for the authenticated `sender`. `pinChecker` stands for the
      PIN-hash comparison, `random` for the string `Str::random(10)` draws, and `fault` for
      whatever the storage layer raises during the unit of work. */
  function Store(st: State, sender: UserId, req: TransferRequest, pinChecker: string -> bool,
                 random: string, fault: Fault): (r: Response)
    requires SenderKnown(st, sender)
    requires IsRandomToken(random)
    ensures r.outcome != Success ==> r.state == st
  {
    if !Passes(req) then Response(ValidationError, st)
    else if !pinChecker(req.pin.value) then Response(InvalidPin, st)
    else
      var found := Resolve(st, req.sendTo.value);
      if found.None? then Response(NotFound, st)
      else if found.value == sender then Response(SelfTransfer, st)
      else if st.wallets[sender].balance < req.amount.value then Response(InsufficientBalance, st)
      else Write(st, sender, found.value, req.amount.value, MintCode(random), fault)
  }
}
