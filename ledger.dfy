/** The transfer endpoint as code that changes the ledger in place: the guards return
    early, then a unit of work is opened (the ledger is saved), the five writes are made
    one after another, and the saved ledger is put back if any of them faults. */
module TransferEngine {
  import opened Records
  import opened Validation
  import opened Catalog
  import opened Receiver
  import opened TransactionCode
  import opened Balances
  import opened Pairing
  import opened TransferSpec
  import TransferProperties

  class Ledger {
    var wallets: map<UserId, Wallet>
    var usernames: map<UserId, string>
    var transactionTypes: map<string, RowId>
    var paymentMethods: map<string, RowId>
    var transactions: seq<Transaction>
    var histories: seq<TransferHistory>

    /** The tables as one value. */
    function Snapshot(): State
      reads this
    {
      State(wallets, usernames, transactionTypes, paymentMethods, transactions, histories)
    }

    constructor (st: State)
      ensures Snapshot() == st
    {
      wallets, usernames := st.wallets, st.usernames;
      transactionTypes, paymentMethods := st.transactionTypes, st.paymentMethods;
      transactions, histories := st.transactions, st.histories;
    }

    /** `Transaction::create` and `TransferHistory::create`: append a row. */
    method AppendTransaction(t: Transaction)
      modifies this`transactions
      ensures transactions == old(transactions) + [t]
    {
      transactions := transactions + [t];
    }

    method AppendHistory(h: TransferHistory)
      modifies this`histories
      ensures histories == old(histories) + [h]
    {
      histories := histories + [h];
    }

    /** `$senderWallet->decrement('balance', amount)`. */
    method Decrement(id: UserId, amount: int)
      requires id in wallets
      modifies this`wallets
      ensures wallets == Debit(old(wallets), id, amount)
    {
      wallets := wallets[id := wallets[id].(balance := wallets[id].balance - amount)];
    }

    /** `Wallet::where('user_id', id)->increment('balance', amount)`. */
    method Increment(id: UserId, amount: int)
      requires id in wallets
      modifies this`wallets
      ensures wallets == Credit(old(wallets), id, amount)
    {
      wallets := wallets[id := wallets[id].(balance := wallets[id].balance + amount)];
    }

    /** `DB::rollBack()`: put back the tables saved when the unit of work began. */
    method RollBack(saved: State)
      requires saved.usernames == usernames
      requires saved.transactionTypes == transactionTypes && saved.paymentMethods == paymentMethods
      modifies this`wallets, this`transactions, this`histories
      ensures Snapshot() == saved
    {
      wallets, transactions, histories := saved.wallets, saved.transactions, saved.histories;
    }

    /** `TransferController::store` for the authenticated `sender`. The outcome and the
        ledger afterwards are those of `TransferSpec.Store`, which is all-or-nothing: the
        step-by-step writes below, with the rollback, never leave a partial transfer. */
    method Store(sender: UserId, req: TransferRequest, pinChecker: string -> bool, random: string, fault: Fault)
      returns (outcome: Outcome)
      requires SenderKnown(Snapshot(), sender)
      requires IsRandomToken(random)
      modifies this`wallets, this`transactions, this`histories
      ensures Response(outcome, Snapshot()) == TransferSpec.Store(old(Snapshot()), sender, req, pinChecker, random, fault)
      ensures outcome != Success ==> Snapshot() == old(Snapshot())
      ensures TotalBalance(wallets) == TotalBalance(old(wallets))
      ensures old(NonNegative(Snapshot())) ==> NonNegative(Snapshot())
      ensures old(Paired(Snapshot())) && CodeCount(old(transactions), MintCode(random)) == 0 ==> Paired(Snapshot())
    {
      ghost var before := Snapshot();
      TransferProperties.TotalConserved(before, sender, req, pinChecker, random, fault);
      if NonNegative(before) {
        TransferProperties.NonNegativePreserved(before, sender, req, pinChecker, random, fault);
      }
      if Paired(before) && CodeCount(before.transactions, MintCode(random)) == 0 {
        TransferProperties.PairedPreserved(before, sender, req, pinChecker, random, fault);
      }

      if !Passes(req) {
        return ValidationError;
      }
      var found := Resolve(Snapshot(), req.sendTo.value);
      if !pinChecker(req.pin.value) {
        return InvalidPin;
      }
      if found.None? {
        return NotFound;
      }
      var receiver := found.value;
      if sender == receiver {
        return SelfTransfer;
      }
      var amount := req.amount.value;
      if wallets[sender].balance < amount {
        return InsufficientBalance;
      }

      outcome := UnitOfWork(sender, receiver, amount, MintCode(random), fault);
    }

    /** The `try` block: the catalog reads and the five writes between `DB::beginTransaction()`
        and `DB::commit()`, with `DB::rollBack()` on any fault. */
    method UnitOfWork(sender: UserId, receiver: UserId, amount: int, code: string, fault: Fault)
      returns (outcome: Outcome)
      requires SenderKnown(Snapshot(), sender) && SenderKnown(Snapshot(), receiver)
      requires sender != receiver
      modifies this`wallets, this`transactions, this`histories
      ensures Response(outcome, Snapshot()) == Write(old(Snapshot()), sender, receiver, amount, code, fault)
    {
      // DB::beginTransaction()
      var saved := Snapshot();
      var sides := SelectTypes(transactionTypes);
      if sides.None? || InternalPaymentMethod !in paymentMethods {
        RollBack(saved);
        return Failed;
      }
      var pm := paymentMethods[InternalPaymentMethod];

      if fault == FaultAt(CreateTransferTransaction) {
        RollBack(saved);
        return Failed;
      }
      AppendTransaction(TransferRow(saved, sender, receiver, amount, code, sides.value, pm));

      if fault == FaultAt(DebitSender) {
        RollBack(saved);
        return Failed;
      }
      Decrement(sender, amount);

      if fault == FaultAt(CreateReceiveTransaction) {
        RollBack(saved);
        return Failed;
      }
      AppendTransaction(ReceiveRow(saved, sender, receiver, amount, code, sides.value, pm));

      if fault == FaultAt(CreditReceiver) {
        RollBack(saved);
        return Failed;
      }
      Increment(receiver, amount);

      if fault == FaultAt(CreateHistory) {
        RollBack(saved);
        return Failed;
      }
      AppendHistory(TransferHistory(sender, receiver, code));

      // DB::commit()
      if fault == FaultAt(Commit) {
        RollBack(saved);
        return Failed;
      }
      assert fault == NoFault by {
        if fault.FaultAt? {
          match fault.step
          case CreateTransferTransaction =>
          case DebitSender =>
          case CreateReceiveTransaction =>
          case CreditReceiver =>
          case CreateHistory =>
          case Commit =>
        }
      }
      assert transactions == saved.transactions
        + [TransferRow(saved, sender, receiver, amount, code, sides.value, pm),
           ReceiveRow(saved, sender, receiver, amount, code, sides.value, pm)];
      outcome := Success;
    }
  }
}
