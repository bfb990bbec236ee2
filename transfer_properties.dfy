/** What the transfer endpoint guarantees, stated over `TransferSpec.Store`: which guard
    answers which request, that every rejection leaves the ledger as it was, and what a
    successful transfer writes. */
module TransferProperties {
  import opened Records
  import opened Validation
  import opened Catalog
  import opened Receiver
  import opened TransactionCode
  import opened Balances
  import opened Pairing
  import opened TransferSpec

  /** The request passes validation and the PIN check and names a receiver other than the
      sender whose wallet covers the amount. */
  predicate GuardsPass(st: State, sender: UserId, req: TransferRequest, pinChecker: string -> bool)
    requires SenderKnown(st, sender)
  {
    && Passes(req)
    && pinChecker(req.pin.value)
    && Resolve(st, req.sendTo.value).Some?
    && Resolve(st, req.sendTo.value).value != sender
    && st.wallets[sender].balance >= req.amount.value
  }

  // ---------------------------------------------------------------------------
  // The guard chain, in order. Each rejection leaves the ledger unchanged
  // (the `ensures` of `Store`); each lemma says exactly when its guard answers.

  /** A request that fails validation is answered with a validation error, and only such a request. */
  lemma ValidationRejected(st: State, sender: UserId, req: TransferRequest, pinChecker: string -> bool, random: string, fault: Fault)
    requires SenderKnown(st, sender) && IsRandomToken(random)
    ensures var r := Store(st, sender, req, pinChecker, random, fault);
            (r.outcome == ValidationError <==> !Passes(req)) && (!Passes(req) ==> r.state == st)
  {
  }

  /** An amount below 10000 is refused before anything else is looked at. */
  lemma SmallAmountRejected(st: State, sender: UserId, req: TransferRequest, pinChecker: string -> bool, random: string, fault: Fault)
    requires SenderKnown(st, sender) && IsRandomToken(random)
    requires req.amount.Some? && req.amount.value < MinAmount
    ensures Store(st, sender, req, pinChecker, random, fault) == Response(ValidationError, st)
  {
  }

  /** A valid request with a wrong PIN is answered "invalid pin", whatever its receiver and
      amount; reporting it takes precedence over every later guard. */
  lemma PinRejected(st: State, sender: UserId, req: TransferRequest, pinChecker: string -> bool, random: string, fault: Fault)
    requires SenderKnown(st, sender) && IsRandomToken(random)
    ensures var r := Store(st, sender, req, pinChecker, random, fault);
            r.outcome == InvalidPin <==> Passes(req) && !pinChecker(req.pin.value)
  {
  }

  /** "User not found" is the answer exactly when the PIN is right and no user with a wallet
      has the token as username or card number. */
  lemma ReceiverNotFound(st: State, sender: UserId, req: TransferRequest, pinChecker: string -> bool, random: string, fault: Fault)
    requires SenderKnown(st, sender) && IsRandomToken(random)
    ensures var r := Store(st, sender, req, pinChecker, random, fault);
            r.outcome == NotFound <==>
              Passes(req) && pinChecker(req.pin.value) && forall id :: !Matches(st, id, req.sendTo.value)
  {
  }

  /** A transfer whose token resolves to the sender is refused. */
  lemma SelfTransferRejected(st: State, sender: UserId, req: TransferRequest, pinChecker: string -> bool, random: string, fault: Fault)
    requires SenderKnown(st, sender) && IsRandomToken(random)
    ensures var r := Store(st, sender, req, pinChecker, random, fault);
            r.outcome == SelfTransfer <==>
              Passes(req) && pinChecker(req.pin.value) && Resolve(st, req.sendTo.value) == Some(sender)
  {
  }

  /** The balance guard refuses exactly when the sender's balance is below the amount. */
  lemma BalanceRejected(st: State, sender: UserId, req: TransferRequest, pinChecker: string -> bool, random: string, fault: Fault)
    requires SenderKnown(st, sender) && IsRandomToken(random)
    ensures var r := Store(st, sender, req, pinChecker, random, fault);
            r.outcome == InsufficientBalance <==>
              && Passes(req) && pinChecker(req.pin.value)
              && Resolve(st, req.sendTo.value).Some? && Resolve(st, req.sendTo.value).value != sender
              && st.wallets[sender].balance < req.amount.value
  {
  }

  /** Once every guard passes, the unit of work fails exactly when a catalog entry is
      missing or the storage layer faults, and a failure is indistinguishable from no write. */
  lemma WriteFailed(st: State, sender: UserId, req: TransferRequest, pinChecker: string -> bool, random: string, fault: Fault)
    requires SenderKnown(st, sender) && IsRandomToken(random)
    ensures var r := Store(st, sender, req, pinChecker, random, fault);
            && (r.outcome == Failed <==>
                  GuardsPass(st, sender, req, pinChecker)
                  && (SelectTypes(st.transactionTypes).None? || InternalPaymentMethod !in st.paymentMethods || fault.FaultAt?))
            && (r.outcome == Failed ==> r.state == st)
  {
  }

  /** A transfer succeeds exactly when every guard passes, both catalogs hold what the
      write reads, and nothing faults. */
  lemma TransferSucceeded(st: State, sender: UserId, req: TransferRequest, pinChecker: string -> bool, random: string, fault: Fault)
    requires SenderKnown(st, sender) && IsRandomToken(random)
    ensures var r := Store(st, sender, req, pinChecker, random, fault);
            r.outcome == Success <==>
              && GuardsPass(st, sender, req, pinChecker)
              && SelectTypes(st.transactionTypes).Some? && InternalPaymentMethod in st.paymentMethods
              && fault == NoFault
  {
  }

  /** A balance exactly equal to the amount is enough: the transfer goes through and
      leaves the sender at zero. */
  lemma ExactBalanceSucceeds(st: State, sender: UserId, req: TransferRequest, pinChecker: string -> bool, random: string)
    requires SenderKnown(st, sender) && IsRandomToken(random)
    requires Passes(req) && pinChecker(req.pin.value)
    requires Resolve(st, req.sendTo.value).Some? && Resolve(st, req.sendTo.value).value != sender
    requires st.wallets[sender].balance == req.amount.value
    requires SelectTypes(st.transactionTypes).Some? && InternalPaymentMethod in st.paymentMethods
    ensures var r := Store(st, sender, req, pinChecker, random, NoFault);
            r.outcome == Success && sender in r.state.wallets && r.state.wallets[sender].balance == 0
  {
  }

  // ---------------------------------------------------------------------------
  // What a successful transfer writes.

  /** The sender loses exactly the amount, the receiver gains exactly the amount, and every
      other wallet, every card number and the set of wallets stay as they were. */
  lemma SuccessMovesFunds(st: State, sender: UserId, req: TransferRequest, pinChecker: string -> bool, random: string, fault: Fault)
    requires SenderKnown(st, sender) && IsRandomToken(random)
    requires Store(st, sender, req, pinChecker, random, fault).outcome == Success
    ensures Passes(req) && Resolve(st, req.sendTo.value).Some?
    ensures var w, w' := st.wallets, Store(st, sender, req, pinChecker, random, fault).state.wallets;
            var receiver, amount := Resolve(st, req.sendTo.value).value, req.amount.value;
            && receiver != sender && receiver in w
            && w'.Keys == w.Keys
            && w'[sender] == w[sender].(balance := w[sender].balance - amount)
            && w'[receiver] == w[receiver].(balance := w[receiver].balance + amount)
            && w'[sender].balance + w'[receiver].balance == w[sender].balance + w[receiver].balance
            && (forall id :: id in w && id != sender && id != receiver ==> w'[id] == w[id])
  {
  }

  /** Money is neither created nor destroyed: the sum of all balances is the same after the
      transfer as before, whatever its outcome. */
  lemma TotalConserved(st: State, sender: UserId, req: TransferRequest, pinChecker: string -> bool, random: string, fault: Fault)
    requires SenderKnown(st, sender) && IsRandomToken(random)
    ensures TotalBalance(Store(st, sender, req, pinChecker, random, fault).state.wallets) == TotalBalance(st.wallets)
  {
    var r := Store(st, sender, req, pinChecker, random, fault);
    if r.outcome == Success {
      var receiver := Resolve(st, req.sendTo.value).value;
      TotalConservedByMove(st.wallets, sender, receiver, req.amount.value);
    }
  }

  /** No transfer makes a balance negative: a sender can only be debited down to zero, and
      the receiver only gains. */
  lemma NonNegativePreserved(st: State, sender: UserId, req: TransferRequest, pinChecker: string -> bool, random: string, fault: Fault)
    requires SenderKnown(st, sender) && IsRandomToken(random)
    requires NonNegative(st)
    ensures NonNegative(Store(st, sender, req, pinChecker, random, fault).state)
  {
    var r := Store(st, sender, req, pinChecker, random, fault);
    if r.outcome == Success {
      SuccessMovesFunds(st, sender, req, pinChecker, random, fault);
    }
  }

  /** A successful transfer appends exactly two transaction rows: the sender's, then the
      receiver's, with one fresh upper-case code, the requested amount, status "success" and
      the "bwa" payment method; the history gains exactly the row (sender, receiver, code);
      the users and the catalogs are untouched. */
  lemma SuccessAppendsRecords(st: State, sender: UserId, req: TransferRequest, pinChecker: string -> bool, random: string, fault: Fault)
    requires SenderKnown(st, sender) && IsRandomToken(random)
    requires Store(st, sender, req, pinChecker, random, fault).outcome == Success
    ensures Passes(req) && Resolve(st, req.sendTo.value).Some?
    ensures SelectTypes(st.transactionTypes).Some? && InternalPaymentMethod in st.paymentMethods
    ensures var st' := Store(st, sender, req, pinChecker, random, fault).state;
            var receiver, amount, code := Resolve(st, req.sendTo.value).value, req.amount.value, MintCode(random);
            var sides := SelectTypes(st.transactionTypes).value;
            var pm := st.paymentMethods[InternalPaymentMethod];
            && IsCode(code)
            && |st'.transactions| == |st.transactions| + 2
            && st'.transactions[..|st.transactions|] == st.transactions
            && st'.transactions[|st.transactions|]
                 == Transaction(sender, sides.transferSide, "Transfer funds to " + st.usernames[receiver],
                                amount, code, StatusSuccess, pm)
            && st'.transactions[|st.transactions| + 1]
                 == Transaction(receiver, sides.receiveSide, "Receive funds from " + st.usernames[sender],
                                amount, code, StatusSuccess, pm)
            && st'.histories == st.histories + [TransferHistory(sender, receiver, code)]
            && st'.usernames == st.usernames
            && st'.transactionTypes == st.transactionTypes
            && st'.paymentMethods == st.paymentMethods
  {
  }

  /** With both types in the catalog the sender's row is typed "transfer" and the
      receiver's "receive", because "receive" sorts first. */
  lemma SuccessTypesByCode(st: State, sender: UserId, req: TransferRequest, pinChecker: string -> bool, random: string, fault: Fault)
    requires SenderKnown(st, sender) && IsRandomToken(random)
    requires Store(st, sender, req, pinChecker, random, fault).outcome == Success
    requires ReceiveCode in st.transactionTypes && TransferCode in st.transactionTypes
    ensures var txs := Store(st, sender, req, pinChecker, random, fault).state.transactions;
            |txs| == |st.transactions| + 2
            && txs[|st.transactions|].transactionTypeId == st.transactionTypes[TransferCode]
            && txs[|st.transactions| + 1].transactionTypeId == st.transactionTypes[ReceiveCode]
  {
  }

  /** With only one of the two types in the catalog, both rows get that type: the ordered
      query then has a single row, which is both its first and its last. */
  lemma SingleTypeTagsBothRows(st: State, sender: UserId, req: TransferRequest, pinChecker: string -> bool, random: string, fault: Fault)
    requires SenderKnown(st, sender) && IsRandomToken(random)
    requires Store(st, sender, req, pinChecker, random, fault).outcome == Success
    requires (ReceiveCode in st.transactionTypes) != (TransferCode in st.transactionTypes)
    ensures var txs := Store(st, sender, req, pinChecker, random, fault).state.transactions;
            |txs| == |st.transactions| + 2
            && txs[|st.transactions|].transactionTypeId == txs[|st.transactions| + 1].transactionTypeId
  {
  }

  /** If no earlier row carries the minted code, a successful transfer leaves exactly two
      rows with it, and together with the new history row they form a backed pair. */
  lemma SuccessIsPaired(st: State, sender: UserId, req: TransferRequest, pinChecker: string -> bool, random: string, fault: Fault)
    requires SenderKnown(st, sender) && IsRandomToken(random)
    requires Store(st, sender, req, pinChecker, random, fault).outcome == Success
    requires CodeCount(st.transactions, MintCode(random)) == 0
    ensures var st' := Store(st, sender, req, pinChecker, random, fault).state;
            && CodeCount(st'.transactions, MintCode(random)) == 2
            && |st'.histories| == |st.histories| + 1
            && Backed(st'.transactions, st'.histories[|st.histories|], SelectTypes(st.transactionTypes).value)
  {
    var st' := Store(st, sender, req, pinChecker, random, fault).state;
    var code := MintCode(random);
    var n := |st.transactions|;
    var extra := st'.transactions[n..];
    assert st'.transactions == st.transactions + extra;
    CodeCountAppend(st.transactions, extra, code);
    assert CodeCount(extra, code) == 2 by {
      assert extra[1..][1..] == [];
    }
    assert SidesOf(st'.transactions, st'.histories[|st.histories|], SelectTypes(st.transactionTypes).value, n, n + 1);
  }

  /** The audit invariant survives every call whose minted code is fresh: each history row
      stays backed by exactly its two transaction rows. */
  lemma PairedPreserved(st: State, sender: UserId, req: TransferRequest, pinChecker: string -> bool, random: string, fault: Fault)
    requires SenderKnown(st, sender) && IsRandomToken(random)
    requires Paired(st)
    requires CodeCount(st.transactions, MintCode(random)) == 0
    ensures Paired(Store(st, sender, req, pinChecker, random, fault).state)
  {
    var r := Store(st, sender, req, pinChecker, random, fault);
    if r.outcome == Success {
      var st' := r.state;
      var sides := SelectTypes(st.transactionTypes).value;
      var n := |st.transactions|;
      var extra := st'.transactions[n..];
      assert st'.transactions == st.transactions + extra;
      forall k | 0 <= k < |st'.histories|
        ensures Backed(st'.transactions, st'.histories[k], sides)
      {
        if k < |st.histories| {
          assert st'.histories[k] == st.histories[k];
          BackedAfterAppend(st.transactions, extra, st.histories[k], sides, MintCode(random));
        } else {
          SuccessIsPaired(st, sender, req, pinChecker, random, fault);
        }
      }
    }
  }
}
