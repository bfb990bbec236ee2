/** Concrete transfers on a two-user ledger: alice (id 1, balance 50000) and bob
    (id 2, balance 5000, card 2222333344445555). */
module Scenarios {
  import opened Records
  import opened Validation
  import opened Catalog
  import opened Receiver
  import opened TransactionCode
  import opened TransferSpec
  import TransferProperties

  const Alice: UserId := 1
  const Bob: UserId := 2
  const BobCard: string := "2222333344445555"

  function Before(): State
  {
    State(map[Alice := Wallet(50000, "1111222233334444"), Bob := Wallet(5000, BobCard)],
          map[Alice := "alice", Bob := "bob"],
          map[ReceiveCode := 1, TransferCode := 2],
          map[InternalPaymentMethod := 1],
          [], [])
  }

  /** A PIN checker that accepts only 123456. */
  function AlicePin(pin: string): bool { pin == "123456" }

  const Random: string := "abcdEFGH12"

  /** The code minted from the random string upper-cases its letters. */
  lemma RandomCode()
    ensures MintCode(Random) == "ABCDEFGH12"
  {
  }

  function Request(amount: int, token: string): TransferRequest
  {
    TransferRequest(Some(amount), Some("123456"), Some(token))
  }

  /** The validator accepts a large enough amount, the PIN 123456 and a token that starts
      with a visible character. */
  lemma RequestPasses(amount: int, token: string)
    requires amount >= MinAmount && token != [] && !IsTrimmed(token[0])
    ensures Passes(Request(amount, token))
  {
    assert !IsTrimmed("123456"[0]);
  }

  /** "bob" and bob's card number both resolve to bob and only to him. */
  lemma BobResolves(token: string)
    requires token == "bob" || token == BobCard
    ensures Resolve(Before(), token) == Some(Bob)
  {
    var st := Before();
    assert Matches(st, Bob, token);
    assert !Matches(st, Alice, token);
    assert st.wallets.Keys == {Alice, Bob};
    ResolveUnique(st, token, Bob);
  }

  /** Alice sends 20000 to bob with the right PIN: the transfer succeeds. */
  lemma TransferToBob()
    ensures Store(Before(), Alice, Request(20000, "bob"), AlicePin, Random, NoFault).outcome == Success
  {
    RequestPasses(20000, "bob");
    BobResolves("bob");
    TransferProperties.TransferSucceeded(Before(), Alice, Request(20000, "bob"), AlicePin, Random, NoFault);
  }

  /** After it alice holds 30000 and bob 25000. */
  lemma TransferToBobBalances()
    ensures var w := Store(Before(), Alice, Request(20000, "bob"), AlicePin, Random, NoFault).state.wallets;
            Alice in w && Bob in w && w[Alice].balance == 30000 && w[Bob].balance == 25000
  {
    TransferToBob();
    BobResolves("bob");
    TransferProperties.SuccessMovesFunds(Before(), Alice, Request(20000, "bob"), AlicePin, Random, NoFault);
  }

  /** It writes two transaction rows and one history row, under the code "ABCDEFGH12". */
  lemma TransferToBobRecords()
    ensures var st := Store(Before(), Alice, Request(20000, "bob"), AlicePin, Random, NoFault).state;
            |st.transactions| == 2 && st.histories == [TransferHistory(Alice, Bob, "ABCDEFGH12")]
  {
    TransferToBob();
    BobResolves("bob");
    RandomCode();
    TransferProperties.SuccessAppendsRecords(Before(), Alice, Request(20000, "bob"), AlicePin, Random, NoFault);
  }

  /** 5000 is below the minimum: a validation error and no change. */
  lemma TooSmallAmount()
    ensures Store(Before(), Alice, Request(5000, "bob"), AlicePin, Random, NoFault)
            == Response(ValidationError, Before())
  {
  }

  /** A token that is no username and no card number: "user not found" and no change. */
  lemma UnknownReceiver()
    ensures Store(Before(), Alice, Request(20000, "carol"), AlicePin, Random, NoFault)
            == Response(NotFound, Before())
  {
    var st := Before();
    RequestPasses(20000, "carol");
    assert st.wallets.Keys == {Alice, Bob};
    assert !Matches(st, Alice, "carol") && !Matches(st, Bob, "carol");
    assert Resolve(st, "carol") == None;
  }

  /** A storage fault at the receiver's credit undoes the sender's debit and both
      transaction rows already written. */
  lemma FaultRollsBack()
    ensures Store(Before(), Alice, Request(20000, BobCard), AlicePin, Random, FaultAt(CreditReceiver))
            == Response(Failed, Before())
  {
    RequestPasses(20000, BobCard);
    BobResolves(BobCard);
  }
}
