/** Resolving the recipient token: the users joined with their wallets, filtered by
    `users.username = token OR wallets.card_number = token`, first row taken. */
module Receiver {
  import opened Records

  /** User `id` is a row of the join and matches `token` by username or by card number. */
  predicate Matches(st: State, id: UserId, token: string)
  {
    id in st.wallets && id in st.usernames
    && (st.usernames[id] == token || st.wallets[id].cardNumber == token)
  }

  /** Every non-empty set of ids has a least element. */
  lemma {:induction false} LeastExists(s: set<UserId>)
    requires s != {}
    ensures exists m :: m in s && forall x :: x in s ==> m <= x
    decreases s
  {
    var y :| y in s;
    var rest := s - {y};
    if rest == {} {
      forall x | x in s ensures y <= x {
        assert x !in rest;
      }
    } else {
      LeastExists(rest);
      var m :| m in rest && forall x :: x in rest ==> m <= x;
      var least := if y < m then y else m;
      forall x | x in s ensures least <= x {
        if x != y { assert x in rest; }
      }
      assert least in s;
    }
  }

  /** The least element of a non-empty set of ids. */
  function Least(s: set<UserId>): (m: UserId)
    requires s != {}
    ensures m in s && forall x :: x in s ==> m <= x
  {
    LeastExists(s);
    var m :| m in s && forall x :: x in s ==> m <= x;
    m
  }

  /** The receiver the query returns. The query has no ORDER BY, so the database's row
      order decides among several matches; this model takes the least user id. */
  function Resolve(st: State, token: string): (r: Option<UserId>)
    ensures r.Some? ==> Matches(st, r.value, token)
    ensures r.Some? ==> forall id :: Matches(st, id, token) ==> r.value <= id
    ensures r.None? <==> forall id :: !Matches(st, id, token)
  {
    var c := set id | id in st.wallets.Keys && Matches(st, id, token);
    assert forall id :: id in c <==> Matches(st, id, token);
    if c == {} then None else Some(Least(c))
  }

  /** When exactly one user matches the token, that user is the receiver, whatever order
      the database returns rows in. */
  lemma ResolveUnique(st: State, token: string, id: UserId)
    requires Matches(st, id, token)
    requires forall other :: Matches(st, other, token) ==> other == id
    ensures Resolve(st, token) == Some(id)
  {
  }

  /** A found receiver has a wallet and a username, and one of them spells the token. */
  lemma ResolvedHasWallet(st: State, token: string)
    requires Resolve(st, token).Some?
    ensures Resolve(st, token).value in st.wallets
    ensures Resolve(st, token).value in st.usernames
    ensures st.usernames[Resolve(st, token).value] == token
            || st.wallets[Resolve(st, token).value].cardNumber == token
  {
  }
}
