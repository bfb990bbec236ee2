/** Reading the transaction-type catalog inside the transfer's unit of work: the two
    types are fetched with `whereIn('code', ['receive', 'transfer'])` ordered by code. */
module Catalog {
  import opened Records

  const ReceiveCode: string := "receive"
  const TransferCode: string := "transfer"

  /** The type ids the two ledger rows get: the receiver's row takes the first row of
      the ordered query result, the sender's row takes the last. */
  datatype TypeSides = TypeSides(receiveSide: RowId, transferSide: RowId)

  /** Lexicographic order on codes, the order `orderBy('code', 'asc')` sorts by. */
  predicate CodeBefore(a: string, b: string)
  {
    if a == [] then b != []
    else if b == [] then false
    else a[0] < b[0] || (a[0] == b[0] && CodeBefore(a[1..], b[1..]))
  }

  /** "receive" sorts strictly before "transfer", so it is the first row of the query. */
  lemma ReceiveSortsFirst()
    ensures CodeBefore(ReceiveCode, TransferCode) && !CodeBefore(TransferCode, ReceiveCode)
  {
  }

  /** The ordered result of the type query: the ids of whichever of the two codes exist,
      in ascending order of code, so a "receive" row comes before a "transfer" row. */
  function OrderedTypeIds(types: map<string, RowId>): (ids: seq<RowId>)
    ensures |ids| <= 2
    ensures ids == [] <==> ReceiveCode !in types && TransferCode !in types
    ensures ids == (if ReceiveCode in types then [types[ReceiveCode]] else [])
                   + (if TransferCode in types then [types[TransferCode]] else [])
    ensures |ids| == 2 ==> CodeBefore(ReceiveCode, TransferCode)
  {
    ReceiveSortsFirst();
    (if ReceiveCode in types then [types[ReceiveCode]] else [])
      + (if TransferCode in types then [types[TransferCode]] else [])
  }

  /** `$transactionType->first()` and `->last()`; `None` when the query finds no row,
      where reading `->id` of the missing row throws inside the unit of work. */
  function SelectTypes(types: map<string, RowId>): (r: Option<TypeSides>)
    ensures r.None? <==> ReceiveCode !in types && TransferCode !in types
    ensures ReceiveCode in types && TransferCode in types ==>
              r == Some(TypeSides(types[ReceiveCode], types[TransferCode]))
    ensures ReceiveCode in types && TransferCode !in types ==>
              r == Some(TypeSides(types[ReceiveCode], types[ReceiveCode]))
    ensures ReceiveCode !in types && TransferCode in types ==>
              r == Some(TypeSides(types[TransferCode], types[TransferCode]))
  {
    var ids := OrderedTypeIds(types);
    if ids == [] then None else Some(TypeSides(ids[0], ids[|ids| - 1]))
  }
}
