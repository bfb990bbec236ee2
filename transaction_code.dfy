/** The transaction code: `strtoupper(Str::random(10))`. The random string is an input
    of the model, so only its shape is known: ten ASCII letters and digits. */
module TransactionCode {

  /** The length of `Str::random(10)`. */
  const CodeLength: nat := 10

  predicate IsDigit(c: char) { '0' <= c <= '9' }
  predicate IsLower(c: char) { 'a' <= c <= 'z' }
  predicate IsUpper(c: char) { 'A' <= c <= 'Z' }

  /** What `Str::random(10)` can return: ten ASCII letters or digits. */
  predicate IsRandomToken(s: string)
  {
    |s| == CodeLength && forall i :: 0 <= i < |s| ==> IsDigit(s[i]) || IsLower(s[i]) || IsUpper(s[i])
  }

  /** A well-formed transaction code: ten upper-case ASCII letters or digits. */
  predicate IsCode(s: string)
  {
    |s| == CodeLength && forall i :: 0 <= i < |s| ==> IsDigit(s[i]) || IsUpper(s[i])
  }

  /** `strtoupper` on one character: ASCII lower-case letters are mapped to upper case. */
  function UpperChar(c: char): (u: char)
    ensures IsLower(c) ==> IsUpper(u) && u as int == c as int - 32
    ensures !IsLower(c) ==> u == c
  {
    if IsLower(c) then (c as int - 32) as char else c
  }

  /** `strtoupper` on a string. */
  function ToUpper(s: string): (r: string)
    ensures |r| == |s|
    ensures forall i :: 0 <= i < |s| ==> r[i] == UpperChar(s[i])
  {
    if s == [] then [] else [UpperChar(s[0])] + ToUpper(s[1..])
  }

  /** The code minted for a transfer from the random string drawn for it. */
  function MintCode(random: string): (code: string)
    requires IsRandomToken(random)
    ensures IsCode(code)
    ensures forall i :: 0 <= i < CodeLength ==>
              (IsLower(random[i]) ==> code[i] as int == random[i] as int - 32)
              && (!IsLower(random[i]) ==> code[i] == random[i])
  {
    ToUpper(random)
  }

  /** Upper-casing twice is upper-casing once: a minted code is already in its final form. */
  lemma ToUpperIdempotent(s: string)
    ensures ToUpper(ToUpper(s)) == ToUpper(s)
  {
  }
}
