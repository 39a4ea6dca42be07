/** Values shared by every part of the resume parser model: outcomes, the
    exceptions the parser raises or passes on, and the decoded JSON document. */
module Basics {

  /** Either a value or the exception that replaced it. */
  datatype Result<+T, +E> = Success(value: T) | Failure(error: E)

  /** A value that may be absent. */
  datatype Option<+T> = None | Some(value: T)

  /** An exception as its catcher sees it: where it was raised and `str(e)`. */
  datatype Error =
    | ValueError(message: string)      // `raise ValueError(...)` in the parser itself
    | PlainException(message: string)  // `raise Exception(...)` in the parser itself
    | Foreign(message: string)         // raised by a collaborator: the model client or a file reader

  /** A document as `json.loads` returns it (numbers kept as their literal text). */
  datatype Json =
    | Null
    | Bool(b: bool)
    | Number(literal: string)
    | Str(s: string)
    | Array(items: seq<Json>)
    | Object(members: seq<(string, Json)>)

  predicate IsDigit(c: char) {
    '0' <= c <= '9'
  }

  /** The number a string of decimal digits denotes. */
  function DigitsValue(s: string): nat
    requires forall k :: 0 <= k < |s| ==> IsDigit(s[k])
  {
    if s == [] then 0
    else
      assert IsDigit(s[|s| - 1]);
      DigitsValue(s[..|s| - 1]) * 10 + (s[|s| - 1] as int - '0' as int)
  }

  /** `str(n)` for a natural number: its shortest decimal spelling. */
  function Decimal(n: nat): (r: string)
    ensures r != []
    ensures forall k :: 0 <= k < |r| ==> IsDigit(r[k])
    ensures r[0] == '0' ==> n == 0
    ensures DigitsValue(r) == n
  {
    var last := ['0' + ((n % 10) as char)];
    if n < 10 then last
    else
      var r := Decimal(n / 10) + last;
      assert r[..|r| - 1] == Decimal(n / 10);
      r
  }
}
