/** Shared vocabulary of the parking-space client: optional values, wallet
    addresses and the listing status codes the contract stores per lot. */
module Common {

  /** A value that may be missing (JavaScript's `undefined` / `null`). */
  datatype Option<+T> = None | Some(value: T)

  /** A wallet address as the wallet kit and the contract report it. */
  type Address = string

  /** The listing status of a lot. The contract stores it as a small
      integer; `Code` gives that integer. */
  datatype Status = Sale | Rent | Unavailable | Rented {
    function Code(): (c: nat)
      ensures c < 4
      ensures this == Sale <==> c == 0
      ensures this == Rent <==> c == 1
      ensures this == Unavailable <==> c == 2
      ensures this == Rented <==> c == 3
    {
      match this
      case Sale => 0
      case Rent => 1
      case Unavailable => 2
      case Rented => 3
    }
  }

  /** Reads a stored status integer; integers outside 0..3 name no status. */
  function StatusOf(code: int): (s: Option<Status>)
    ensures s.Some? <==> 0 <= code < 4
    ensures s.Some? ==> s.value.Code() == code
  {
    if code == 0 then Some(Sale)
    else if code == 1 then Some(Rent)
    else if code == 2 then Some(Unavailable)
    else if code == 3 then Some(Rented)
    else None
  }
}
