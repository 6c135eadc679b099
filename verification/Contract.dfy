/** The parking-space contract as the client sees it: the calls it can be
    sent and what it answers to reads at one moment. The contract's own
    state changes are not modelled; it only receives call descriptors. */
module Contract {
  import opened Common

  /** The tuple `getLot(i)` returns, component by component in position
      order: 0 lender, 1 renter, 2 sale price, 3 rent price, 4 deposit
      percentage, 5 return day (seconds), 6 rent time (seconds), 7 status. */
  datatype LotTuple = LotTuple(
    lender: Address,
    renter: Address,
    price: nat,
    rentPrice: nat,
    deposit: nat,
    returnDay: nat,
    rentTime: nat,
    status: nat)

  /** The state-changing entry points of the contract with their arguments. */
  datatype Call =
    | CreateLot(uri: string)
    | SetUnavailable(index: int)
    | SetSale(index: int, price: int)
    | SetRent(index: int, price: int, deposit: int)
    | BuyLot(index: int)
    | RentLot(index: int, time: int)
    | ClientEndRent(index: int)
    | LenderEndRent(index: int)

  /** One transaction: the sending account, the call and the attached value. */
  datatype Tx = Tx(from: Address, call: Call, value: nat)

  /** The answers the contract gives to reads, `None` where the read fails:
      `getParkingLotsLength`, `tokenURI(i)`, `getLot(i)`, `getMintFee` and
      `getRentPrice(index, time, status)`. */
  datatype Reads = Reads(
    lotCount: Option<nat>,
    tokenUri: int -> Option<string>,
    getLot: int -> Option<LotTuple>,
    mintFee: Option<nat>,
    rentPrice: (int, int, nat) -> Option<nat>)
}
