/** The eight client wrappers around the contract's entry points. Each one
    fixes the method called, its arguments and the attached value. Each
    catches and logs every error and returns normally: `None` here is "an
    error was logged and nothing was sent", and no wrapper reports a
    failure to its caller. Whether a sent transaction is later reverted is
    the contract's business and invisible to the client. */
module ParkingSpace {
  import opened Common
  import opened Units
  import Contract

  /** `createLot(uri)`: reads the mint fee and attaches exactly that fee. */
  function CreateLot(from: Address, uri: string, chain: Contract.Reads): (tx: Option<Contract.Tx>)
    ensures tx.Some? <==> chain.mintFee.Some?
    ensures tx.Some? ==> tx.value.from == from && tx.value.call == Contract.CreateLot(uri)
    ensures tx.Some? ==> tx.value.value == chain.mintFee.value
  {
    match chain.mintFee
    case Some(fee) => Some(Contract.Tx(from, Contract.CreateLot(uri), fee))
    case None => None
  }

  /** `setUnavailable(index)`: no value attached. */
  function SetUnavailable(from: Address, index: int): (tx: Contract.Tx)
    ensures tx.value == 0 && tx.call.SetUnavailable? && tx.call.index == index && tx.from == from
  {
    Contract.Tx(from, Contract.SetUnavailable(index), 0)
  }

  /** `setSale(index, price)`: the price text is scaled by `parseUnits`;
      text that does not parse is logged and nothing is sent. */
  function SetSale(from: Address, index: int, price: string): (tx: Option<Contract.Tx>)
    ensures tx.Some? <==> ParseUnits(price).Some?
    ensures tx.Some? ==> tx.value.value == 0 && tx.value.from == from
    ensures tx.Some? ==> tx.value.call == Contract.SetSale(index, ParseUnits(price).value)
  {
    match ParseUnits(price)
    case Some(wei) => Some(Contract.Tx(from, Contract.SetSale(index, wei), 0))
    case None => None
  }

  /** `setRent(index, price, deposit)`: the price is scaled by `parseUnits`,
      the deposit percentage is sent as given. */
  function SetRent(from: Address, index: int, price: string, deposit: int): (tx: Option<Contract.Tx>)
    ensures tx.Some? <==> ParseUnits(price).Some?
    ensures tx.Some? ==> tx.value.value == 0 && tx.value.from == from
    ensures tx.Some? ==> tx.value.call == Contract.SetRent(index, ParseUnits(price).value, deposit)
  {
    match ParseUnits(price)
    case Some(wei) => Some(Contract.Tx(from, Contract.SetRent(index, wei, deposit), 0))
    case None => None
  }

  /** `buyLot(index, price)`: the given price is attached as value. */
  function BuyLot(from: Address, index: int, price: nat): (tx: Contract.Tx)
    ensures tx.value == price && tx.call.BuyLot? && tx.call.index == index && tx.from == from
  {
    Contract.Tx(from, Contract.BuyLot(index), price)
  }

  /** `rentLot(index, time)`: quotes `getRentPrice(index, time, 1)` (status
      Rent) and attaches exactly the quote. */
  function RentLot(from: Address, index: int, time: int, chain: Contract.Reads): (tx: Option<Contract.Tx>)
    ensures tx.Some? <==> chain.rentPrice(index, time, Rent.Code()).Some?
    ensures tx.Some? ==> tx.value.from == from && tx.value.call == Contract.RentLot(index, time)
    ensures tx.Some? ==> tx.value.value == chain.rentPrice(index, time, 1).value
  {
    match chain.rentPrice(index, time, Rent.Code())
    case Some(quote) => Some(Contract.Tx(from, Contract.RentLot(index, time), quote))
    case None => None
  }

  /** `clientEndRent(index, time)`: quotes `getRentPrice(index, time, 3)`
      (status Rented), sends only the index and attaches the quote. */
  function ClientEndRent(from: Address, index: int, time: int, chain: Contract.Reads): (tx: Option<Contract.Tx>)
    ensures tx.Some? <==> chain.rentPrice(index, time, Rented.Code()).Some?
    ensures tx.Some? ==> tx.value.from == from && tx.value.call == Contract.ClientEndRent(index)
    ensures tx.Some? ==> tx.value.value == chain.rentPrice(index, time, 3).value
  {
    match chain.rentPrice(index, time, Rented.Code())
    case Some(quote) => Some(Contract.Tx(from, Contract.ClientEndRent(index), quote))
    case None => None
  }

  /** `lenderEndRent(index)`: no value attached. */
  function LenderEndRent(from: Address, index: int): (tx: Contract.Tx)
    ensures tx.value == 0 && tx.call.LenderEndRent? && tx.call.index == index && tx.from == from
  {
    Contract.Tx(from, Contract.LenderEndRent(index), 0)
  }

  /** A whole-unit sale price reaches the contract multiplied by 10^18. */
  lemma SetSaleScalesPrice(from: Address, index: int, units: nat)
    ensures SetSale(from, index, DecimalText(units))
         == Some(Contract.Tx(from, Contract.SetSale(index, units * WEI_PER_UNIT), 0))
  {
    ParseUnitsWhole(units);
  }

  /** A whole-unit rent price reaches the contract multiplied by 10^18 while
      the deposit percentage reaches it unchanged. */
  lemma SetRentScalesPriceOnly(from: Address, index: int, units: nat, deposit: int)
    ensures SetRent(from, index, DecimalText(units), deposit)
         == Some(Contract.Tx(from, Contract.SetRent(index, units * WEI_PER_UNIT, deposit), 0))
  {
    ParseUnitsWhole(units);
  }
}
