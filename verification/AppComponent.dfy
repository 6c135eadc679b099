/** The page component: the list of loaded lots, the handlers the cards call,
    and the decision of which status-changing call a confirmed form issues.
    The contract is reached only through call descriptors; `submitted` keeps
    every transaction the page has handed to the wallet, in order. */
module AppComponent {
  import opened Common
  import opened Units
  import Contract
  import ParkingSpace
  import Mint

  /** The value of the status select: the number 0 it starts with, or the
      value text of the option picked. */
  datatype Selection = Unselected | Picked(value: string)

  const SALE: string := "sale"
  const RENT: string := "rent"
  const UNAVAILABLE: string := "unavailable"

  /** `newPrice >= 1` on the price text: the amount it names is at least one
      whole currency unit. */
  predicate PriceAtLeastOne(price: string) {
    ParseUnits(price).Some? && ParseUnits(price).value >= WEI_PER_UNIT
  }

  /** `newDeposit >= 0 && newDeposit <= 100`. */
  predicate DepositInRange(deposit: int) {
    0 <= deposit <= 100
  }

  /** Which branch of `handleChangeStatus` runs. */
  datatype Decision = IssueSale | IssueRent | IssueUnavailable | Alert

  /** The guard chain of `handleChangeStatus`: sale with a price of at least
      one unit, rent with such a price and a deposit percentage in 0..100,
      unavailable whatever the price and deposit, and an alert for every
      other input. */
  function Decide(choice: Selection, price: string, deposit: int): (d: Decision)
    ensures d == IssueSale <==> choice == Picked(SALE) && PriceAtLeastOne(price)
    ensures d == IssueRent <==> choice == Picked(RENT) && PriceAtLeastOne(price) && DepositInRange(deposit)
    ensures d == IssueUnavailable <==> choice == Picked(UNAVAILABLE)
    ensures choice.Unselected? ==> d == Alert
  {
    if choice == Picked(SALE) && PriceAtLeastOne(price) then IssueSale
    else if choice == Picked(RENT) && PriceAtLeastOne(price) && DepositInRange(deposit) then IssueRent
    else if choice == Picked(UNAVAILABLE) then IssueUnavailable
    else Alert
  }

  function AsSeq<T>(o: Option<T>): (s: seq<T>)
    ensures |s| <= 1
  {
    match o
    case Some(x) => [x]
    case None => []
  }

  /** The transactions one confirmed status change sends. */
  function ChangeStatusCalls(choice: Selection, price: string, deposit: int, index: int, from: Address)
    : (calls: seq<Contract.Tx>)
    ensures |calls| <= 1
    ensures calls == [] <==> Decide(choice, price, deposit) == Alert
    ensures forall tx :: tx in calls ==> tx.from == from && tx.value == 0
    // each branch sends its own call: the price scaled by `parseUnits`, the
    // deposit percentage as given
    ensures Decide(choice, price, deposit) == IssueSale ==>
      calls == [Contract.Tx(from, Contract.SetSale(index, ParseUnits(price).value), 0)]
    ensures Decide(choice, price, deposit) == IssueRent ==>
      calls == [Contract.Tx(from, Contract.SetRent(index, ParseUnits(price).value, deposit), 0)]
    ensures Decide(choice, price, deposit) == IssueUnavailable ==>
      calls == [Contract.Tx(from, Contract.SetUnavailable(index), 0)]
  {
    match Decide(choice, price, deposit)
    case IssueSale => AsSeq(ParkingSpace.SetSale(from, index, price))
    case IssueRent => AsSeq(ParkingSpace.SetRent(from, index, price, deposit))
    case IssueUnavailable => [ParkingSpace.SetUnavailable(from, index)]
    case Alert => []
  }

  /** A sale at a whole price of at least one unit sends exactly one
      `setSale` with the price scaled by 10^18. */
  lemma SaleDispatch(units: nat, deposit: int, index: int, from: Address)
    requires units >= 1
    ensures ChangeStatusCalls(Picked(SALE), DecimalText(units), deposit, index, from)
         == [Contract.Tx(from, Contract.SetSale(index, units * WEI_PER_UNIT), 0)]
  {
    ParkingSpace.SetSaleScalesPrice(from, index, units);
  }

  /** A whole sale price of zero is refused. */
  lemma SaleZeroPriceRefused(deposit: int, index: int, from: Address)
    ensures ChangeStatusCalls(Picked(SALE), DecimalText(0), deposit, index, from) == []
  {
    ParseUnitsWhole(0);
  }

  /** Rent at a whole price of at least one unit: deposit percentages 0 and
      100 are accepted and sent unscaled, -1 and 101 are refused. */
  lemma RentDepositBoundaries(units: nat, index: int, from: Address)
    requires units >= 1
    ensures ChangeStatusCalls(Picked(RENT), DecimalText(units), 0, index, from)
         == [Contract.Tx(from, Contract.SetRent(index, units * WEI_PER_UNIT, 0), 0)]
    ensures ChangeStatusCalls(Picked(RENT), DecimalText(units), 100, index, from)
         == [Contract.Tx(from, Contract.SetRent(index, units * WEI_PER_UNIT, 100), 0)]
    ensures ChangeStatusCalls(Picked(RENT), DecimalText(units), -1, index, from) == []
    ensures ChangeStatusCalls(Picked(RENT), DecimalText(units), 101, index, from) == []
  {
    ParkingSpace.SetRentScalesPriceOnly(from, index, units, 0);
    ParkingSpace.SetRentScalesPriceOnly(from, index, units, 100);
  }

  /** Unavailable sends `setUnavailable` whatever the price and deposit. */
  lemma UnavailableIgnoresPriceAndDeposit(price: string, deposit: int, index: int, from: Address)
    ensures ChangeStatusCalls(Picked(UNAVAILABLE), price, deposit, index, from)
         == [Contract.Tx(from, Contract.SetUnavailable(index), 0)]
  {
  }

  /** `time * 24 * 3600`: days to seconds. */
  function DaysToSeconds(days: int): (seconds: int)
    ensures seconds == days * 86400
    ensures days >= 0 ==> seconds >= 0
  {
    days * 24 * 3600
  }

  /** The toast a handler shows when it finishes. */
  datatype Notice = Succeeded | Failed

  /** The list after a reload: the loaded records, `undefined` when
      `getNfts` failed, and no change while the load never settles. */
  function Reloaded(current: Option<seq<Mint.LotRecord>>, outcome: Mint.LoadOutcome)
    : (next: Option<seq<Mint.LotRecord>>)
    ensures outcome.Loaded? ==> next == Some(outcome.records)
    ensures outcome.LoadFailed? ==> next.None?
    ensures outcome.NeverSettles? ==> next == current
  {
    match outcome
    case Loaded(rs) => Some(rs)
    case LoadFailed => None
    case NeverSettles => current
  }

  /** The record a card's Buy button names by its index is the record at
      that position of a loaded list, so `nfts[index].price` is that lot's
      own sale price. */
  lemma BuyFindsOwnRecord(chain: Contract.Reads, ipfs: Mint.Ipfs, k: nat)
    requires Mint.Load(chain, ipfs).Loaded?
    requires k < |Mint.Load(chain, ipfs).records|
    ensures var rs := Mint.Load(chain, ipfs).records;
      rs[k].index < |rs| && rs[rs[k].index] == rs[k]
  {
    Mint.LoadedIndexIsPosition(chain, ipfs);
  }

  class App {
    /** `nfts`: the lots on the page; `None` is `undefined`. */
    var nfts: Option<seq<Mint.LotRecord>>
    /** Every transaction handed to the wallet so far, oldest first. */
    var submitted: seq<Contract.Tx>

    constructor ()
      ensures nfts == Some([]) && submitted == []
    {
      nfts := Some([]);
      submitted := [];
    }

    method Submit(tx: Option<Contract.Tx>)
      modifies this`submitted
      ensures submitted == old(submitted) + AsSeq(tx)
    {
      if tx.Some? {
        submitted := submitted + [tx.value];
      }
    }

    /** `getLots`: reload every lot from the contract. */
    method GetLots(chain: Contract.Reads, ipfs: Mint.Ipfs)
      modifies this`nfts
      ensures nfts == Reloaded(old(nfts), Mint.Load(chain, ipfs))
    {
      var outcome := Mint.GetNfts(chain, ipfs);
      match outcome {
        case Loaded(rs) => nfts := Some(rs);
        case LoadFailed => nfts := None;
        case NeverSettles =>
      }
    }

    /** `handleChangeStatus(newStatus, newPrice, newDeposit, index)`: at most
        one status call, an alert for every other input, then a reload and
        the success toast in every case, because the wrappers swallow their
        errors. `after` is the contract as the reload reads it. */
    method HandleChangeStatus(choice: Selection, price: string, deposit: int, index: int, from: Address,
                              after: Contract.Reads, ipfs: Mint.Ipfs)
      returns (alerted: bool, note: Notice)
      modifies this
      ensures submitted == old(submitted) + ChangeStatusCalls(choice, price, deposit, index, from)
      ensures |submitted| <= |old(submitted)| + 1
      ensures alerted <==> Decide(choice, price, deposit) == Alert
      ensures note == Succeeded
      ensures nfts == Reloaded(old(nfts), Mint.Load(after, ipfs))
    {
      alerted := false;
      if choice == Picked(SALE) && PriceAtLeastOne(price) {
        Submit(ParkingSpace.SetSale(from, index, price));
      } else if choice == Picked(RENT) && PriceAtLeastOne(price) && DepositInRange(deposit) {
        Submit(ParkingSpace.SetRent(from, index, price, deposit));
      } else if choice == Picked(UNAVAILABLE) {
        Submit(Some(ParkingSpace.SetUnavailable(from, index)));
      } else {
        alerted := true;
      }
      GetLots(after, ipfs);
      note := Succeeded;
    }

    /** `buyCurrentLot(index)`: pays `nfts[index].price`. Looking up a
        position the list does not have throws, which shows the failure
        toast and sends nothing. */
    method BuyCurrentLot(index: int, from: Address, after: Contract.Reads, ipfs: Mint.Ipfs)
      returns (note: Notice)
      modifies this
      ensures old(nfts).Some? && 0 <= index < |old(nfts).value| ==>
        && submitted == old(submitted) + [ParkingSpace.BuyLot(from, index, old(nfts).value[index].price)]
        && nfts == Reloaded(old(nfts), Mint.Load(after, ipfs))
        && note == Succeeded
      ensures !(old(nfts).Some? && 0 <= index < |old(nfts).value|) ==>
        submitted == old(submitted) && nfts == old(nfts) && note == Failed
    {
      if nfts.None? || !(0 <= index < |nfts.value|) {
        return Failed;
      }
      var price := nfts.value[index].price;
      Submit(Some(ParkingSpace.BuyLot(from, index, price)));
      GetLots(after, ipfs);
      note := Succeeded;
    }

    /** `rentCurrentLot(index, time)`: converts the days to seconds and rents
        for that many seconds. */
    method RentCurrentLot(index: int, days: int, from: Address, chain: Contract.Reads,
                          after: Contract.Reads, ipfs: Mint.Ipfs)
      returns (note: Notice)
      modifies this
      ensures submitted == old(submitted) + AsSeq(ParkingSpace.RentLot(from, index, DaysToSeconds(days), chain))
      ensures nfts == Reloaded(old(nfts), Mint.Load(after, ipfs))
      ensures note == Succeeded
    {
      var time := days;
      time := time * 24 * 3600;
      Submit(ParkingSpace.RentLot(from, index, time, chain));
      GetLots(after, ipfs);
      note := Succeeded;
    }

    /** `endRentClient(index, time)`. */
    method EndRentClient(index: int, time: int, from: Address, chain: Contract.Reads,
                         after: Contract.Reads, ipfs: Mint.Ipfs)
      returns (note: Notice)
      modifies this
      ensures submitted == old(submitted) + AsSeq(ParkingSpace.ClientEndRent(from, index, time, chain))
      ensures nfts == Reloaded(old(nfts), Mint.Load(after, ipfs))
      ensures note == Succeeded
    {
      Submit(ParkingSpace.ClientEndRent(from, index, time, chain));
      GetLots(after, ipfs);
      note := Succeeded;
    }

    /** `endRentLender(index)`. */
    method EndRentLender(index: int, from: Address, after: Contract.Reads, ipfs: Mint.Ipfs)
      returns (note: Notice)
      modifies this
      ensures submitted == old(submitted) + [ParkingSpace.LenderEndRent(from, index)]
      ensures nfts == Reloaded(old(nfts), Mint.Load(after, ipfs))
      ensures note == Succeeded
    {
      Submit(Some(ParkingSpace.LenderEndRent(from, index)));
      GetLots(after, ipfs);
      note := Succeeded;
    }

    /** `createLot(data)`: mint through `createNft`, then reload. A
        rejection from `createNft` skips the reload and shows the failure
        toast. */
    method CreateLot(location: string, description: string, ipfsUrl: string, from: Address,
                     actionsRun: bool, chain: Contract.Reads, after: Contract.Reads, ipfs: Mint.Ipfs)
      returns (note: Notice)
      modifies this
      ensures var run := Mint.CreateNft(location, description, ipfsUrl, from, actionsRun, chain, ipfs);
        submitted == old(submitted) + (if run.Uploaded? then AsSeq(run.tx) else [])
      ensures actionsRun ==> nfts == Reloaded(old(nfts), Mint.Load(after, ipfs)) && note == Succeeded
      ensures !actionsRun ==> nfts == old(nfts) && note == Failed
    {
      var run := Mint.CreateNft(location, description, ipfsUrl, from, actionsRun, chain, ipfs);
      if run.Rejected? {
        return Failed;
      }
      if run.Uploaded? {
        Submit(run.tx);
      }
      GetLots(after, ipfs);
      note := Succeeded;
    }
  }
}
