/** The lot card: which controls a viewer gets for a lot, the availability
    badge and the "rented by" line. Everything here is a condition over the
    viewer's address, the lot record, the contract's additional time and
    the current time (in milliseconds, as `Date.getTime` gives it). */
module Card {
  import opened Common
  import opened Units
  import Mint

  datatype Badge = AvailableBadge | UnavailableBadge

  /** The badge reads "Unavailable" for the codes of Unavailable and Rented
      and "Available" for every other code. */
  function BadgeFor(status: int): (b: Badge)
    ensures b == UnavailableBadge <==> StatusOf(status) == Some(Unavailable) || StatusOf(status) == Some(Rented)
    ensures b == AvailableBadge <==> StatusOf(status) == Some(Sale) || StatusOf(status) == Some(Rent) || StatusOf(status).None?
  {
    if status == 2 || status == 3 then UnavailableBadge else AvailableBadge
  }

  /** The rent window test `additionalTime + returnDay > now / 1000` with
      the sum read as numbers; multiplying by 1000 keeps it exact. */
  predicate RentWindowOpen(additionalTime: nat, returnDay: nat, nowMillis: nat) {
    1000 * (additionalTime + returnDay) > nowMillis
  }

  /** The same test as the card evaluates it once the additional time has
      been read from the contract: both values arrive as decimal text, `+`
      joins the two texts, and the comparison reads the joined digits as one
      number. Before the read, the additional time is the number 0, and
      0 + text gives "0" followed by the text, which is `additionalTime == 0`
      here. */
  predicate RentWindowOpenAsWritten(additionalTime: nat, returnDay: nat, nowMillis: nat) {
    DigitsConcat(DecimalText(additionalTime), DecimalText(returnDay));
    1000 * DigitsValue(DecimalText(additionalTime) + DecimalText(returnDay)) > nowMillis
  }

  /** The joined text denotes the additional time shifted left by the digits
      of the return day, plus the return day. */
  lemma JoinedTimes(additionalTime: nat, returnDay: nat)
    ensures AllDigits(DecimalText(additionalTime) + DecimalText(returnDay))
    ensures DigitsValue(DecimalText(additionalTime) + DecimalText(returnDay))
         == additionalTime * Pow10(|DecimalText(returnDay)|) + returnDay
  {
    DigitsConcat(DecimalText(additionalTime), DecimalText(returnDay));
    DecimalTextValue(additionalTime);
    DecimalTextValue(returnDay);
  }

  /** Before the additional time is read the two tests agree. */
  lemma AsWrittenAgreesUnloaded(returnDay: nat, nowMillis: nat)
    ensures RentWindowOpenAsWritten(0, returnDay, nowMillis) == RentWindowOpen(0, returnDay, nowMillis)
  {
    JoinedTimes(0, returnDay);
  }

  /** The joined reading never closes a window the sum keeps open. */
  lemma AsWrittenKeepsOpen(additionalTime: nat, returnDay: nat, nowMillis: nat)
    requires RentWindowOpen(additionalTime, returnDay, nowMillis)
    ensures RentWindowOpenAsWritten(additionalTime, returnDay, nowMillis)
  {
    JoinedTimes(additionalTime, returnDay);
    ShiftedAtLeastSum(additionalTime, Pow10(|DecimalText(returnDay)|), returnDay,
                      DigitsValue(DecimalText(additionalTime) + DecimalText(returnDay)));
  }

  /** Once a non-zero additional time is loaded, the joined reading keeps the
      window open until twice the return day, whatever the additional time. */
  lemma AsWrittenOpenUntilDoubleReturnDay(additionalTime: nat, returnDay: nat, nowMillis: nat)
    requires additionalTime >= 1
    requires nowMillis < 2000 * returnDay
    ensures RentWindowOpenAsWritten(additionalTime, returnDay, nowMillis)
  {
    JoinedTimes(additionalTime, returnDay);
    DecimalTextLength(returnDay);
    ShiftedAboveDouble(additionalTime, Pow10(|DecimalText(returnDay)|), returnDay,
                       DigitsValue(DecimalText(additionalTime) + DecimalText(returnDay)));
  }

  lemma ShiftedAtLeastSum(a: nat, p: nat, r: nat, v: nat)
    requires p >= 1 && v == a * p + r
    ensures v >= a + r
  {
    ScaleAtLeast(p, a);
  }

  lemma ShiftedAboveDouble(a: nat, p: nat, r: nat, v: nat)
    requires a >= 1 && r < p && v == a * p + r
    ensures v >= 2 * r + 1
  {
    ScaleAtLeast(a, p);
  }

  lemma ScaleAtLeast(k: nat, p: nat)
    requires k >= 1
    ensures k * p >= p
  {
  }

  /** One day of grace, a return day in November 2023 and a current time
      in January 2027: the window closed long ago, yet the card shows it
      open. */
  lemma AsWrittenCounterexample()
    ensures RentWindowOpenAsWritten(86400, 1700000000, 1800000000000)
    ensures !RentWindowOpen(86400, 1700000000, 1800000000000)
  {
    AsWrittenOpenUntilDoubleReturnDay(86400, 1700000000, 1800000000000);
  }

  /** The "rented by" line: status Rented while the rent window is open. */
  predicate ShowsRentedBy(lot: Mint.LotRecord, additionalTime: nat, nowMillis: nat): (shown: bool)
    ensures shown <==> StatusOf(lot.status) == Some(Rented) && nowMillis < 1000 * (additionalTime + lot.returnDay)
  {
    lot.status == 3 && RentWindowOpen(additionalTime, lot.returnDay, nowMillis)
  }

  /** The controls of a card, each with what it hands to its handler. */
  datatype Action =
    | ChangeStatus(index: int, currentStatus: int)
    | RentForm(index: int, rentPrice: nat, deposit: nat)
    | Buy(index: int)
    | EndRent(index: int, rentTime: nat)
    | Retrieve(index: int)

  /** The controls that list the lot: changing its status, renting it,
      buying it. */
  predicate IsListingControl(a: Action) {
    a.ChangeStatus? || a.RentForm? || a.Buy?
  }

  /** The controls a viewer gets for a lot, in the order the card shows
      them. */
  function Actions(viewer: Address, lot: Mint.LotRecord, additionalTime: nat, nowMillis: nat): (acts: seq<Action>)
    ensures |acts| <= 2
    ensures forall a :: a in acts ==> a.index == lot.index
    ensures forall a :: a in acts && a.ChangeStatus? ==> a.currentStatus == lot.status
    ensures forall a :: a in acts && a.RentForm? ==> a.rentPrice == lot.rentPrice && a.deposit == lot.deposit
    ensures forall a :: a in acts && a.EndRent? ==> a.rentTime == lot.rentTime
    // at most one listing control, and the lender is never offered rent or purchase
    ensures forall i, j :: 0 <= i < j < |acts| ==> !(IsListingControl(acts[i]) && IsListingControl(acts[j]))
    ensures viewer == lot.lender ==> forall a :: a in acts ==> !a.RentForm? && !a.Buy?
    // the change-status control always stands alone
    ensures (exists a :: a in acts && a.ChangeStatus?) ==> |acts| == 1
    // retrieving is only offered while the "rented by" line is shown
    ensures (exists a :: a in acts && a.Retrieve?) ==> ShowsRentedBy(lot, additionalTime, nowMillis)
  {
    (if viewer == lot.lender && lot.status != 3 then [ChangeStatus(lot.index, lot.status)] else [])
    + (if viewer != lot.lender && lot.status == 1 then [RentForm(lot.index, lot.rentPrice, lot.deposit)] else [])
    + (if viewer != lot.lender && lot.status == 0 then [Buy(lot.index)] else [])
    + (if viewer == lot.renter && lot.status == 3 then [EndRent(lot.index, lot.rentTime)] else [])
    + (if viewer == lot.lender && lot.status == 3 && RentWindowOpen(additionalTime, lot.returnDay, nowMillis)
       then [Retrieve(lot.index)] else [])
  }

  /** With the sum read as numbers, the "rented by" line and the Retrieve
      control both disappear once the current time reaches the return day
      plus the additional time. */
  lemma WindowClosesAtDeadline(viewer: Address, lot: Mint.LotRecord, additionalTime: nat, nowMillis: nat)
    requires nowMillis >= 1000 * (additionalTime + lot.returnDay)
    ensures !ShowsRentedBy(lot, additionalTime, nowMillis)
    ensures forall a :: a in Actions(viewer, lot, additionalTime, nowMillis) ==> !a.Retrieve?
  {
  }

  /** Each control, read against the listing status: exactly when it is
      shown. */
  lemma ActionsByStatus(viewer: Address, lot: Mint.LotRecord, additionalTime: nat, nowMillis: nat)
    ensures var acts := Actions(viewer, lot, additionalTime, nowMillis);
      && ((exists a :: a in acts && a.ChangeStatus?) <==> viewer == lot.lender && StatusOf(lot.status) != Some(Rented))
      && ((exists a :: a in acts && a.RentForm?) <==> viewer != lot.lender && StatusOf(lot.status) == Some(Rent))
      && ((exists a :: a in acts && a.Buy?) <==> viewer != lot.lender && StatusOf(lot.status) == Some(Sale))
      && ((exists a :: a in acts && a.EndRent?) <==> viewer == lot.renter && StatusOf(lot.status) == Some(Rented))
      && ((exists a :: a in acts && a.Retrieve?)
           <==> viewer == lot.lender && StatusOf(lot.status) == Some(Rented)
                && RentWindowOpen(additionalTime, lot.returnDay, nowMillis))
  {
    var acts := Actions(viewer, lot, additionalTime, nowMillis);
    if viewer == lot.lender && lot.status != 3 {
      assert acts[0] == ChangeStatus(lot.index, lot.status);
    }
    if viewer != lot.lender && lot.status == 1 {
      assert acts[0] == RentForm(lot.index, lot.rentPrice, lot.deposit);
    }
    if viewer != lot.lender && lot.status == 0 {
      assert acts[0] == Buy(lot.index);
    }
    if viewer == lot.renter && lot.status == 3 {
      assert acts[0] == EndRent(lot.index, lot.rentTime);
    }
    if viewer == lot.lender && lot.status == 3 && RentWindowOpen(additionalTime, lot.returnDay, nowMillis) {
      assert acts[|acts| - 1] == Retrieve(lot.index);
    }
  }
}
