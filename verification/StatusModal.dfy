/** The change-status form a lender opens from a card: the select with one
    option per target status (the current one disabled), the price and
    deposit fields, and the confirm button that hands the form's values to
    the page's `handleChangeStatus`. */
module StatusModal {
  import opened Common
  import opened Units
  import Contract
  import Mint
  import opened AppComponent

  /** One option of the select: its value text, the status it names (none
      for the "Status" placeholder) and whether it is disabled. */
  datatype StatusOption = StatusOption(value: string, target: Option<Status>, disabled: bool)

  /** The options for a lot whose current status code is `currentStatus`. */
  function Options(currentStatus: int): (opts: seq<StatusOption>)
    ensures |opts| == 4
    ensures opts[0] == StatusOption("Status", None, false)
    ensures opts[1].value == SALE && opts[1].target == Some(Sale)
    ensures opts[2].value == RENT && opts[2].target == Some(Rent)
    ensures opts[3].value == UNAVAILABLE && opts[3].target == Some(Unavailable)
    // an option is disabled exactly when it names the current status
    ensures forall k :: 0 <= k < 4 ==> (opts[k].disabled <==> opts[k].target.Some? && opts[k].target == StatusOf(currentStatus))
  {
    [ StatusOption("Status", None, false),
      StatusOption(SALE, Some(Sale), currentStatus == 0),
      StatusOption(RENT, Some(Rent), currentStatus == 1),
      StatusOption(UNAVAILABLE, Some(Unavailable), currentStatus == 2) ]
  }

  /** The values the select can take: those of the enabled options. */
  predicate Selectable(currentStatus: int, value: string) {
    exists k :: 0 <= k < 4 && Options(currentStatus)[k].value == value && !Options(currentStatus)[k].disabled
  }

  function DisabledCount(opts: seq<StatusOption>): nat {
    if opts == [] then 0 else (if opts[0].disabled then 1 else 0) + DisabledCount(opts[1..])
  }

  /** For Sale, Rent and Unavailable exactly one option is disabled, the one
      naming that status; for Rented (and any other code) none is. */
  lemma DisabledOptions(currentStatus: int)
    ensures DisabledCount(Options(currentStatus)) == if 0 <= currentStatus <= 2 then 1 else 0
    ensures currentStatus == Rented.Code() ==> forall v :: v in [SALE, RENT, UNAVAILABLE] ==> Selectable(currentStatus, v)
  {
    var opts := Options(currentStatus);
    var o1 := opts[1..];
    var o2 := o1[1..];
    var o3 := o2[1..];
    assert o3[1..] == [];
    assert DisabledCount(o3) == if currentStatus == 2 then 1 else 0;
    assert DisabledCount(o2) == if 1 <= currentStatus <= 2 then 1 else 0;
    assert DisabledCount(o1) == if 0 <= currentStatus <= 2 then 1 else 0;
    if currentStatus == 3 {
      assert !opts[1].disabled && !opts[2].disabled && !opts[3].disabled;
    }
  }

  /** The option values are exactly the ones the dispatcher knows: with an
      acceptable price and deposit, each named option issues the call for
      its own status and the placeholder raises the alert. */
  lemma OptionsMatchDispatcher(currentStatus: int, price: string, deposit: int)
    requires PriceAtLeastOne(price) && DepositInRange(deposit)
    ensures Decide(Picked(Options(currentStatus)[0].value), price, deposit) == Alert
    ensures Decide(Picked(Options(currentStatus)[1].value), price, deposit) == IssueSale
    ensures Decide(Picked(Options(currentStatus)[2].value), price, deposit) == IssueRent
    ensures Decide(Picked(Options(currentStatus)[3].value), price, deposit) == IssueUnavailable
  {
    assert Picked("Status") != Picked(SALE);
    assert Picked("Status") != Picked(RENT);
    assert Picked("Status") != Picked(UNAVAILABLE);
  }

  class ChangeStatusModal {
    const index: int
    const currentStatus: int
    var showStatusModal: bool
    var newStatus: Selection
    var newPrice: string
    var newDeposit: int

    /** The form starts closed, with status 0 (no option), price 0 and
        deposit 0; the price 0 reads as the text "0" wherever it is used. */
    constructor (index: int, currentStatus: int)
      ensures this.index == index && this.currentStatus == currentStatus
      ensures !showStatusModal
      ensures newStatus == Unselected && newPrice == DecimalText(0) && newDeposit == 0
    {
      this.index := index;
      this.currentStatus := currentStatus;
      showStatusModal := false;
      newStatus := Unselected;
      newPrice := DecimalText(0);
      newDeposit := 0;
    }

    method HandleShowStatus()
      modifies this`showStatusModal
      ensures showStatusModal
    {
      showStatusModal := true;
    }

    method HandleCloseStatus()
      modifies this`showStatusModal
      ensures !showStatusModal
    {
      showStatusModal := false;
    }

    method EnterPrice(text: string)
      modifies this`newPrice
      ensures newPrice == text
    {
      newPrice := text;
    }

    method EnterDeposit(deposit: int)
      modifies this`newDeposit
      ensures newDeposit == deposit
    {
      newDeposit := deposit;
    }

    /** Picking an option; the browser offers only enabled ones. */
    method SelectStatus(value: string)
      requires Selectable(currentStatus, value)
      modifies this`newStatus
      ensures newStatus == Picked(value)
    {
      newStatus := Picked(value);
    }

    /** "Confirm new Status": `parseUnits` on the price text first; if it
        throws, nothing is forwarded and the form stays as it is. Otherwise
        the status, price, deposit and index go to `handleChangeStatus` in
        that order, and the form closes once it returns. */
    method Confirm(app: App, from: Address, after: Contract.Reads, ipfs: Mint.Ipfs)
      returns (forwarded: bool)
      modifies this`showStatusModal, app
      ensures forwarded <==> ParseUnits(newPrice).Some?
      ensures !forwarded ==> unchanged(app) && showStatusModal == old(showStatusModal)
      ensures forwarded ==> !showStatusModal
      ensures forwarded ==> app.submitted == old(app.submitted) + ChangeStatusCalls(newStatus, newPrice, newDeposit, index, from)
      ensures forwarded ==> app.nfts == Reloaded(old(app.nfts), Mint.Load(after, ipfs))
    {
      if ParseUnits(newPrice).None? {
        return false;
      }
      var _, _ := app.HandleChangeStatus(newStatus, newPrice, newDeposit, index, from, after, ipfs);
      HandleCloseStatus();
      forwarded := true;
    }
  }

  /** Confirming the untouched form forwards status 0, which no branch of the
      dispatcher accepts: no call is sent. */
  lemma UntouchedFormSendsNothing(index: int, from: Address)
    ensures ParseUnits(DecimalText(0)).Some?
    ensures ChangeStatusCalls(Unselected, DecimalText(0), 0, index, from) == []
  {
    ParseUnitsWhole(0);
  }
}
