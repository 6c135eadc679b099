# Parking Space client: a Dafny model

Parking Space is a web client for a marketplace of parking-lot tokens. A
lender mints a lot. The lender then lists it for sale, lists it for rent or
makes it unavailable. Other users buy or rent it, and a renter or lender
ends a rent. Ownership, prices, escrow and the lot life cycle are all kept
by an external contract. This model covers the client's own decision logic:

- **Common**: wallet addresses and the four listing status codes the
  contract stores (0 Sale, 1 Rent, 2 Unavailable, 3 Rented).
- **Units**: ethers' `parseUnits`, which scales a decimal amount text by
  10^18. Also the decimal text in which the contract's unsigned integers
  reach the client.
- **Contract**: the contract as an abstract interface. It lists the calls
  the client can send (method, arguments, attached value) and what reads
  answer at one moment. No contract transition is modelled.
- **ParkingSpace**: the eight wrappers in `src/utils/parking-space.js` as
  call descriptors. Each wrapper catches and logs every error, so `None`
  means "logged, nothing sent".
- **Mint**: `createNft` with its empty-field guard and metadata document,
  the IPFS gateway URL, `uploadToIpfs` and `fetchNftMeta`. `getNfts` is a
  loop that is proved against a specification of the record list.
- **Card**: which controls a viewer gets for a lot, the availability badge
  and the "rented by" line.
- **StatusModal**: the change-status form as a class holding its form
  state, the disabled option of the status select, and the confirm
  handler.
- **AppComponent**: the guard chain of `handleChangeStatus`, and the page
  as a class. The class holds the loaded lots and every transaction handed
  to the wallet, in order.

The current time is a parameter in milliseconds, so the card's
`now / 1000` comparison stays exact. IPFS and the contract's reads are
functions passed in as parameters. A reload after each action reads the
contract through a separate parameter (`after`), because the contract may
have changed in between.

Three behaviours of the code shape the model:

- Every wrapper in `src/utils/parking-space.js` catches and logs its own
  errors (for example lines 13-15). A handler in `src/App.js` therefore
  never sees a failed call: it reloads and shows the success notification.
  Two handlers can still fail. `buyCurrentLot` throws before any call when
  `nfts[index]` does not exist (`src/App.js:100`). `createLot` fails when
  `performActions` itself rejects, because `createNft` calls it outside
  any try (`src/utils/mint.js:32`). That rejection reaches the catch at
  `src/App.js:49-51`, which skips the reload and shows the failure
  notification.
- The rent form bounds the day count only by the input's `max="30"`
  attribute (`src/components/RentModal.js:22`). `rentCurrentLot` converts
  whatever number it receives.
- The contract refuses a lender's end of rent before the return day (the
  comment at `test/ps-test.js:159`). The card offers Retrieve while
  `additionalTime + returnDay` is ahead of the current time
  (`src/components/Card.js:114-116`). `Card.Actions` and
  `Card.ShowsRentedBy` read that sum as numbers. The text joining the card
  performs once the additional time has loaded is modelled beside them
  (see "## Findings").

## Model

| member | source | states |
|---|---|---|
| Common.StatusOf | test/ps-test.js:52-79 | Exactly the codes 0..3 name a status, and reading a code gives the status whose code it is |
| Units.ParseUnits | src/utils/parking-space.js:33 | An amount text is accepted only if it is non-empty and made of digits, points and one leading minus |
| Units.ParseUnitsFraction | src/utils/parking-space.js:33 | Digits, a point and digits: refused for "." alone and for more than 18 fraction digits after trailing zeros are dropped; otherwise the digits with the point removed, shifted to 18 decimals (so "1.5" is 1.5 × 10^18) |
| Units.ParseUnitsSecondPoint | src/utils/parking-space.js:33 | A text with a second point is refused |
| Units.ParseUnitsTrailingZero | src/utils/parking-space.js:33 | A trailing zero after the point does not change the amount |
| Units.ParseUnitsSign | src/utils/parking-space.js:53 | One leading minus negates whatever the rest parses to; a second minus is refused |
| Units.ParseUnitsDigits | src/utils/parking-space.js:33 | Any non-empty digit string, leading zeros included ("007"), parses to the number it denotes times 10^18 |
| Units.ParseUnitsWhole | src/utils/parking-space.js:33 | The decimal text of a whole amount n parses to n × 10^18 |
| Units.ParseUnitsNegative | src/utils/parking-space.js:53 | A leading minus negates the parsed amount |
| Units.DigitsConcat | src/components/Card.js:95 | Two digit strings written one after the other denote the first shifted by the length of the second, plus the second |
| ParkingSpace.CreateLot | src/utils/parking-space.js:3-16 | Sends `createLot(uri)` with exactly the mint fee it read; sends nothing if that read fails |
| ParkingSpace.SetUnavailable | src/utils/parking-space.js:18-29 | Sends `setUnavailable(index)` with no value attached |
| ParkingSpace.SetSale | src/utils/parking-space.js:31-43 | Sends `setSale(index, parseUnits(price))` with no value; sends nothing when the price text does not parse |
| ParkingSpace.SetRent | src/utils/parking-space.js:45-63 | Sends `setRent(index, parseUnits(price), deposit)` with the deposit unscaled; sends nothing when the price does not parse |
| ParkingSpace.BuyLot | src/utils/parking-space.js:65-76 | Sends `buyLot(index)` with the given price attached |
| ParkingSpace.RentLot | src/utils/parking-space.js:78-93 | Quotes `getRentPrice(index, time, 1)` and sends `rentLot(index, time)` with exactly the quote attached |
| ParkingSpace.ClientEndRent | src/utils/parking-space.js:95-115 | Quotes `getRentPrice(index, time, 3)` and sends `clientEndRent(index)` with only the index, attaching the quote |
| ParkingSpace.LenderEndRent | src/utils/parking-space.js:117-128 | Sends `lenderEndRent(index)` with no value attached |
| ParkingSpace.SetSaleScalesPrice | src/utils/parking-space.js:31-39 | A whole sale price of n units reaches the contract as n × 10^18 |
| ParkingSpace.SetRentScalesPriceOnly | src/utils/parking-space.js:45-59 | A whole rent price is scaled by 10^18 while the deposit percentage is passed on unchanged |
| Mint.ContentPath | src/utils/mint.js:49 | A URL with a content path is that path behind the fixed gateway prefix |
| Mint.ContentPathOfGatewayUrl | src/utils/mint.js:70 | Every content path is recovered from its gateway URL |
| Mint.CreateNft | src/utils/mint.js:25-62 | Rejects exactly when `performActions` rejects. Otherwise no upload and no mint when location, description or image is empty. The uploaded document is exactly (location, description, image, caller). A failed upload sends nothing. The stored URI is the gateway URL of the uploaded path, passed to `createLot` |
| Mint.UploadToIpfs | src/utils/mint.js:65-74 | No file or a failed upload yields nothing; otherwise the gateway URL of the uploaded file's path |
| Mint.FetchNftMeta | src/utils/mint.js:113-121 | An empty URL gives null; otherwise the fetched document, or undefined after a logged failure |
| Mint.FetchRecord | src/utils/mint.js:84-103 | Record i exists exactly when the URI read, the metadata fetch and the lot read all succeed. It carries index i and the tuple's positions 0-7 and the document's fields |
| Mint.RecordsIndexed | src/utils/mint.js:83-105 | A loaded list has one record per index 0..n-1 in index order, each the record of its own index |
| Mint.RecordsMissing | src/utils/mint.js:83-106 | The list never arrives exactly when some index's promise never resolves |
| Mint.LoadedIndexIsPosition | src/utils/mint.js:89-90 | In a loaded list the record at position k carries index k, and there is one record per lot |
| Mint.GetNfts | src/utils/mint.js:77-110 | The loop yields the specified outcome: undefined when the count read fails, the indexed list, or a load that never settles |
| Card.BadgeFor | src/components/Card.js:47-52 | The badge reads Unavailable exactly for statuses Unavailable and Rented, and Available for every other code |
| Card.JoinedTimes | src/components/Card.js:95 | Joining the texts of additional time and return day yields the additional time shifted by the digits of the return day, plus the return day |
| Card.AsWrittenAgreesUnloaded | src/components/Card.js:95 | While the additional time is still the number 0, the joined test and the sum test agree |
| Card.AsWrittenKeepsOpen | src/components/Card.js:114-116 | The joined test is open whenever the sum test is |
| Card.AsWrittenOpenUntilDoubleReturnDay | src/components/Card.js:114-116 | With any non-zero additional time, the joined test stays open until twice the return day |
| Card.AsWrittenCounterexample | src/components/Card.js:95 | For one concrete grace, return day and current time, the joined test is open while the sum test is closed |
| Card.ShowsRentedBy | src/components/Card.js:95-99 | The "rented by" line is shown exactly for status Rented while the current time is before return day plus additional time |
| Card.WindowClosesAtDeadline | src/components/Card.js:95-126 | Once the current time reaches return day plus additional time, neither the "rented by" line nor Retrieve is shown |
| Card.Actions | src/components/Card.js:60-126 | At most two controls, all naming the lot's own index, and End Rent forwards the lot's rent time. At most one of change status, rent and buy is shown, and a lender is never offered rent or buy. Change status always stands alone, and Retrieve only appears with the "rented by" line |
| Card.ActionsByStatus | src/components/Card.js:60-126 | Change status iff viewer is lender and status is not Rented. Rent iff viewer is not lender and status is Rent. Buy iff viewer is not lender and status is Sale. End Rent iff viewer is renter and status is Rented. Retrieve iff viewer is lender, status is Rented and the window is open |
| StatusModal.Options | src/components/ChangeStatusModal.js:68-89 | Placeholder then sale, rent and unavailable; an option is disabled exactly when it names the current status |
| StatusModal.DisabledOptions | src/components/ChangeStatusModal.js:69-89 | Statuses Sale, Rent and Unavailable disable exactly one option; Rented disables none, so all three stay selectable |
| StatusModal.OptionsMatchDispatcher | src/components/ChangeStatusModal.js:68-89 | With an acceptable price and deposit, each option issues the call for its own status and the placeholder raises the alert |
| StatusModal.UntouchedFormSendsNothing | src/components/ChangeStatusModal.js:16-18 | The initial price "0" parses, and the untouched form (status 0, price 0, deposit 0) sends no call |
| StatusModal.ChangeStatusModal.constructor | src/components/ChangeStatusModal.js:12-18 | The form starts closed with status 0, price 0 and deposit 0 |
| StatusModal.ChangeStatusModal.HandleShowStatus | src/components/ChangeStatusModal.js:15 | Opens the form |
| StatusModal.ChangeStatusModal.HandleCloseStatus | src/components/ChangeStatusModal.js:14 | Closes the form |
| StatusModal.ChangeStatusModal.EnterPrice | src/components/ChangeStatusModal.js:43-45 | The price field takes the typed text |
| StatusModal.ChangeStatusModal.EnterDeposit | src/components/ChangeStatusModal.js:54 | The deposit field takes the typed number |
| StatusModal.ChangeStatusModal.SelectStatus | src/components/ChangeStatusModal.js:64-66 | Only an enabled option can be picked, and the select then holds its value |
| StatusModal.ChangeStatusModal.Confirm | src/components/ChangeStatusModal.js:98-102 | If the price does not parse, nothing is forwarded and the form and page are unchanged. Otherwise status, price, deposit and index are forwarded in that order, their calls are sent, and the form closes afterwards |
| AppComponent.Decide | src/App.js:62-85 | Sale iff "sale" with price ≥ 1. Rent iff "rent" with price ≥ 1 and 0 ≤ deposit ≤ 100. Unavailable iff "unavailable", whatever the price and deposit. The unpicked status 0 always alerts |
| AppComponent.ChangeStatusCalls | src/App.js:64-85 | None exactly when the chain alerts. Sale sends exactly `setSale(index, parseUnits(price))`, rent exactly `setRent(index, parseUnits(price), deposit)` and unavailable exactly `setUnavailable(index)`, each from the caller with no value |
| AppComponent.SaleDispatch | src/App.js:64-65 | A whole sale price of at least one unit sends exactly one `setSale(index, price × 10^18)` |
| AppComponent.SaleZeroPriceRefused | src/App.js:64 | A sale price of 0 sends nothing |
| AppComponent.RentDepositBoundaries | src/App.js:66-78 | Deposits 0 and 100 are sent unscaled with the scaled price; -1 and 101 send nothing |
| AppComponent.UnavailableIgnoresPriceAndDeposit | src/App.js:79-80 | "unavailable" sends exactly `setUnavailable(index)` for every price and deposit |
| AppComponent.DaysToSeconds | src/App.js:114-115 | Days become days × 86400 seconds |
| AppComponent.Reloaded | src/App.js:55-58 | A reload installs the loaded list, leaves undefined after a failed count, and changes nothing while the load never settles |
| AppComponent.BuyFindsOwnRecord | src/App.js:100 | In a loaded list, the position a record's index names holds that same record, so `nfts[index].price` is the lot's own sale price |
| AppComponent.App.constructor | src/App.js:32 | The page starts with an empty lot list and no transactions |
| AppComponent.App.GetLots | src/App.js:55-58 | The list becomes the reload of the contract's current lots |
| AppComponent.App.HandleChangeStatus | src/App.js:62-96 | Appends exactly the chain's calls (at most one). Alerts exactly when the chain does. Always reloads and reports success |
| AppComponent.App.BuyCurrentLot | src/App.js:98-110 | Pays the sale price of the record at that list position and reloads; with no such position it sends nothing and reports failure |
| AppComponent.App.RentCurrentLot | src/App.js:112-126 | Rents for days × 86400 seconds with the quoted value, reloads and reports success |
| AppComponent.App.EndRentClient | src/App.js:128-142 | Sends the quoted client end-rent call, reloads and reports success |
| AppComponent.App.EndRentLender | src/App.js:144-157 | Sends the lender end-rent call, reloads and reports success |
| AppComponent.App.CreateLot | src/App.js:35-53 | Sends the mint call `createNft` produced, if any. Reloads and reports success, except when `createNft` rejects: then no reload and the failure notice |

## Findings

| source | as written | input that shows it | evidently intended | confidence | as-written member | corrected member |
|---|---|---|---|---|---|---|
| src/components/Card.js:95 | The contract returns `additionalTime` and `returnDay` as decimal strings, so `+` joins the two texts. The comparison with `now / 1000` then reads the joined digits as one number | additional time 86400, return day 1700000000, current time 1800000000000 ms: shows "rented by" and Retrieve about 100 million seconds after the deadline | The numeric sum additional time + return day | medium, not executed; relies on web3 returning unsigned integers as decimal strings | Card.AsWrittenCounterexample | Card.ShowsRentedBy, Card.WindowClosesAtDeadline |

The rest of the model (`Card.Actions`, `Card.ShowsRentedBy`) uses the
numeric sum.

## Left out

- The contract's own state machine, rent pricing, escrow and ownership
  transfer. They are not in these files; the contract only receives call
  descriptors and answers reads passed in as parameters.
- ParkingSpace: a rejection of `performActions` inside a wrapper is caught
  and logged like any other error, so no caller can tell it apart. The
  descriptors model the call each wrapper hands to `performActions`.
- Wallet, network and IPFS plumbing: `performActions`, the IPFS client and
  its auth header, and the HTTP fetch. They are opaque functions here.
  Whether a sent transaction is later rejected by the wallet or reverted
  cannot be seen by the client, because every wrapper swallows it.
- AppComponent.Decide: `newPrice >= 1` is modelled as "the amount
  `parseUnits` reads is at least 10^18". This differs from JavaScript's
  double rounding near 1 (a price with 17 nines after the point). It also
  differs for texts `Number` accepts but `parseUnits` refuses (exponents,
  hexadecimal, surrounding blanks). The form's own `parseUnits` call stops
  those texts before the dispatcher.
- AppComponent.Decide: the deposit is an integer. An empty or fractional
  deposit entry is not modelled; `Number("")` is 0, which passes the guard.
- AppComponent.DaysToSeconds: the day count is an integer; fractional day
  entries are not modelled.
- Units.ParseUnits: ethers is not part of this model. Its parser is stated
  from ethers' rules for decimal strings: optional minus, then digits and
  points other than "." alone, at most one point, and at most 18
  fractional digits after trailing zeros are dropped.
- Mint.CreateNft: the JSON serialisation of the metadata document
  (escaping, field order on the wire) is not modelled; the document is a
  record of its four fields.
- Concurrency: `getLots` is not awaited, `getNfts` builds its promises
  concurrently, and `Promise.all` waits for them. All of this is modelled
  as one sequential reload after each action.
- Notifications, `alert`, `console` logging, balance refresh
  (`getBalance`), the unhandled rejection when `parseUnits` throws in the
  form, and all rendering and layout.
- Floating-point display arithmetic: the deposit and total on the rent
  form, and rent time shown in days on the card.
- `fetchNftContractOwner` is not used by the core and is not modelled.
  `fetchLot` is folded into the contract's `getLot` read, where a failed
  read is `None`.
- The hooks that load one contract value (additional time, mint fee,
  contract handle), the app bar, the cover page and the rent form. These
  are not part of this model beyond the values they pass in.
