# OpenD item tile

This is a model of the `Item` tile of the OpenD marketplace front end. The tile
shows one NFT: its name, owner and image, and whether it is listed, blurred,
offered for sale or offered to buy. Its handlers talk to three canisters:

- the NFT's own canister (`getName`, `getOwner`, `getAsset`, `transferOwnership`)
- the OpenD marketplace (`isListed`, `getOriginalOwner`, `getListedNFTPrice`,
  `listItem`, `getOpenDCanisterID`, `completePurchase`)
- the token canister (`transfer`)

The model has three modules:

- `Remote` (`remote.dfy`) covers principals and the remote calls. Each call is
  recorded together with the reply it returned. The module also states what a
  well-ordered sequence of such calls (a *trace*) is: every call issued after
  the calls a handler awaits before it, with the values those calls returned.
  The module counts custody transfers, successful payments and purchases in a
  trace, and proves that purchases never outnumber successful payments.
- `Handlers` (`handlers.dfy`) holds the display state as a `Tile` record, one
  field per `useState` hook. For each handler it has a pure specification: the
  display it leaves (`LoadView`, `HandleSellView`, `SellView`, `BuyView`) and
  the calls it issues (`LoadCalls`, `SellCalls`, `BuyCalls`). Each takes the
  replies the handler receives. It also defines `Consistent`, the invariant
  tying a tile's display to its trace, and proves that every handler preserves
  it.
- `Item` (`item.dfy`) is the component itself, the class `ItemTile`. It has:
  - constants for the item id, the role and the current user
  - one field for the state hooks, updated one setter at a time
  - the NFT actor binding
  - a ghost trace of the calls issued
  - a ghost record `shown` of the display as it stood when each call was issued

  Each handler is a method. Its `ensures` ties the new display to the handler's
  view function, the new trace to the old trace plus the handler's calls, and
  the displays recorded for those calls to what the tile showed while they
  were pending. Every handler keeps `Valid()`, the `Consistent` invariant. The
  handler's statements, in the source's order, are in a companion method
  (`LoadSteps`, `SellSteps`, `BuySteps`) whose contract states the same
  display, calls and recorded displays without the invariant.

The replies of remote calls are method parameters (`LoadReplies`,
`SellReplies`, `BuyReplies`). The price typed into the input field is the
`price` parameter of `SellItem`.

The code, and so the model, has no error state, rollback, retry or "funds at
risk" flag:

- Nothing marks a failed step for recovery.
- A failed `listItem` or `transferOwnership` leaves the tile blurred with the
  loader showing.
- A failed payment leaves the tile visible with the loader showing.
- After a successful payment the tile is hidden whatever `completePurchase`
  returned.

## Model

| member | source | states |
|---|---|---|
| Item.ItemTile.constructor | src/opend_assets/src/components/Item.jsx:13-22 | the mounted tile has every hook at its initial value: loader hidden, tile displayed, status empty, no button, no input, no blur, nothing fetched; no call issued yet |
| Item.ItemTile.LoadNFT | src/opend_assets/src/components/Item.jsx:36-82 | from the mounted tile, binds the nft actor to the item id, leaves the display `LoadView` derives from the replies, issues exactly the calls of `LoadCalls` with the displays of `LoadShown`, and keeps the tile consistent |
| Item.ItemTile.LoadSteps | src/opend_assets/src/components/Item.jsx:36-82 | the statements of `loadNFT` in order: binds the actor, then each awaited call is recorded with the display at that moment; the result is `LoadView`, `LoadCalls` and `LoadShown` |
| Item.ItemTile.HandleSell | src/opend_assets/src/components/Item.jsx:90-104 | on a tile showing Sell, shows the price input and the Confirm button, changes nothing else and issues no remote call |
| Item.ItemTile.SellItem | src/opend_assets/src/components/Item.jsx:107-131 | on a tile showing Confirm, leaves the display `SellView` gives and appends exactly the calls of `SellCalls` for the entered price, every one of them issued while the tile showed `SellBusy` of the old display (blurred, loader shown); the nft actor is unchanged and the tile stays consistent |
| Item.ItemTile.SellSteps | src/opend_assets/src/components/Item.jsx:107-131 | the statements of `sellItem` in order: blur and loader are set before `listItem`, and every call is recorded with the busy display; the result is `SellView` and `SellCalls` |
| Item.ItemTile.HandleBuy | src/opend_assets/src/components/Item.jsx:134-156 | on a displayed tile showing Buy, leaves the display `BuyView` gives and appends exactly the calls of `BuyCalls`, every one of them issued while the tile showed `BuyBusy` of the old display (loader shown); the tile stays consistent, so, when clicks do not overlap, the user has paid at most once |
| Item.ItemTile.BuySteps | src/opend_assets/src/components/Item.jsx:134-156 | the statements of `handleBuy` in order: the loader is shown before `getOriginalOwner`, and every call, `completePurchase` included, is recorded with that display; the result is `BuyView` and `BuyCalls` |
| Handlers.LoadView | src/opend_assets/src/components/Item.jsx:43-81 | name and image as fetched; in the collection role a listed item shows owner "OpenD", is blurred and has status "Listed" (the status stays empty otherwise), and an unlisted item shows a Sell button and the fetched owner; in the discover role a Buy button appears iff the original owner differs from the current user, and the price label holds the listed price either way; the loader stays hidden and the tile displayed |
| Handlers.LoadCalls | src/opend_assets/src/components/Item.jsx:43-79 | the calls `loadNFT` awaits: first `getName`, `getOwner`, `getAsset`; three, four or five calls by role, never more; the calls after the first three are fixed in `LoadCallsOnlyRead` |
| Handlers.LoadCallsOnlyRead | src/opend_assets/src/components/Item.jsx:43-79 | `loadNFT` only reads, and only about this item; `isListed` is asked iff the role is collection, as the fourth call; the original owner and then the listed price are asked iff the role is discover, as the fourth and fifth calls; the calls are well ordered, pay nothing, and match the displays of `LoadShown` one for one |
| Handlers.LoadShown | src/opend_assets/src/components/Item.jsx:43-79 | while `loadNFT` awaits its calls (three, four in the collection role, five in the discover role) the loader stays hidden, the tile displayed and the price input absent |
| Handlers.HandleSellView | src/opend_assets/src/components/Item.jsx:90-104 | the price input is shown, the button is Confirm, and every other field is as before |
| Handlers.SellBusy | src/opend_assets/src/components/Item.jsx:109-111 | the display while `sellItem` awaits: blurred, loader shown, every other field as before |
| Handlers.SellView | src/opend_assets/src/components/Item.jsx:107-131 | the image is always blurred; the tile shows owner "OpenD", status "Listed", loader hidden, no button and no input iff both `listItem` and `transferOwnership` answered Success; otherwise the loader stays visible and owner, status, button and input are unchanged; name, image, price label and visibility never change |
| Handlers.SellCalls | src/opend_assets/src/components/Item.jsx:113-119 | exactly one call, `listItem` with this item and the entered price, when the listing fails, and exactly three when it succeeds, so nothing is retried; custody moves (one `transferOwnership`) iff the listing answered Success, and only to the id `getOpenDCanisterID` returned and for this item; the calls are well ordered, make no purchase and pay nothing |
| Handlers.BuyBusy | src/opend_assets/src/components/Item.jsx:136 | the display while `handleBuy` awaits: loader shown, every other field as before |
| Handlers.BuyView | src/opend_assets/src/components/Item.jsx:134-156 | the tile stays displayed iff the payment did not answer Success; the loader ends hidden iff it did; nothing else changes |
| Handlers.BuyCalls | src/opend_assets/src/components/Item.jsx:142-151 | exactly three calls when the payment fails and four when it succeeds, so nothing is retried; the original owner and the listed price are read first; the token transfer pays that owner that price; `completePurchase` is called (once) iff the payment answered Success, with this item, that seller and the current user; the calls are well ordered and move no custody |
| Handlers.CssDisplay | src/opend_assets/src/components/Item.jsx:160 | the outer element's display is "none" iff the tile should not be displayed and "inline" iff it should |
| Handlers.MountedConsistent | src/opend_assets/src/components/Item.jsx:13-22 | the mounted tile with an empty trace is consistent |
| Handlers.LoadKeepsConsistent | src/opend_assets/src/components/Item.jsx:36-82 | the display and calls of `loadNFT` are consistent; in particular "Listed" is shown only after `isListed` answered true |
| Handlers.HandleSellKeepsConsistent | src/opend_assets/src/components/Item.jsx:90-104 | `handleSell` on a tile showing Sell keeps it consistent |
| Handlers.SellKeepsConsistent | src/opend_assets/src/components/Item.jsx:107-131 | `sellItem` on a consistent tile showing Confirm keeps it consistent, whatever the replies |
| Handlers.BuyKeepsConsistent | src/opend_assets/src/components/Item.jsx:134-156 | `handleBuy` on a consistent displayed tile keeps it consistent: when clicks do not overlap, the tile is hidden exactly when one successful payment has been made |
| Handlers.SoldDisplayMatchesLoad | src/opend_assets/src/components/Item.jsx:121-128 | after both sell steps succeed, the tile shows the owner text, status and blur that `loadNFT` derives for a listed item in the collection |
| Handlers.HiddenWhateverPurchaseReturns | src/opend_assets/src/components/Item.jsx:145-160 | once the payment succeeded the tile is hidden and its outer element gets CSS display "none", and the display does not depend on what `completePurchase` returned |
| Remote.PurchasesWithinPayments | src/opend_assets/src/components/Item.jsx:144-151 | over any well-ordered trace, `completePurchase` was issued no more often than a token payment succeeded |
| Remote.PurchasesPairedWithPayments | src/opend_assets/src/components/Item.jsx:144-151 | in a well-ordered trace, the purchases, plus one when the trace ends with a successful payment, number at most the successful payments: each purchase is matched by the successful payment just before it |
| Remote.WellOrderedAppend | src/opend_assets/src/components/Item.jsx:113-119 | appending one handler's well-ordered calls to a well-ordered trace keeps it well ordered, since each call waits only on the calls just before it in the same handler |

## Left out

- Remote calls that throw or are rejected. Every awaited call is modelled as returning a reply. A rejected promise would abandon the handler midway, and the model does not capture that.
- The `Number(price)` coercion and the input's `onChange`. The price reaching `listItem` is the `price: nat` parameter of `SellItem`, so non-numeric (NaN), negative or fractional entries, which `Number()` would pass on to `listItem`, are not modelled.
- The image conversion from bytes to a Blob and object URL. The tile keeps the fetched bytes.
- `HttpAgent`, `fetchRootKey` and `Actor.createActor`. Creating the nft actor is modelled only as binding it to the item id. The token actor's fixed canister id is not modelled, and the token `transfer` is recorded as a call to the token canister.
- `useEffect` scheduling and the interleaving of handlers during their awaits. Each handler runs to completion, and a second click during a pending call is not modelled. In the source the Buy button stays clickable while `handleBuy` awaits its replies, so an overlapping second Buy click sends a second token `transfer` and pays twice; the at-most-once payment proved here holds only for clicks that do not overlap. Likewise a Buy click while `loadNFT` still awaits the listed price (the button appears before the price is read, Item.jsx:76-79) is not modelled: `LoadNFT` runs to completion before any handler.
- `console.log` output, the JSX markup and CSS classes, and the `Button` and `PriceLabel` components. A button is modelled by its text, and a price label by the price it shows.
- The canisters' own logic (nft, token, opend). Their replies are parameters.
- Item.ItemTile.LoadNFT: requires the freshly mounted tile with an empty trace, since the effect runs once on mount.
- Item.ItemTile.HandleSell, Item.ItemTile.SellItem, Item.ItemTile.HandleBuy: each requires the button that invokes it to be showing, and HandleBuy also requires a displayed tile. These are the only ways the handlers can be reached.
