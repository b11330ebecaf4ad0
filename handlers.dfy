/** What each of the tile's handlers does to the tile's display state and
    which remote calls it issues, as functions of the replies it receives. */
module Handlers {
  import opened Remote

  datatype Option<T> = None | Some(value: T)

  /** The one button a tile shows, if any, by its text. */
  datatype Button = NoButton | Sell | Confirm | Buy

  /** The display state of a tile. `priceInput` says whether the price input
      field is shown, `blurred` whether the image is blurred, and `priceLabel`
      holds the listed price shown, if any. */
  datatype Tile = Tile(
    name: Option<string>,
    owner: Option<string>,
    image: Option<seq<bv8>>,
    button: Button,
    priceInput: bool,
    loaderHidden: bool,
    blurred: bool,
    sellStatus: string,
    priceLabel: Option<nat>,
    shouldDisplay: bool)

  const COLLECTION: string := "collection"
  const DISCOVER: string := "discover"
  /** The owner text shown for an item in the marketplace's custody. */
  const MARKETPLACE_NAME: string := "OpenD"
  const LISTED_STATUS: string := "Listed"

  /** The tile as first rendered, before anything is fetched. */
  const MOUNTED: Tile := Tile(None, None, None, NoButton, false, true, false, "", None, true)

  /** The replies `loadNFT` receives, in the order it awaits them. */
  datatype LoadReplies = LoadReplies(
    name: string, owner: Principal, asset: seq<bv8>,
    listed: bool, originalOwner: Principal, listedPrice: nat)

  /** The replies `sellItem` receives: `listItem`, `getOpenDCanisterID`, `transferOwnership`. */
  datatype SellReplies = SellReplies(listing: string, openD: Principal, transfer: string)

  /** The replies `handleBuy` receives: `getOriginalOwner`, `getListedNFTPrice`,
      the token `transfer` and `completePurchase`. */
  datatype BuyReplies = BuyReplies(seller: Principal, price: nat, payment: string, purchase: string)

  /** The tile shows the item as listed on the marketplace, with nothing left to do. */
  predicate ShowsListed(t: Tile) {
    t.owner == Some(MARKETPLACE_NAME) && t.sellStatus == LISTED_STATUS
    && t.loaderHidden && t.button == NoButton && !t.priceInput
  }

  /** The display that `loadNFT` derives on the mounted tile, by role. */
  function LoadView(role: string, user: Principal, rep: LoadReplies): (r: Tile)
    ensures r.name == Some(rep.name) && r.image == Some(rep.asset)
    ensures r.sellStatus == LISTED_STATUS <==> role == COLLECTION && rep.listed
    ensures !(role == COLLECTION && rep.listed) ==> r.sellStatus == ""
    ensures r.blurred <==> role == COLLECTION && rep.listed
    ensures r.owner == Some(if role == COLLECTION && rep.listed then MARKETPLACE_NAME else rep.owner.text)
    ensures r.button == Sell <==> role == COLLECTION && !rep.listed
    ensures r.button == Buy <==> role == DISCOVER && rep.originalOwner.text != user.text
    ensures r.button != Confirm
    ensures r.priceLabel == (if role == DISCOVER then Some(rep.listedPrice) else None)
    ensures r.loaderHidden && r.shouldDisplay && !r.priceInput
  {
    var fetched := MOUNTED.(name := Some(rep.name), owner := Some(rep.owner.text), image := Some(rep.asset));
    if role == COLLECTION then
      if rep.listed then
        fetched.(owner := Some(MARKETPLACE_NAME), blurred := true, sellStatus := LISTED_STATUS)
      else
        fetched.(button := Sell)
    else if role == DISCOVER then
      var offered := if rep.originalOwner.text != user.text then fetched.(button := Buy) else fetched;
      offered.(priceLabel := Some(rep.listedPrice))
    else
      fetched
  }

  /** The display as it stands when `loadNFT` issues each of its calls: the
      fetched fields fill in one by one, and the loader is never shown. */
  function LoadShown(role: string, user: Principal, rep: LoadReplies): (r: seq<Tile>)
    ensures |r| == if role == COLLECTION then 4 else if role == DISCOVER then 5 else 3
    ensures forall k :: 0 <= k < |r| ==> r[k].loaderHidden && r[k].shouldDisplay && !r[k].priceInput
  {
    var named := MOUNTED.(name := Some(rep.name));
    var owned := named.(owner := Some(rep.owner.text));
    var fetched := owned.(image := Some(rep.asset));
    [MOUNTED, named, owned]
    + if role == COLLECTION then [fetched]
      else if role == DISCOVER then
        [fetched, if rep.originalOwner.text != user.text then fetched.(button := Buy) else fetched]
      else []
  }

  /** The calls `loadNFT` issues, in order. */
  function LoadCalls(id: Principal, role: string, rep: LoadReplies): (r: seq<RemoteCall>)
    ensures |r| == if role == COLLECTION then 4 else if role == DISCOVER then 5 else 3
    ensures r[..3] == [GetName(id, rep.name), GetOwner(id, rep.owner), GetAsset(id, rep.asset)]
  {
    [GetName(id, rep.name), GetOwner(id, rep.owner), GetAsset(id, rep.asset)]
    + if role == COLLECTION then [IsListed(id, rep.listed)]
      else if role == DISCOVER then [GetOriginalOwner(id, rep.originalOwner), GetListedNFTPrice(id, rep.listedPrice)]
      else []
  }

  /** `loadNFT` only reads, and only about its own item; after the three
      common reads it asks whether the item is listed exactly in the
      collection role, and for its original owner and then its price exactly
      in the discover role; it issues one call per display it passes through. */
  lemma LoadCallsOnlyRead(id: Principal, role: string, user: Principal, rep: LoadReplies)
    ensures var r := LoadCalls(id, role, rep);
      && (forall k :: 0 <= k < |r| ==> IsRead(r[k]) && AboutItem(r[k], id))
      && (IsListed(id, rep.listed) in r <==> role == COLLECTION)
      && (GetOriginalOwner(id, rep.originalOwner) in r <==> role == DISCOVER)
      && (GetListedNFTPrice(id, rep.listedPrice) in r <==> role == DISCOVER)
      && (role == COLLECTION ==> r[3] == IsListed(id, rep.listed))
      && (role == DISCOVER ==> r[3] == GetOriginalOwner(id, rep.originalOwner)
                               && r[4] == GetListedNFTPrice(id, rep.listedPrice))
      && WellOrdered(r)
      && Count(r, SuccessfulPayment) == 0
      && |r| == |LoadShown(role, user, rep)|
  {
    CountNone(LoadCalls(id, role, rep), SuccessfulPayment);
  }

  /** `handleSell`: show the price input and turn the button into Confirm. */
  function HandleSellView(v: Tile): (r: Tile)
    ensures r.button == Confirm && r.priceInput
    ensures r.(button := v.button, priceInput := v.priceInput) == v
  {
    v.(priceInput := true, button := Confirm)
  }

  /** The tile while `sellItem` awaits its calls: blurred, with the loader
      shown, and otherwise as it was. */
  function SellBusy(v: Tile): (r: Tile)
    ensures r.blurred && !r.loaderHidden
    ensures r.(blurred := v.blurred, loaderHidden := v.loaderHidden) == v
  {
    v.(blurred := true, loaderHidden := false)
  }

  /** The display after `sellItem`: blurred with the loader shown from the start,
      and switched to the listed display only when both the listing and the
      custody transfer answered Success. */
  function SellView(v: Tile, rep: SellReplies): (r: Tile)
    ensures r.blurred
    ensures ShowsListed(r) <==> rep.listing == SUCCESS && rep.transfer == SUCCESS
    ensures !ShowsListed(r) ==> !r.loaderHidden && r.owner == v.owner && r.sellStatus == v.sellStatus
                                && r.button == v.button && r.priceInput == v.priceInput
    ensures r.name == v.name && r.image == v.image
    ensures r.priceLabel == v.priceLabel && r.shouldDisplay == v.shouldDisplay
  {
    var busy := SellBusy(v);
    if rep.listing == SUCCESS then
      if rep.transfer == SUCCESS then
        busy.(loaderHidden := true, button := NoButton, priceInput := false,
              owner := Some(MARKETPLACE_NAME), sellStatus := LISTED_STATUS)
      else
        busy
    else
      busy
  }

  /** The calls `sellItem` issues for item `id` at the entered `price`. */
  function SellCalls(id: Principal, price: nat, rep: SellReplies): (r: seq<RemoteCall>)
    ensures |r| == if rep.listing == SUCCESS then 3 else 1
    ensures r[0] == ListItem(id, price, rep.listing)
    ensures Count(r, CustodyTransfer) == if rep.listing == SUCCESS then 1 else 0
    ensures forall k :: 0 <= k < |r| && r[k].TransferOwnership? ==>
              r[k] == TransferOwnership(id, rep.openD, rep.transfer)
    ensures forall k :: 0 <= k < |r| ==> AboutItem(r[k], id) && !r[k].CompletePurchase?
    ensures WellOrdered(r)
    ensures Count(r, SuccessfulPayment) == 0
  {
    var listing := [ListItem(id, price, rep.listing)];
    var custody := if rep.listing == SUCCESS
      then [GetOpenDCanisterID(rep.openD), TransferOwnership(id, rep.openD, rep.transfer)]
      else [];
    var r := listing + custody;
    CountAppend(listing, custody, CustodyTransfer);
    CountAppend([GetOpenDCanisterID(rep.openD)], [TransferOwnership(id, rep.openD, rep.transfer)], CustodyTransfer);
    assert custody != [] ==> custody == [GetOpenDCanisterID(rep.openD)] + [TransferOwnership(id, rep.openD, rep.transfer)];
    CountNone(r, SuccessfulPayment);
    r
  }

  /** The tile while `handleBuy` awaits its calls: the loader is shown, and
      the tile is otherwise as it was. */
  function BuyBusy(v: Tile): (r: Tile)
    ensures !r.loaderHidden
    ensures r.(loaderHidden := v.loaderHidden) == v
  {
    v.(loaderHidden := false)
  }

  /** The display after `handleBuy`: the loader is shown, and once the payment
      succeeds the loader is hidden and so is the whole tile. */
  function BuyView(v: Tile, rep: BuyReplies): (r: Tile)
    ensures r.shouldDisplay <==> v.shouldDisplay && rep.payment != SUCCESS
    ensures r.loaderHidden <==> rep.payment == SUCCESS
    ensures r == v.(loaderHidden := r.loaderHidden, shouldDisplay := r.shouldDisplay)
  {
    var busy := BuyBusy(v);
    if rep.payment == SUCCESS then
      busy.(loaderHidden := true, shouldDisplay := false)
    else
      busy
  }

  /** The calls `handleBuy` issues for item `id` on behalf of `user`. */
  function BuyCalls(id: Principal, user: Principal, rep: BuyReplies): (r: seq<RemoteCall>)
    ensures |r| == if rep.payment == SUCCESS then 4 else 3
    ensures r[0] == GetOriginalOwner(id, rep.seller)
    ensures r[1] == GetListedNFTPrice(id, rep.price)
    ensures r[2] == Transfer(rep.seller, rep.price, rep.payment)
    ensures Count(r, Purchase) == if rep.payment == SUCCESS then 1 else 0
    ensures forall k :: 0 <= k < |r| && r[k].CompletePurchase? ==>
              r[k] == CompletePurchase(id, rep.seller, user, rep.purchase)
    ensures Count(r, SuccessfulPayment) == if rep.payment == SUCCESS then 1 else 0
    ensures Count(r, CustodyTransfer) == 0
    ensures forall k :: 0 <= k < |r| ==> AboutItem(r[k], id) && BuysFor(r[k], user)
    ensures WellOrdered(r)
  {
    var pay := [GetOriginalOwner(id, rep.seller), GetListedNFTPrice(id, rep.price),
                Transfer(rep.seller, rep.price, rep.payment)];
    var finish := if rep.payment == SUCCESS
      then [CompletePurchase(id, rep.seller, user, rep.purchase)]
      else [];
    var r := pay + finish;
    PaymentCalls(id, rep);
    CountAppend(pay, finish, Purchase);
    CountAppend(pay, finish, SuccessfulPayment);
    CountAppend(pay, finish, CustodyTransfer);
    assert WellOrdered(r) by {
      forall k | 0 <= k < |r|
        ensures GatedAt(r, k)
      {
        if k < 3 {
          assert r[k] == pay[k];
          assert GatedAt(pay, k);
          assert forall j :: 0 <= j <= k ==> r[j] == pay[j];
        }
      }
    }
    r
  }

  /** The three calls of `handleBuy` up to and including the payment. */
  lemma PaymentCalls(id: Principal, rep: BuyReplies)
    ensures var pay := [GetOriginalOwner(id, rep.seller), GetListedNFTPrice(id, rep.price),
                        Transfer(rep.seller, rep.price, rep.payment)];
      && Count(pay, Purchase) == 0 && Count(pay, CustodyTransfer) == 0
      && Count(pay, SuccessfulPayment) == (if rep.payment == SUCCESS then 1 else 0)
      && WellOrdered(pay)
  {
    var lookups := [GetOriginalOwner(id, rep.seller), GetListedNFTPrice(id, rep.price)];
    var pay := lookups + [Transfer(rep.seller, rep.price, rep.payment)];
    assert pay == [GetOriginalOwner(id, rep.seller), GetListedNFTPrice(id, rep.price),
                   Transfer(rep.seller, rep.price, rep.payment)];
    CountNone(pay, Purchase);
    CountNone(pay, CustodyTransfer);
    CountNone(lookups, SuccessfulPayment);
    CountAppend(lookups, [Transfer(rep.seller, rep.price, rep.payment)], SuccessfulPayment);
    assert GatedAt(pay, 2);
  }

  /** The CSS `display` value of the tile's outer element. */
  function CssDisplay(t: Tile): (s: string)
    ensures s == "none" <==> !t.shouldDisplay
    ensures s == "inline" <==> t.shouldDisplay
  {
    if t.shouldDisplay then "inline" else "none"
  }

  /** What holds of a tile for item `id` seen by `user`, with nft actor
      `actor`, after the calls `trace`: the actor is the item's own; the Sell
      and Confirm buttons appear only once it exists; every call was gated on
      the replies before it and is about this item and this user; the user paid
      at most once, and exactly once iff the tile is hidden; the status reads
      "Listed" only after a reply showed the item listed. */
  ghost predicate Consistent(id: Principal, user: Principal, t: Tile, actor: Option<Principal>, trace: seq<RemoteCall>) {
    (actor.Some? ==> actor.value == id)
    && (t.button == Sell || t.button == Confirm ==> actor.Some?)
    && WellOrdered(trace)
    && (forall k :: 0 <= k < |trace| ==> AboutItem(trace[k], id) && BuysFor(trace[k], user))
    && Count(trace, SuccessfulPayment) == (if t.shouldDisplay then 0 else 1)
    && (t.sellStatus == LISTED_STATUS ==> ListingConfirmed(trace, id))
  }

  /** The trace facts of `Consistent` survive appending a handler's calls. */
  lemma AppendCalls(id: Principal, user: Principal, before: seq<RemoteCall>, calls: seq<RemoteCall>)
    requires WellOrdered(before) && WellOrdered(calls)
    requires forall k :: 0 <= k < |before| ==> AboutItem(before[k], id) && BuysFor(before[k], user)
    requires forall k :: 0 <= k < |calls| ==> AboutItem(calls[k], id) && BuysFor(calls[k], user)
    ensures WellOrdered(before + calls)
    ensures forall k :: 0 <= k < |before + calls| ==>
              AboutItem((before + calls)[k], id) && BuysFor((before + calls)[k], user)
    ensures Count(before + calls, SuccessfulPayment)
            == Count(before, SuccessfulPayment) + Count(calls, SuccessfulPayment)
    ensures ListingConfirmed(before, id) ==> ListingConfirmed(before + calls, id)
  {
    WellOrderedAppend(before, calls);
    CountAppend(before, calls, SuccessfulPayment);
    if ListingConfirmed(before, id) {
      var k :| 0 <= k < |before| && ConfirmsListing(before[k], id);
      assert (before + calls)[k] == before[k];
    }
  }

  lemma MountedConsistent(id: Principal, user: Principal)
    ensures Consistent(id, user, MOUNTED, None, [])
  {
  }

  /** Loading the mounted tile leaves it consistent. */
  lemma LoadKeepsConsistent(id: Principal, user: Principal, role: string, rep: LoadReplies)
    ensures Consistent(id, user, LoadView(role, user, rep), Some(id), LoadCalls(id, role, rep))
  {
    LoadCallsOnlyRead(id, role, user, rep);
  }

  lemma HandleSellKeepsConsistent(id: Principal, user: Principal, v: Tile, actor: Option<Principal>, trace: seq<RemoteCall>)
    requires Consistent(id, user, v, actor, trace) && v.button == Sell
    ensures Consistent(id, user, HandleSellView(v), actor, trace)
  {
  }

  /** `sellItem`, from a tile showing Confirm, leaves it consistent. */
  lemma SellKeepsConsistent(id: Principal, user: Principal, v: Tile, actor: Option<Principal>,
                            trace: seq<RemoteCall>, price: nat, rep: SellReplies)
    requires Consistent(id, user, v, actor, trace) && v.button == Confirm
    ensures Consistent(id, user, SellView(v, rep), actor, trace + SellCalls(id, price, rep))
  {
    var calls := SellCalls(id, price, rep);
    AppendCalls(id, user, trace, calls);
    if rep.listing == SUCCESS && rep.transfer == SUCCESS {
      assert (trace + calls)[|trace| + 2] == calls[2];
      assert ConfirmsListing((trace + calls)[|trace| + 2], id);
    }
  }

  /** `handleBuy`, on a displayed tile, leaves it consistent: the tile is hidden
      exactly when this payment succeeded, so the user paid at most once. */
  lemma BuyKeepsConsistent(id: Principal, user: Principal, v: Tile, actor: Option<Principal>,
                           trace: seq<RemoteCall>, rep: BuyReplies)
    requires Consistent(id, user, v, actor, trace) && v.shouldDisplay
    ensures Consistent(id, user, BuyView(v, rep), actor, trace + BuyCalls(id, user, rep))
  {
    AppendCalls(id, user, trace, BuyCalls(id, user, rep));
  }

  /** A successful `sellItem` leaves the owner text, status and blur that
      `loadNFT` derives for a listed item in the collection. */
  lemma SoldDisplayMatchesLoad(v: Tile, rep: SellReplies, user: Principal, load: LoadReplies)
    requires rep.listing == SUCCESS && rep.transfer == SUCCESS
    requires load.listed
    ensures SellView(v, rep).owner == LoadView(COLLECTION, user, load).owner
    ensures SellView(v, rep).sellStatus == LoadView(COLLECTION, user, load).sellStatus
    ensures SellView(v, rep).blurred == LoadView(COLLECTION, user, load).blurred
  {
  }

  /** Once the payment succeeded, the tile is hidden whatever `completePurchase` returned. */
  lemma HiddenWhateverPurchaseReturns(v: Tile, rep: BuyReplies, other: string)
    requires rep.payment == SUCCESS
    ensures !BuyView(v, rep).shouldDisplay && CssDisplay(BuyView(v, rep)) == "none"
    ensures BuyView(v, rep) == BuyView(v, rep.(purchase := other))
  {
  }
}
