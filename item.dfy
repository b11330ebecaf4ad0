/** The `Item` tile component: its display state, the handlers that update it
    between awaited remote calls, and a ghost record of the calls issued. */
module Item {
  import opened Remote
  import opened Handlers

  class ItemTile {
    /** The item's canister id (`props.id`), the tile's role (`props.role`)
        and the signed-in user (`CURRENT_USER_ID`). */
    const id: Principal
    const role: string
    const currentUser: Principal

    /** The component's state hooks, one field of the record per `useState`;
        each setter call replaces that one field. */
    var tile: Tile

    /** The canister the nft actor is bound to, once `loadNFT` has created it. */
    var nftActor: Option<Principal>

    /** Every remote call the tile has issued, in order, with its reply. */
    ghost var trace: seq<RemoteCall>

    /** The display as it stood when each call of `trace` was issued. */
    ghost var shown: seq<Tile>

    ghost predicate Valid()
      reads this
    {
      Consistent(id, currentUser, tile, nftActor, trace) && |shown| == |trace|
    }

    /** The tile as first rendered, with the `useState` initial values. */
    constructor (id: Principal, role: string, currentUser: Principal)
      ensures Valid()
      ensures this.id == id && this.role == role && this.currentUser == currentUser
      ensures tile == MOUNTED && nftActor == None && trace == [] && shown == []
    {
      this.id := id;
      this.role := role;
      this.currentUser := currentUser;
      tile := MOUNTED;
      nftActor := None;
      trace, shown := [], [];
      MountedConsistent(id, currentUser);
    }

    /** `loadNFT`, run once on mount. */
    method LoadNFT(rep: LoadReplies)
      requires tile == MOUNTED && nftActor == None && trace == [] && shown == []
      modifies this
      ensures Valid()
      ensures nftActor == Some(id)
      ensures tile == LoadView(role, currentUser, rep)
      ensures trace == LoadCalls(id, role, rep)
      ensures shown == LoadShown(role, currentUser, rep)
    {
      LoadSteps(rep);
      LoadKeepsConsistent(id, currentUser, role, rep);
    }

    /** The body of `loadNFT`: fetch name, owner and image from the nft
        canister, then the role-dependent facts from the marketplace. */
    method LoadSteps(rep: LoadReplies)
      requires tile == MOUNTED && nftActor == None && trace == [] && shown == []
      modifies this
      ensures nftActor == Some(id)
      ensures tile == LoadView(role, currentUser, rep)
      ensures trace == LoadCalls(id, role, rep)
      ensures shown == LoadShown(role, currentUser, rep)
    {
      // the calls awaited so far, each with the display at the moment it was issued
      ghost var calls: seq<RemoteCall>, seen: seq<Tile> := [], [];
      nftActor := Some(id);
      calls, seen := calls + [GetName(id, rep.name)], seen + [tile];
      tile := tile.(name := Some(rep.name));
      calls, seen := calls + [GetOwner(id, rep.owner)], seen + [tile];
      tile := tile.(owner := Some(rep.owner.text));
      calls, seen := calls + [GetAsset(id, rep.asset)], seen + [tile];
      tile := tile.(image := Some(rep.asset));
      if role == COLLECTION {
        calls, seen := calls + [IsListed(id, rep.listed)], seen + [tile];
        if rep.listed {
          tile := tile.(owner := Some(MARKETPLACE_NAME));
          tile := tile.(blurred := true);
          tile := tile.(sellStatus := LISTED_STATUS);
        } else {
          tile := tile.(button := Sell);
        }
      } else if role == DISCOVER {
        calls, seen := calls + [GetOriginalOwner(id, rep.originalOwner)], seen + [tile];
        if rep.originalOwner.text != currentUser.text {
          tile := tile.(button := Buy);
        }
        calls, seen := calls + [GetListedNFTPrice(id, rep.listedPrice)], seen + [tile];
        tile := tile.(priceLabel := Some(rep.listedPrice));
      }
      assert calls == LoadCalls(id, role, rep);
      assert seen == LoadShown(role, currentUser, rep);
      trace, shown := calls, seen;
    }

    /** `handleSell`, the Sell button's handler: no remote call, only the price
        input and the Confirm button. */
    method HandleSell()
      requires Valid() && tile.button == Sell
      modifies this
      ensures Valid()
      ensures tile == HandleSellView(old(tile))
      ensures nftActor == old(nftActor) && trace == old(trace) && shown == old(shown)
    {
      HandleSellKeepsConsistent(id, currentUser, tile, nftActor, trace);
      tile := tile.(priceInput := true);
      tile := tile.(button := Confirm);
    }

    /** `sellItem`, the Confirm button's handler, with the entered `price`. */
    method SellItem(price: nat, rep: SellReplies)
      requires Valid() && tile.button == Confirm
      modifies this
      ensures Valid()
      ensures tile == SellView(old(tile), rep)
      ensures nftActor == old(nftActor)
      ensures trace == old(trace) + SellCalls(id, price, rep)
      ensures shown == old(shown) + seq(|SellCalls(id, price, rep)|, _ => SellBusy(old(tile)))
    {
      SellKeepsConsistent(id, currentUser, tile, nftActor, trace, price, rep);
      SellSteps(price, rep);
    }

    /** The body of `sellItem`: blur and loader first, then the listing and,
        once it succeeded, the custody transfer to the marketplace. */
    method SellSteps(price: nat, rep: SellReplies)
      requires nftActor == Some(id)
      modifies this
      ensures tile == SellView(old(tile), rep)
      ensures nftActor == old(nftActor)
      ensures trace == old(trace) + SellCalls(id, price, rep)
      ensures shown == old(shown) + seq(|SellCalls(id, price, rep)|, _ => SellBusy(old(tile)))
    {
      // the calls awaited so far, each with the display at the moment it was issued
      ghost var calls: seq<RemoteCall>, seen: seq<Tile> := [], [];
      tile := tile.(blurred := true);
      tile := tile.(loaderHidden := false);
      ghost var busy := tile;
      calls, seen := calls + [ListItem(id, price, rep.listing)], seen + [tile];
      if rep.listing == SUCCESS {
        calls, seen := calls + [GetOpenDCanisterID(rep.openD)], seen + [tile];
        var actor := nftActor.value;
        calls, seen := calls + [TransferOwnership(actor, rep.openD, rep.transfer)], seen + [tile];
        if rep.transfer == SUCCESS {
          tile := tile.(loaderHidden := true);
          tile := tile.(button := NoButton);
          tile := tile.(priceInput := false);
          tile := tile.(owner := Some(MARKETPLACE_NAME));
          tile := tile.(sellStatus := LISTED_STATUS);
        }
      }
      assert calls == SellCalls(id, price, rep);
      assert seen == if rep.listing == SUCCESS then [busy, busy, busy] else [busy];
      trace, shown := trace + calls, shown + seen;
    }

    /** `handleBuy`, the Buy button's handler on the displayed tile. */
    method HandleBuy(rep: BuyReplies)
      requires Valid() && tile.button == Buy && tile.shouldDisplay
      modifies this
      ensures Valid()
      ensures tile == BuyView(old(tile), rep)
      ensures nftActor == old(nftActor)
      ensures trace == old(trace) + BuyCalls(id, currentUser, rep)
      ensures shown == old(shown) + seq(|BuyCalls(id, currentUser, rep)|, _ => BuyBusy(old(tile)))
    {
      BuyKeepsConsistent(id, currentUser, tile, nftActor, trace, rep);
      BuySteps(rep);
    }

    /** The body of `handleBuy`: show the loader, pay the original owner the
        listed price, and once that succeeded complete the purchase. */
    method BuySteps(rep: BuyReplies)
      modifies this
      ensures tile == BuyView(old(tile), rep)
      ensures nftActor == old(nftActor)
      ensures trace == old(trace) + BuyCalls(id, currentUser, rep)
      ensures shown == old(shown) + seq(|BuyCalls(id, currentUser, rep)|, _ => BuyBusy(old(tile)))
    {
      // the calls awaited so far, each with the display at the moment it was issued
      ghost var calls: seq<RemoteCall>, seen: seq<Tile> := [], [];
      tile := tile.(loaderHidden := false);
      ghost var busy := tile;
      calls, seen := calls + [GetOriginalOwner(id, rep.seller)], seen + [tile];
      calls, seen := calls + [GetListedNFTPrice(id, rep.price)], seen + [tile];
      calls, seen := calls + [Transfer(rep.seller, rep.price, rep.payment)], seen + [tile];
      if rep.payment == SUCCESS {
        calls, seen := calls + [CompletePurchase(id, rep.seller, currentUser, rep.purchase)], seen + [tile];
        tile := tile.(loaderHidden := true);
        tile := tile.(shouldDisplay := false);
      }
      assert calls == BuyCalls(id, currentUser, rep);
      assert seen == if rep.payment == SUCCESS then [busy, busy, busy, busy] else [busy, busy, busy];
      trace, shown := trace + calls, shown + seen;
    }
  }
}
