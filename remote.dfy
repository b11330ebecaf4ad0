/** The remote calls an item tile issues to the nft, token and opend canisters,
    each recorded together with the reply it returned, and what a sequence of
    such calls (a trace) must look like. */
module Remote {

  /** A principal, known to the tile by its textual form (`toText()`). */
  datatype Principal = Principal(text: string)

  /** The reply text by which a state-changing canister call reports that it worked. */
  const SUCCESS: string := "Success"

  /** One awaited remote call with its arguments and the reply it returned. */
  datatype RemoteCall =
    // the nft canister of the item (the actor created with the item's id as canister id)
    | GetName(canister: Principal, name: string)
    | GetOwner(canister: Principal, owner: Principal)
    | GetAsset(canister: Principal, asset: seq<bv8>)
    | TransferOwnership(canister: Principal, newOwner: Principal, result: string)
    // the opend marketplace canister
    | IsListed(nft: Principal, listed: bool)
    | GetOriginalOwner(nft: Principal, owner: Principal)
    | GetListedNFTPrice(nft: Principal, price: nat)
    | ListItem(nft: Principal, price: nat, result: string)
    | GetOpenDCanisterID(openD: Principal)
    | CompletePurchase(nft: Principal, seller: Principal, buyer: Principal, result: string)
    // the token canister, paying from the caller's balance
    | Transfer(to: Principal, amount: nat, result: string)

  /** Calls that only read some canister's state. */
  predicate IsRead(c: RemoteCall) {
    c.GetName? || c.GetOwner? || c.GetAsset? || c.IsListed?
    || c.GetOriginalOwner? || c.GetListedNFTPrice? || c.GetOpenDCanisterID?
  }

  /** The call names the item `id` wherever it names an item at all. */
  predicate AboutItem(c: RemoteCall, id: Principal) {
    match c
    case GetName(k, _) => k == id
    case GetOwner(k, _) => k == id
    case GetAsset(k, _) => k == id
    case TransferOwnership(k, _, _) => k == id
    case IsListed(n, _) => n == id
    case GetOriginalOwner(n, _) => n == id
    case GetListedNFTPrice(n, _) => n == id
    case ListItem(n, _, _) => n == id
    case GetOpenDCanisterID(_) => true
    case CompletePurchase(n, _, _, _) => n == id
    case Transfer(_, _, _) => true
  }

  /** A purchase, if the call is one, is completed for `buyer`. */
  predicate BuysFor(c: RemoteCall, buyer: Principal) {
    c.CompletePurchase? ==> c.buyer == buyer
  }

  predicate IsListingSuccess(c: RemoteCall) {
    c.ListItem? && c.result == SUCCESS
  }

  /** The kinds of call whose occurrences in a trace are counted. */
  datatype Kind = CustodyTransfer | SuccessfulPayment | Purchase

  predicate IsA(c: RemoteCall, kind: Kind) {
    match kind
    case CustodyTransfer => c.TransferOwnership?
    case SuccessfulPayment => c.Transfer? && c.result == SUCCESS
    case Purchase => c.CompletePurchase?
  }

  /** The call at position `k` of `t` was issued only after the calls that the
      tile's handlers make it wait for, and with the values those returned:
      the marketplace id is asked for and custody moved only right after a
      listing that succeeded, the token transfer pays the original owner the
      listed price just read, and a purchase is completed only right after
      that payment succeeded. */
  predicate GatedAt(t: seq<RemoteCall>, k: nat)
    requires k < |t|
  {
    match t[k]
    case GetOpenDCanisterID(_) =>
      1 <= k && IsListingSuccess(t[k - 1])
    case TransferOwnership(nft, newOwner, _) =>
      2 <= k && t[k - 1] == GetOpenDCanisterID(newOwner)
      && IsListingSuccess(t[k - 2]) && t[k - 2].nft == nft
    case Transfer(seller, amount, _) =>
      2 <= k && t[k - 2].GetOriginalOwner? && t[k - 2].owner == seller
      && t[k - 1] == GetListedNFTPrice(t[k - 2].nft, amount)
    case CompletePurchase(nft, seller, _, _) =>
      3 <= k && t[k - 3] == GetOriginalOwner(nft, seller)
      && t[k - 2].GetListedNFTPrice? && t[k - 2].nft == nft
      && t[k - 1] == Transfer(seller, t[k - 2].price, SUCCESS)
    case _ => true
  }

  predicate WellOrdered(t: seq<RemoteCall>) {
    forall k :: 0 <= k < |t| ==> GatedAt(t, k)
  }

  /** The trace holds a reply showing the item listed: either the marketplace
      answered `isListed` with true, or custody moved to the marketplace. */
  predicate ConfirmsListing(c: RemoteCall, id: Principal) {
    c == IsListed(id, true)
    || (c.TransferOwnership? && c.canister == id && c.result == SUCCESS)
  }

  predicate ListingConfirmed(t: seq<RemoteCall>, id: Principal) {
    exists k :: 0 <= k < |t| && ConfirmsListing(t[k], id)
  }

  /** How many calls of `t` are of the given kind. */
  function Count(t: seq<RemoteCall>, kind: Kind): nat {
    if t == [] then 0
    else Count(t[..|t| - 1], kind) + if IsA(t[|t| - 1], kind) then 1 else 0
  }

  lemma {:induction false} CountAppend(a: seq<RemoteCall>, b: seq<RemoteCall>, kind: Kind)
    ensures Count(a + b, kind) == Count(a, kind) + Count(b, kind)
  {
    if b == [] {
      assert a + b == a;
    } else {
      var b' := b[..|b| - 1];
      assert (a + b)[..|a + b| - 1] == a + b';
      CountAppend(a, b', kind);
    }
  }

  lemma {:induction false} CountNone(t: seq<RemoteCall>, kind: Kind)
    requires forall k :: 0 <= k < |t| ==> !IsA(t[k], kind)
    ensures Count(t, kind) == 0
  {
    if t != [] {
      CountNone(t[..|t| - 1], kind);
    }
  }

  /** Appending one handler's calls to a well-ordered trace keeps it well
      ordered: each call's gate looks only at the calls just before it. */
  lemma WellOrderedAppend(a: seq<RemoteCall>, b: seq<RemoteCall>)
    requires WellOrdered(a) && WellOrdered(b)
    ensures WellOrdered(a + b)
  {
    var t := a + b;
    forall k | 0 <= k < |t|
      ensures GatedAt(t, k)
    {
      if k < |a| {
        assert GatedAt(a, k);
        assert forall j :: 0 <= j <= k ==> t[j] == a[j];
      } else {
        assert GatedAt(b, k - |a|);
        assert forall j :: |a| <= j <= k ==> t[j] == b[j - |a|];
      }
    }
  }

  lemma WellOrderedPrefix(t: seq<RemoteCall>, n: nat)
    requires WellOrdered(t) && n <= |t|
    ensures WellOrdered(t[..n])
  {
    forall k | 0 <= k < n
      ensures GatedAt(t[..n], k)
    {
      assert GatedAt(t, k);
    }
  }

  lemma {:induction false} PurchasesPairedWithPayments(t: seq<RemoteCall>)
    requires WellOrdered(t)
    ensures Count(t, Purchase) + (if t != [] && IsA(t[|t| - 1], SuccessfulPayment) then 1 else 0)
            <= Count(t, SuccessfulPayment)
  {
    if t != [] {
      var s := t[..|t| - 1];
      WellOrderedPrefix(t, |t| - 1);
      PurchasesPairedWithPayments(s);
      if IsA(t[|t| - 1], Purchase) {
        assert GatedAt(t, |t| - 1);
        assert s[|s| - 1] == t[|t| - 2];
      }
    }
  }

  /** Over any well-ordered trace, `completePurchase` was issued no more often
      than a token payment succeeded. */
  lemma PurchasesWithinPayments(t: seq<RemoteCall>)
    requires WellOrdered(t)
    ensures Count(t, Purchase) <= Count(t, SuccessfulPayment)
  {
    PurchasesPairedWithPayments(t);
  }
}
