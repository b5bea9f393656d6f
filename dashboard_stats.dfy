/** The ownership choice of the dashboard, the matching server query, and the
    statistics cards: owned count, wishlist count and total spent. */
module DashboardStats {
  import opened Seqs
  import opened Kits
  import opened DashboardSort

  /** The "All", "Owned" and "Wishlist" buttons. */
  datatype Ownership = AllKits | OwnedOnly | WishlistOnly

  predicate MatchesOwnership(k: Kit, o: Ownership) {
    match o
    case AllKits => true
    case OwnedOnly => k.owned
    case WishlistOnly => !k.owned
  }

  /** The kits the server returns for the choice: the user's kits, restricted to owned or
      to not-owned ones unless "All" is chosen. `userKits` stands for the user's rows in
      the order the server sorts them. */
  function FetchKits(userKits: seq<Kit>, o: Ownership): seq<Kit> {
    Filter(userKits, k => MatchesOwnership(k, o))
  }

  /** "Owned" and "Wishlist" split the collection: every kit is returned by exactly one of
      them, and "All" returns the whole collection. */
  lemma OwnershipPartition(userKits: seq<Kit>)
    ensures FetchKits(userKits, AllKits) == userKits
    ensures |FetchKits(userKits, OwnedOnly)| + |FetchKits(userKits, WishlistOnly)| == |userKits|
    ensures forall k :: k in userKits ==>
      (k in FetchKits(userKits, OwnedOnly) <==> k !in FetchKits(userKits, WishlistOnly))
  {
    FilterAllPass(userKits, k => MatchesOwnership(k, AllKits));
    OwnedWishlistSplit(userKits);
    FilterSamePredicate(userKits, k => MatchesOwnership(k, OwnedOnly), IsOwned);
    FilterSamePredicate(userKits, k => MatchesOwnership(k, WishlistOnly), IsWished);
  }

  predicate IsOwned(k: Kit) {
    k.owned
  }

  predicate IsWished(k: Kit) {
    !k.owned
  }

  /** The "Owned" card. */
  function OwnedCount(kits: seq<Kit>): nat {
    |Filter(kits, IsOwned)|
  }

  /** The wishlist count: kits not owned. */
  function WishlistCount(kits: seq<Kit>): nat {
    |Filter(kits, IsWished)|
  }

  /** Owned and wishlist kits together are all the loaded kits. */
  lemma OwnedWishlistSplit(kits: seq<Kit>)
    ensures OwnedCount(kits) + WishlistCount(kits) == |kits|
  {
    FilterSplit(kits, IsOwned, IsWished);
  }

  /** The sum of the prices, absent prices counting as 0. */
  function SumPrices(kits: seq<Kit>): int {
    if kits == [] then 0 else PriceOf(kits[0]) + SumPrices(kits[1..])
  }

  predicate HasPrice(k: Kit) {
    k.purchasePrice.Some? && k.purchasePrice.value != 0
  }

  /** The "Total Spent" card, in cents: the sum over the kits whose price is set and
      non-zero. */
  function TotalSpent(kits: seq<Kit>): int {
    SumPrices(Filter(kits, HasPrice))
  }

  /** Leaving out kits with no price or a zero price does not change the sum. */
  lemma {:induction false} TotalSpentIsSumOfPrices(kits: seq<Kit>)
    ensures TotalSpent(kits) == SumPrices(kits)
  {
    if kits != [] {
      TotalSpentIsSumOfPrices(kits[1..]);
      var head := if HasPrice(kits[0]) then [kits[0]] else [];
      var rest := Filter(kits[1..], HasPrice);
      assert Filter(kits, HasPrice) == head + rest;
      if HasPrice(kits[0]) {
        assert (head + rest)[0] == kits[0] && (head + rest)[1..] == rest;
      } else {
        assert head + rest == rest;
      }
    }
  }

  /** With no negative price entered, the total spent is not negative. */
  lemma {:induction false} TotalSpentNonNegative(kits: seq<Kit>)
    requires forall k :: k in kits && k.purchasePrice.Some? ==> k.purchasePrice.value >= 0
    ensures TotalSpent(kits) >= 0
  {
    TotalSpentIsSumOfPrices(kits);
    SumPricesNonNegative(kits);
  }

  lemma {:induction false} SumPricesNonNegative(kits: seq<Kit>)
    requires forall k :: k in kits && k.purchasePrice.Some? ==> k.purchasePrice.value >= 0
    ensures SumPrices(kits) >= 0
  {
    if kits != [] {
      assert kits[0] in kits;
      SumPricesNonNegative(kits[1..]);
    }
  }
}
