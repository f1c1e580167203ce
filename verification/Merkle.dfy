/** Building the claim tree over entitlements, and what its root lets anyone prove. */
module Merkle {
  import opened Results
  import opened PodModel
  import opened Sums
  import opened Sorting
  import opened Allocation
  import opened Digests

  type Layout = seq<Digest> -> Tree

  /** The tree library may arrange the leaves as it likes, but keeps each of them once. */
  ghost predicate Faithful(layout: Layout) {
    forall ds :: ds != [] ==> multiset(Leaves(layout(ds))) == multiset(ds)
  }

  datatype Entry = Entry(entitlement: Entitlement, leaf: Digest, proof: seq<Digest>)

  datatype MerkleResult = MerkleResult(root: Digest, entries: seq<Entry>, walletIndex: map<Address, seq<Entry>>)

  function DomainOf(cycle: Cycle): ClaimDomain {
    ClaimDomain(cycle.chainId, cycle.claimManagerAddress, cycle.cycleId)
  }

  function FieldsOf(domain: ClaimDomain, e: Entitlement): LeafFields {
    LeafFields(domain.chainId, domain.claimManagerAddress, domain.cycleId, e.wallet, e.asset, e.amount)
  }

  function LeafHash(domain: ClaimDomain, e: Entitlement): Digest {
    Leaf(FieldsOf(domain, e))
  }

  function LeafHashes(domain: ClaimDomain, es: seq<Entitlement>): (ds: seq<Digest>)
    ensures |ds| == |es| && forall i :: 0 <= i < |es| ==> ds[i] == LeafHash(domain, es[i])
  {
    seq(|es|, i requires 0 <= i < |es| => LeafHash(domain, es[i]))
  }

  predicate AllEncodable(domain: ClaimDomain, es: seq<Entitlement>) {
    forall e :: e in es ==> Encodable(FieldsOf(domain, e))
  }

  predicate ClaimLeq(a: Entitlement, b: Entitlement) {
    if a.wallet != b.wallet then a.wallet < b.wallet else a.asset <= b.asset
  }

  function KeyOf(e: Entitlement): (nat, Address, Address) {
    (e.cycleId, e.wallet, e.asset)
  }

  ghost predicate DistinctKeys(es: seq<Entitlement>) {
    forall i, j :: 0 <= i < j < |es| ==> !SameKey(es[i], es[j])
  }

  predicate SameKey(a: Entitlement, b: Entitlement) {
    a.cycleId == b.cycleId && a.wallet == b.wallet && a.asset == b.asset
  }

  /** The first entry that is wrong decides: its amount before its key. */
  ghost predicate EntryFault(sorted: seq<Entitlement>, code: ErrorCode) {
    exists k :: 0 <= k < |sorted| && (forall j :: 0 <= j < k ==> sorted[j].amount > 0) && DistinctKeys(sorted[..k])
                && if sorted[k].amount <= 0 then code == ZERO_LEAF
                   else code == DUPLICATE_ENTITLEMENT && !DistinctKeys(sorted[..k + 1])
  }

  ghost predicate Buildable(es: seq<Entitlement>) {
    es != [] && DistinctKeys(es) && forall e :: e in es ==> e.amount > 0
  }

  lemma DistinctKeysReordered(es: seq<Entitlement>, fs: seq<Entitlement>)
    requires multiset(es) == multiset(fs) && DistinctKeys(es)
    ensures DistinctKeys(fs)
  {
    KeysReordered(es, fs, KeyOf);
  }

  method CheckEntries(sorted: seq<Entitlement>) returns (error: Option<ErrorCode>)
    ensures error.None? <==> DistinctKeys(sorted) && forall e :: e in sorted ==> e.amount > 0
    ensures error.Some? ==> error.value == ZERO_LEAF || error.value == DUPLICATE_ENTITLEMENT
    ensures error == Some(ZERO_LEAF) ==> exists e :: e in sorted && e.amount <= 0
    ensures error == Some(DUPLICATE_ENTITLEMENT) ==> !DistinctKeys(sorted)
    ensures error.Some? ==> EntryFault(sorted, error.value)
  {
    var seen: set<(nat, Address, Address)> := {};
    for i := 0 to |sorted|
      invariant DistinctKeys(sorted[..i])
      invariant forall j :: 0 <= j < i ==> sorted[j].amount > 0
      invariant forall k :: k in seen <==> exists j :: 0 <= j < i && KeyOf(sorted[j]) == k
    {
      var e := sorted[i];
      assert e in sorted && sorted[..i + 1] == sorted[..i] + [e];
      assert KeyOf(e) in seen <==> exists j :: 0 <= j < i && SameKey(sorted[j], e);
      if e.amount <= 0 { return Some(ZERO_LEAF); }
      if KeyOf(e) in seen { return Some(DUPLICATE_ENTITLEMENT); }
      seen := seen + {KeyOf(e)};
    }
    assert sorted[..|sorted|] == sorted;
    return None;
  }

  /** Encodable entries in claim order, each carrying a proof that folds to the root; nothing else is provable. */
  ghost predicate Published(domain: ClaimDomain, es: seq<Entitlement>, m: MerkleResult,
        less: (Digest, Digest) -> bool) {
    && AllEncodable(domain, es)
    && |m.entries| == |es|
    && multiset(EntitlementsOf(m.entries)) == multiset(es)
    && Ordered(EntitlementsOf(m.entries), ClaimLeq)
    && (forall x :: x in m.entries ==>
          x.leaf == LeafHash(domain, x.entitlement) && Fold(x.leaf, x.proof, less) == m.root)
    && (forall f :: Provable(m.root, f, less) <==> Leaf(f) in LeafHashes(domain, es))
  }

  /** The tree the library builds over the entitlements in claim order. */
  function TreeOf(domain: ClaimDomain, es: seq<Entitlement>, layout: Layout): Tree {
    layout(LeafHashes(domain, Sort(es, ClaimLeq)))
  }

  /** A leaf of the tree with its own sibling path. */
  ghost predicate IsEntry(x: Entry, domain: ClaimDomain, tree: Tree, less: (Digest, Digest) -> bool) {
    && x.leaf == LeafHash(domain, x.entitlement) && x.leaf in Leaves(tree)
    && x.proof == PathTo(tree, x.leaf, less)
  }

  /** Root, proofs and wallet index are those of the tree over the entitlements. */
  ghost predicate LaidOut(domain: ClaimDomain, es: seq<Entitlement>, m: MerkleResult, layout: Layout,
        less: (Digest, Digest) -> bool) {
    var tree := TreeOf(domain, es, layout);
    && m.root == Root(tree, less)
    && EntitlementsOf(m.entries) == Sort(es, ClaimLeq)
    && (forall x :: x in m.entries ==> IsEntry(x, domain, tree, less))
    && Indexed(m)
  }

  /** Every wallet with claims, and no other, is listed with exactly its entries. */
  ghost predicate Indexed(m: MerkleResult) {
    && (forall w :: w in m.walletIndex <==> EntriesOf(m.entries, w) != [])
    && (forall w :: w in m.walletIndex ==> m.walletIndex[w] == EntriesOf(m.entries, w))
  }

  function EntitlementsOf(xs: seq<Entry>): (es: seq<Entitlement>)
    ensures |es| == |xs| && forall i :: 0 <= i < |xs| ==> es[i] == xs[i].entitlement
  {
    seq(|xs|, i requires 0 <= i < |xs| => xs[i].entitlement)
  }

  function EntriesOf(xs: seq<Entry>, w: Address): seq<Entry> {
    if xs == [] then []
    else
      var last := xs[|xs| - 1];
      EntriesOf(xs[..|xs| - 1], w) + if last.entitlement.wallet == w then [last] else []
  }

  method BuildMerkle(domain: ClaimDomain, entitlements: seq<Entitlement>, layout: Layout,
        less: (Digest, Digest) -> bool)
      returns (r: Result<MerkleResult, ErrorCode>)
    requires Faithful(layout) && Separates(less)
    ensures r.Success? <==> Buildable(entitlements) && AllEncodable(domain, entitlements)
    ensures r.Success? ==> Published(domain, entitlements, r.value, less)
    ensures r.Success? ==> LaidOut(domain, entitlements, r.value, layout, less)
    ensures r.Failure? ==> r.error in {EMPTY_TREE, ZERO_LEAF, DUPLICATE_ENTITLEMENT, VALUE_OUT_OF_RANGE}
    ensures r.Failure? && r.error == VALUE_OUT_OF_RANGE <==>
            Buildable(entitlements) && !AllEncodable(domain, entitlements)
    ensures r.Failure? && r.error == EMPTY_TREE <==> entitlements == []
    ensures r.Failure? && r.error == ZERO_LEAF ==> exists e :: e in entitlements && e.amount <= 0
    ensures r.Failure? && r.error == DUPLICATE_ENTITLEMENT ==> !DistinctKeys(entitlements)
    ensures r.Failure? && entitlements != [] && r.error != VALUE_OUT_OF_RANGE ==>
              EntryFault(Sort(entitlements, ClaimLeq), r.error)
  {
    if entitlements == [] { return Failure(EMPTY_TREE); }
    var sorted := Sort(entitlements, ClaimLeq);
    var error := CheckEntries(sorted);
    if DistinctKeys(sorted) { DistinctKeysReordered(sorted, entitlements); }
    if DistinctKeys(entitlements) { DistinctKeysReordered(entitlements, sorted); }
    if error.Some? { return Failure(error.value); }
    if !AllEncodable(domain, sorted) { return Failure(VALUE_OUT_OF_RANGE); }
    var m := AssembleTree(domain, entitlements, sorted, layout, less);
    return Success(m);
  }

  method AssembleTree(domain: ClaimDomain, ghost entitlements: seq<Entitlement>, sorted: seq<Entitlement>,
        layout: Layout, less: (Digest, Digest) -> bool)
      returns (m: MerkleResult)
    requires Faithful(layout) && Separates(less)
    requires entitlements != [] && sorted == Sort(entitlements, ClaimLeq) && AllEncodable(domain, sorted)
    ensures Published(domain, entitlements, m, less)
    ensures LaidOut(domain, entitlements, m, layout, less)
  {
    var tree := layout(LeafHashes(domain, sorted));
    SameLeaves(domain, entitlements, sorted, tree, layout, less);
    var entries := MakeEntries(domain, sorted, tree, less);
    assert EntitlementsOf(entries) == sorted;
    var walletIndex := IndexByWallet(entries);
    forall x | x in entries
      ensures Fold(x.leaf, x.proof, less) == Root(tree, less)
    {
      assert IsEntry(x, domain, tree, less);
      FoldComplete(tree, x.leaf, less);
    }
    m := MerkleResult(Root(tree, less), entries, walletIndex);
  }

  lemma SameLeaves(domain: ClaimDomain, es: seq<Entitlement>, sorted: seq<Entitlement>, tree: Tree, layout: Layout,
        less: (Digest, Digest) -> bool)
    requires Faithful(layout) && Separates(less)
    requires sorted != [] && SameElements(sorted, es) && tree == layout(LeafHashes(domain, sorted))
    ensures forall e :: e in sorted ==> LeafHash(domain, e) in Leaves(tree)
    ensures forall f :: Provable(Root(tree, less), f, less) <==> Leaf(f) in LeafHashes(domain, es)
  {
    var ds := LeafHashes(domain, sorted);
    assert multiset(Leaves(tree)) == multiset(ds);
    forall d
      ensures d in Leaves(tree) <==> d in ds
    {
      assert d in Leaves(tree) <==> d in multiset(Leaves(tree));
      assert d in ds <==> d in multiset(ds);
    }
    forall e | e in sorted
      ensures LeafHash(domain, e) in Leaves(tree)
    {
      var i :| 0 <= i < |sorted| && sorted[i] == e;
      assert ds[i] == LeafHash(domain, e);
    }
    forall f
      ensures Provable(Root(tree, less), f, less) <==> Leaf(f) in LeafHashes(domain, es)
    {
      ProvableIffLeaf(tree, f, less);
      HashesOf(domain, sorted, f);
      HashesOf(domain, es, f);
    }
  }

  lemma HashesOf(domain: ClaimDomain, es: seq<Entitlement>, f: LeafFields)
    ensures Leaf(f) in LeafHashes(domain, es) <==> exists e :: e in es && f == FieldsOf(domain, e)
  {
    if Leaf(f) in LeafHashes(domain, es) {
      var i :| 0 <= i < |es| && LeafHashes(domain, es)[i] == Leaf(f);
      assert es[i] in es && f == FieldsOf(domain, es[i]);
    }
    if e :| e in es && f == FieldsOf(domain, e) {
      var i :| 0 <= i < |es| && es[i] == e;
      assert LeafHashes(domain, es)[i] == Leaf(f);
    }
  }

  /** Field by field: the fields of the domain with wallet, asset and amount of an entitlement, and nothing else. */
  lemma ProvableFields(domain: ClaimDomain, es: seq<Entitlement>, root: Digest, less: (Digest, Digest) -> bool,
        f: LeafFields)
    requires Provable(root, f, less) <==> Leaf(f) in LeafHashes(domain, es)
    ensures Provable(root, f, less) <==>
            && f.chainId == domain.chainId && f.claimManager == domain.claimManagerAddress
            && f.cycleId == domain.cycleId
            && exists e :: e in es && e.wallet == f.wallet && e.asset == f.asset && e.amount == f.amount
  {
    HashesOf(domain, es, f);
  }

  method MakeEntries(domain: ClaimDomain, sorted: seq<Entitlement>, tree: Tree, less: (Digest, Digest) -> bool)
        returns (entries: seq<Entry>)
    requires forall e :: e in sorted ==> LeafHash(domain, e) in Leaves(tree)
    ensures |entries| == |sorted|
    ensures forall i :: 0 <= i < |sorted| ==>
              && entries[i].entitlement == sorted[i] && IsEntry(entries[i], domain, tree, less)
  {
    entries := [];
    for i := 0 to |sorted|
      invariant |entries| == i
      invariant forall j :: 0 <= j < i ==>
                  && entries[j].entitlement == sorted[j] && IsEntry(entries[j], domain, tree, less)
    {
      assert sorted[i] in sorted;
      var leaf := LeafHash(domain, sorted[i]);
      entries := entries + [Entry(sorted[i], leaf, PathTo(tree, leaf, less))];
    }
  }

  method IndexByWallet(entries: seq<Entry>) returns (index: map<Address, seq<Entry>>)
    ensures forall w :: w in index <==> EntriesOf(entries, w) != []
    ensures forall w :: w in index ==> index[w] == EntriesOf(entries, w)
  {
    index := map[];
    for i := 0 to |entries|
      invariant forall w :: w in index <==> EntriesOf(entries[..i], w) != []
      invariant forall w :: w in index ==> index[w] == EntriesOf(entries[..i], w)
    {
      var w := entries[i].entitlement.wallet;
      assert entries[..i + 1][..i] == entries[..i];
      index := index[w := (if w in index then index[w] else []) + [entries[i]]];
    }
    assert entries[..|entries|] == entries;
  }

  // ---- The order of the entitlements does not matter ------------------------------------

  predicate ClaimLt(a: Entitlement, b: Entitlement) {
    a.wallet < b.wallet || (a.wallet == b.wallet && a.asset < b.asset)
  }

  /** One cycle's entitlements in any two orders give the same root, the same proofs and the same index. */
  lemma BuildIgnoresOrder(domain: ClaimDomain, es: seq<Entitlement>, fs: seq<Entitlement>, m: MerkleResult,
        n: MerkleResult, layout: Layout, less: (Digest, Digest) -> bool)
    requires multiset(es) == multiset(fs)
    requires DistinctKeys(es) && forall e :: e in es ==> e.cycleId == domain.cycleId
    requires LaidOut(domain, es, m, layout, less) && LaidOut(domain, fs, n, layout, less)
    ensures m == n
  {
    SameListing(es, fs, domain.cycleId);
    SameEntries(m.entries, n.entries, domain, TreeOf(domain, es, layout), less);
    SameIndex(m, n);
  }

  /** A wallet's claims; unknown wallets have none. */
  function WalletClaims(m: MerkleResult, w: Address): seq<Entry> {
    if w in m.walletIndex then m.walletIndex[w] else []
  }

  /** Looking up a wallet gives exactly the entries that name it, one per asset, by ascending asset. */
  lemma WalletClaimsAreItsEntries(domain: ClaimDomain, es: seq<Entitlement>, m: MerkleResult, layout: Layout,
        less: (Digest, Digest) -> bool, w: Address)
    requires LaidOut(domain, es, m, layout, less)
    requires DistinctKeys(es) && forall e :: e in es ==> e.cycleId == domain.cycleId
    ensures forall x :: x in WalletClaims(m, w) <==> x in m.entries && x.entitlement.wallet == w
    ensures forall i, j :: 0 <= i < j < |WalletClaims(m, w)| ==>
              WalletClaims(m, w)[i].entitlement.asset < WalletClaims(m, w)[j].entitlement.asset
  {
    SortedStrictly(es, domain.cycleId);
    forall i, j | 0 <= i < j < |m.entries|
      ensures ClaimLt(m.entries[i].entitlement, m.entries[j].entitlement)
    {
      assert ClaimLt(EntitlementsOf(m.entries)[i], EntitlementsOf(m.entries)[j]);
    }
    EntriesNameTheWallet(m.entries, w);
  }

  lemma {:induction false} EntriesNameTheWallet(xs: seq<Entry>, w: Address)
    requires forall i, j :: 0 <= i < j < |xs| ==> ClaimLt(xs[i].entitlement, xs[j].entitlement)
    ensures forall x :: x in EntriesOf(xs, w) <==> x in xs && x.entitlement.wallet == w
    ensures forall i, j :: 0 <= i < j < |EntriesOf(xs, w)| ==>
              EntriesOf(xs, w)[i].entitlement.asset < EntriesOf(xs, w)[j].entitlement.asset
  {
    if xs != [] {
      var front, last := xs[..|xs| - 1], xs[|xs| - 1];
      assert xs == front + [last];
      EntriesNameTheWallet(front, w);
      forall x | x in EntriesOf(front, w)
        ensures ClaimLt(x.entitlement, last.entitlement)
      {
        var i :| 0 <= i < |front| && front[i] == x;
        assert ClaimLt(xs[i].entitlement, xs[|xs| - 1].entitlement);
      }
    }
  }

  lemma SortedStrictly(es: seq<Entitlement>, cycleId: nat)
    requires DistinctKeys(es) && forall e :: e in es ==> e.cycleId == cycleId
    ensures Ordered(Sort(es, ClaimLeq), ClaimLt)
  {
    var sorted := Sort(es, ClaimLeq);
    DistinctKeysReordered(es, sorted);
    forall i, j | 0 <= i < j < |sorted|
      ensures ClaimLt(sorted[i], sorted[j])
    {
      assert sorted[i] in es && sorted[j] in es && ClaimLeq(sorted[i], sorted[j]);
      assert KeyOf(sorted[i]) != KeyOf(sorted[j]);
    }
  }

  lemma SameEntries(xs: seq<Entry>, ys: seq<Entry>, domain: ClaimDomain, tree: Tree, less: (Digest, Digest) -> bool)
    requires EntitlementsOf(xs) == EntitlementsOf(ys)
    requires forall x :: x in xs || x in ys ==> IsEntry(x, domain, tree, less)
    ensures xs == ys
  {
    forall i | 0 <= i < |xs|
      ensures xs[i] == ys[i]
    {
      assert xs[i].entitlement == EntitlementsOf(xs)[i] == EntitlementsOf(ys)[i] == ys[i].entitlement;
      assert xs[i] in xs && ys[i] in ys;
      assert IsEntry(xs[i], domain, tree, less) && IsEntry(ys[i], domain, tree, less);
    }
  }

  lemma SameIndex(m: MerkleResult, n: MerkleResult)
    requires Indexed(m) && Indexed(n) && m.entries == n.entries
    ensures m.walletIndex == n.walletIndex
  {
  }

  lemma SameListing(es: seq<Entitlement>, fs: seq<Entitlement>, cycleId: nat)
    requires multiset(es) == multiset(fs)
    requires DistinctKeys(es) && forall e :: e in es ==> e.cycleId == cycleId
    ensures Sort(es, ClaimLeq) == Sort(fs, ClaimLeq)
  {
    DistinctKeysReordered(es, fs);
    assert SameElements(es, fs) by {
      assert forall e :: e in es <==> e in multiset(es);
      assert forall e :: e in fs <==> e in multiset(fs);
    }
    SortedStrictly(es, cycleId);
    SortedStrictly(fs, cycleId);
    OrderedListingUnique(Sort(es, ClaimLeq), Sort(fs, ClaimLeq), ClaimLt);
  }

  // ---- What a published root lets anyone prove ------------------------------------------

  /** Under one root a wallet can prove at most one amount of an asset. */
  lemma OneAmountPerKey(domain: ClaimDomain, es: seq<Entitlement>, m: MerkleResult, less: (Digest, Digest) -> bool,
        f: LeafFields, g: LeafFields)
    requires Published(domain, es, m, less) && DistinctKeys(es) && forall e :: e in es ==> e.cycleId == domain.cycleId
    requires Provable(m.root, f, less) && Provable(m.root, g, less)
    requires f.wallet == g.wallet && f.asset == g.asset
    ensures f == g
  {
    HashesOf(domain, es, f);
    HashesOf(domain, es, g);
    var d :| d in es && f == FieldsOf(domain, d);
    var e :| e in es && g == FieldsOf(domain, e);
    assert KeyOf(d) == KeyOf(e);
  }

  function AssetOnly(es: seq<Entitlement>, asset: Address): seq<Entitlement> {
    if es == [] then []
    else
      var last := es[|es| - 1];
      AssetOnly(es[..|es| - 1], asset) + if last.asset == asset then [last] else []
  }

  function AllFields(domain: ClaimDomain, es: seq<Entitlement>): (fs: seq<LeafFields>)
    ensures |fs| == |es| && forall i :: 0 <= i < |es| ==> fs[i] == FieldsOf(domain, es[i])
  {
    seq(|es|, i requires 0 <= i < |es| => FieldsOf(domain, es[i]))
  }

  function ClaimedAmount(f: LeafFields): int { f.amount }

  /** No claim in the asset that is provable under the root is missing. */
  ghost predicate Exhaustive(claims: seq<LeafFields>, root: Digest, asset: Address, less: (Digest, Digest) -> bool) {
    forall f: LeafFields :: f.asset == asset && Provable(root, f, less) ==> f in claims
  }

  /** Any claims in one asset, each provable and no two the same, add up to at most what was entitled in it. */
  lemma ProvableTotalBounded(domain: ClaimDomain, es: seq<Entitlement>, m: MerkleResult,
        less: (Digest, Digest) -> bool, asset: Address, claims: seq<LeafFields>)
    requires Published(domain, es, m, less) && Buildable(es) && forall e :: e in es ==> e.cycleId == domain.cycleId
    requires Distinct(claims)
    requires forall f :: f in claims ==> f.asset == asset && Provable(m.root, f, less)
    ensures Total(claims, ClaimedAmount) <= Total(AssetOnly(es, asset), AmountOf)
    ensures Exhaustive(claims, m.root, asset, less) ==>
              Total(claims, ClaimedAmount) == Total(AssetOnly(es, asset), AmountOf)
  {
    var mine := AssetOnly(es, asset);
    var fields := AllFields(domain, mine);
    AssetOnlyElements(es, asset);
    FieldsTotal(domain, mine);
    FieldsDistinct(domain, mine);
    forall f
      ensures f in fields <==> f.asset == asset && Provable(m.root, f, less)
    {
      HashesOf(domain, es, f);
      FieldsElements(domain, mine, f);
    }
    SubsetMultiset(claims, fields);
    TotalMonotone(claims, fields, ClaimedAmount);
    if Exhaustive(claims, m.root, asset, less) {
      SubsetMultiset(fields, claims);
      TotalMonotone(fields, claims, ClaimedAmount);
    }
  }

  lemma {:induction false} AssetOnlyElements(es: seq<Entitlement>, asset: Address)
    ensures forall e :: e in AssetOnly(es, asset) <==> e in es && e.asset == asset
    ensures DistinctKeys(es) ==> DistinctKeys(AssetOnly(es, asset))
  {
    if es != [] {
      var front := es[..|es| - 1];
      assert es == front + [es[|es| - 1]];
      AssetOnlyElements(front, asset);
      if DistinctKeys(es) {
        assert DistinctKeys(front);
        assert forall e :: e in front ==> KeyOf(e) != KeyOf(es[|es| - 1]);
      }
    }
  }

  lemma {:induction false} FieldsTotal(domain: ClaimDomain, es: seq<Entitlement>)
    ensures Total(AllFields(domain, es), ClaimedAmount) == Total(es, AmountOf)
  {
    if es != [] {
      FieldsTotal(domain, es[..|es| - 1]);
      assert AllFields(domain, es)[..|es| - 1] == AllFields(domain, es[..|es| - 1]);
    }
  }

  lemma FieldsElements(domain: ClaimDomain, es: seq<Entitlement>, f: LeafFields)
    ensures f in AllFields(domain, es) <==> exists e :: e in es && f == FieldsOf(domain, e)
  {
    if f in AllFields(domain, es) {
      var i :| 0 <= i < |es| && AllFields(domain, es)[i] == f;
      assert es[i] in es;
    }
    if e :| e in es && f == FieldsOf(domain, e) {
      var i :| 0 <= i < |es| && es[i] == e;
      assert AllFields(domain, es)[i] == f;
    }
  }

  lemma FieldsDistinct(domain: ClaimDomain, es: seq<Entitlement>)
    requires DistinctKeys(es) && forall e :: e in es ==> e.cycleId == domain.cycleId
    ensures Distinct(AllFields(domain, es))
  {
    forall i, j | 0 <= i < j < |es|
      ensures AllFields(domain, es)[i] != AllFields(domain, es)[j]
    {
      assert KeyOf(es[i]) != KeyOf(es[j]);
    }
  }

  lemma SubsetMultiset<T(!new)>(xs: seq<T>, ys: seq<T>)
    requires Distinct(xs) && forall x :: x in xs ==> x in ys
    ensures multiset(xs) <= multiset(ys)
  {
    DistinctOnce(xs);
    forall x | x in multiset(xs)
      ensures multiset(xs)[x] <= multiset(ys)[x]
    {
      assert x in xs && x in ys;
    }
  }
}
