/** The user's own catalog entries (src/lib/custom-products.ts), kept in
    `localStorage` under `easydevis_custom_products`: the field of
    `ProductStore`. A read that throws is caught and reads as the empty
    list; a write that throws is NOT caught here, so the call fails and the
    store keeps its old contents (the `ok` result below). */
module CustomProducts {
  import opened Wrappers
  import opened Seqs
  import opened QuoteTypes

  /** `products.findIndex((p) => p.id === id)`, with `None` for -1. */
  function FindProduct(products: seq<Product>, id: string): (r: Option<nat>)
    ensures r.Some? ==> r.value < |products| && products[r.value].id == id
    ensures r.Some? ==> forall j :: 0 <= j < r.value ==> products[j].id != id
    ensures r.None? <==> forall j :: 0 <= j < |products| ==> products[j].id != id
  {
    FindIndex(products, (p: Product) => p.id == id)
  }

  /** The list `saveCustomProduct` writes back: the first entry with the
      product's id is replaced in place, or else the product is pushed at
      the end. */
  function SaveProduct(products: seq<Product>, product: Product): (r: seq<Product>)
    ensures |r| == |products| || |r| == |products| + 1
  {
    var idx := FindProduct(products, product.id);
    if idx.Some? then products[idx.value := product] else products + [product]
  }

  /** A new id is appended at the end: one more entry, the others first. */
  lemma SaveAppends(products: seq<Product>, product: Product)
    requires forall j :: 0 <= j < |products| ==> products[j].id != product.id
    ensures SaveProduct(products, product) == products + [product]
    ensures |SaveProduct(products, product)| == |products| + 1
  {
    assert FindProduct(products, product.id).None?;
  }

  /** A known id is replaced where it stands: same length, every other
      entry unchanged. */
  lemma SaveReplaces(products: seq<Product>, product: Product, k: nat)
    requires k < |products| && products[k].id == product.id
    requires forall j :: 0 <= j < k ==> products[j].id != product.id
    ensures SaveProduct(products, product) == products[k := product]
    ensures |SaveProduct(products, product)| == |products|
  {
  }

  /** No two entries share an id. */
  predicate UniqueProductIds(products: seq<Product>) {
    forall i, j :: 0 <= i < j < |products| ==> products[i].id != products[j].id
  }

  /** With unique ids before, a save keeps them unique and leaves the saved
      product as the one entry with its id. */
  lemma SaveKeepsIdsUnique(products: seq<Product>, product: Product)
    requires UniqueProductIds(products)
    ensures var r := SaveProduct(products, product);
            && UniqueProductIds(r)
            && (exists k :: 0 <= k < |r| && r[k] == product)
            && forall i :: 0 <= i < |r| ==> (r[i].id == product.id <==> r[i] == product)
  {
    var r := SaveProduct(products, product);
    var idx := FindProduct(products, product.id);
    if idx.None? {
      SaveAppends(products, product);
      assert r[|products|] == product;
    } else {
      var k := idx.value;
      assert r[k] == product;
      forall i | 0 <= i < |r| && i != k ensures r[i].id != product.id && r[i] == products[i] {
        if i < k { assert products[i].id != products[k].id; }
        else { assert products[k].id != products[i].id; }
      }
    }
  }

  /** Saving the same product twice leaves the list of saving it once. */
  lemma SaveIdempotent(products: seq<Product>, product: Product)
    ensures SaveProduct(SaveProduct(products, product), product) == SaveProduct(products, product)
  {
    var r := SaveProduct(products, product);
    var idx := FindProduct(products, product.id);
    if idx.Some? {
      var k := idx.value;
      assert forall j :: 0 <= j < k ==> r[j] == products[j];
      SaveReplaces(r, product, k);
      assert r[k := product] == r;
    } else {
      SaveReplaces(r, product, |products|);
      assert r[|products| := product] == r;
    }
  }

  /** `products.filter((p) => p.id !== productId)`. */
  function WithoutProduct(products: seq<Product>, productId: string): (r: seq<Product>)
    ensures forall i :: 0 <= i < |r| ==> r[i].id != productId && r[i] in products
    ensures forall i :: 0 <= i < |products| && products[i].id != productId ==> products[i] in r
    ensures IsSubsequence(r, products)
    ensures forall x {:trigger multiset(r)[x]} :: multiset(r)[x] == if x.id != productId then multiset(products)[x] else 0
  {
    var keep := (p: Product) => p.id != productId;
    FilterIsSubsequence(products, keep);
    FilterMultiset(products, keep);
    Filter(products, keep)
  }

  /** Deleting an id that no entry has keeps the list as it is. */
  lemma WithoutAbsentProduct(products: seq<Product>, productId: string)
    requires forall i :: 0 <= i < |products| ==> products[i].id != productId
    ensures WithoutProduct(products, productId) == products
  {
    FilterAll(products, (p: Product) => p.id != productId);
  }

  /** `products.filter((p) => p.trade === trade)`. */
  function OfTrade(products: seq<Product>, trade: Trade): (r: seq<Product>)
    ensures forall i :: 0 <= i < |r| ==> r[i].trade == trade && r[i] in products
    ensures forall i :: 0 <= i < |products| && products[i].trade == trade ==> products[i] in r
    ensures IsSubsequence(r, products)
    ensures forall x {:trigger multiset(r)[x]} :: multiset(r)[x] == if x.trade == trade then multiset(products)[x] else 0
  {
    var ofTrade := (p: Product) => p.trade == trade;
    FilterIsSubsequence(products, ofTrade);
    FilterMultiset(products, ofTrade);
    Filter(products, ofTrade)
  }

  /** Appending a product of another trade does not change a trade's list;
      appending one of the same trade adds it at the end. */
  lemma OfTradeAppend(products: seq<Product>, product: Product, trade: Trade)
    ensures OfTrade(products + [product], trade)
            == OfTrade(products, trade) + (if product.trade == trade then [product] else [])
  {
    var ofTrade := (p: Product) => p.trade == trade;
    FilterConcat(products, [product], ofTrade);
    assert [product][..0] == [];
  }

  /** The store of custom products. */
  class ProductStore {
    var products: seq<Product>

    constructor ()
      ensures products == []
    {
      products := [];
    }

    /** `getCustomProducts`: a read that throws gives the empty list. */
    method GetCustomProducts(readFails: bool) returns (r: seq<Product>)
      ensures readFails ==> r == []
      ensures !readFails ==> r == products
    {
      if readFails {
        return [];
      }
      return products;
    }

    /** `saveCustomProduct`: the loaded array is updated in place or pushed
        onto, then written back. `ok` is false when the write throws; the
        store is then unchanged. */
    method SaveCustomProduct(product: Product, readFails: bool, writeFails: bool) returns (ok: bool)
      modifies this
      ensures ok == !writeFails
      ensures writeFails ==> products == old(products)
      ensures !writeFails && !readFails ==> products == SaveProduct(old(products), product)
      ensures !writeFails && readFails ==> products == [product]
    {
      var loaded := GetCustomProducts(readFails);
      var idx := FindProduct(loaded, product.id);
      if idx.Some? {
        loaded := loaded[idx.value := product];
      } else {
        loaded := loaded + [product];
      }
      if writeFails {
        return false;
      }
      products := loaded;
      return true;
    }

    /** `deleteCustomProduct`: every entry with that id goes, the others stay
        in order. `ok` is false when the write throws. */
    method DeleteCustomProduct(productId: string, readFails: bool, writeFails: bool) returns (ok: bool)
      modifies this
      ensures ok == !writeFails
      ensures writeFails ==> products == old(products)
      ensures !writeFails && !readFails ==> products == WithoutProduct(old(products), productId)
      ensures !writeFails && readFails ==> products == []
    {
      var loaded := GetCustomProducts(readFails);
      var kept := WithoutProduct(loaded, productId);
      if writeFails {
        return false;
      }
      products := kept;
      return true;
    }

    /** `getCustomProductsByTrade`: exactly the stored products of that
        trade, in stored order. */
    method GetCustomProductsByTrade(trade: Trade, readFails: bool) returns (r: seq<Product>)
      ensures !readFails ==> r == OfTrade(products, trade)
      ensures forall i :: 0 <= i < |r| ==> r[i].trade == trade && r[i] in products
      ensures !readFails ==> forall x {:trigger multiset(r)[x]} :: multiset(r)[x] == if x.trade == trade then multiset(products)[x] else 0
      ensures IsSubsequence(r, products)
      ensures readFails ==> r == []
    {
      var loaded := GetCustomProducts(readFails);
      r := OfTrade(loaded, trade);
    }
  }
}
