/** The product picker of the quote editor
    (src/components/quote/ProductCatalog.tsx): a search and category filter
    over the trade's catalog, a quantity field per product, and a dialog
    that creates or edits a custom product. The component's state hooks are
    the fields of `Catalog`; its props (`trade`, `sectionId`) are
    parameters. A typed number is given as what `parseFloat` reads from it,
    `None` standing for NaN. */
module ProductCatalog {
  import opened Wrappers
  import opened Seqs
  import opened Text
  import opened QuoteTypes
  import opened Products
  import opened CustomProducts

  /** The custom-product dialog: whether it is open, the product being
      edited (none for a new one), and the four inputs. */
  datatype CustomForm = CustomForm(
    open: bool,
    editProduct: Option<Product>,
    name: string,
    category: string,
    price: Option<real>,
    unit: string)

  /** What `onAddProduct` receives. */
  datatype AddRequest = AddRequest(product: Product, quantity: real, sectionId: string)

  const AllCategories: string := "all"
  const DefaultUnit: string := "unité"
  const DefaultCategory: string := "Personnalisé"
  const CustomPrefix: string := "custom-"

  /** The dialog as `openNewProduct` leaves it, without the open flag. */
  const EmptyForm: CustomForm := CustomForm(false, None, "", "", None, DefaultUnit)

  /** The search and category tests of one product. */
  predicate Matches(product: Product, search: string, category: string) {
    Contains(Lower(product.name), Lower(search))
    && (category == AllCategories || product.category == category)
  }

  /** `filteredProducts`: the products that pass both tests, in catalog
      order. */
  function FilteredProducts(products: seq<Product>, search: string, category: string): (r: seq<Product>)
    ensures forall i :: 0 <= i < |r| ==> r[i] in products && Matches(r[i], search, category)
    ensures forall i :: 0 <= i < |products| && Matches(products[i], search, category) ==> products[i] in r
    ensures forall x {:trigger multiset(r)[x]} :: multiset(r)[x] == if Matches(x, search, category) then multiset(products)[x] else 0
  {
    FilterMultiset(products, p => Matches(p, search, category));
    Filter(products, p => Matches(p, search, category))
  }

  /** The filtered list keeps the catalog's order. */
  lemma FilteredInOrder(products: seq<Product>, search: string, category: string)
    ensures IsSubsequence(FilteredProducts(products, search, category), products)
  {
    FilterIsSubsequence(products, p => Matches(p, search, category));
  }

  /** The empty string occurs in every string. */
  lemma ContainsEmpty(s: string)
    ensures Contains(s, "")
  {
    assert OccursAt(s, "", 0);
  }

  /** With an empty search and "all" categories, every product is listed. */
  lemma EmptyFilterKeepsAll(products: seq<Product>)
    ensures FilteredProducts(products, "", AllCategories) == products
  {
    forall i | 0 <= i < |products| ensures Matches(products[i], "", AllCategories) {
      ContainsEmpty(Lower(products[i].name));
    }
    FilterAll(products, p => Matches(p, "", AllCategories));
  }

  /** `quantities[product.id] || 1`: the stored quantity, or 1 when there
      is none or it is 0. */
  function RequestedQuantity(quantities: map<string, real>, productId: string): (r: real)
    ensures r != 0.0
    ensures productId in quantities && quantities[productId] != 0.0 ==> r == quantities[productId]
    ensures productId !in quantities ==> r == 1.0
    ensures productId in quantities && quantities[productId] == 0.0 ==> r == 1.0
  {
    if productId in quantities && quantities[productId] != 0.0 then quantities[productId] else 1.0
  }

  /** `!cpName.trim()`: the name trims to nothing. */
  predicate NameBlank(name: string) {
    Trim(name) == ""
  }

  /** A name trims to nothing exactly when it is all white space. */
  lemma NameBlankIff(name: string)
    ensures NameBlank(name) <==> IsBlank(name)
  {
    TrimEmptyIffBlank(name);
  }

  /** `isCustom`: the id carries the custom prefix. */
  predicate IsCustom(productId: string) {
    StartsWith(productId, CustomPrefix)
  }

  /** The product `handleSaveCustomProduct` saves: the edited product's id
      when it has one, else a fresh custom id; the trimmed name; the
      trimmed category or "Personnalisé"; the read price or 0; the unit as
      chosen; the current trade. */
  function CustomProductOf(form: CustomForm, trade: Trade, freshId: string): (p: Product)
    ensures p.name == Trim(form.name) && p.unit == form.unit && p.trade == trade
    ensures p.category != ""
    ensures Trim(form.category) != "" ==> p.category == Trim(form.category)
    ensures Trim(form.category) == "" ==> p.category == DefaultCategory
    ensures p.unitPrice == form.price.GetOr(0.0)
    ensures form.editProduct.Some? && form.editProduct.value.id != "" ==> p.id == form.editProduct.value.id
    ensures form.editProduct.None? ==> p.id == CustomPrefix + freshId
    ensures form.editProduct.Some? && form.editProduct.value.id == "" ==> p.id == CustomPrefix + freshId
  {
    var id := if form.editProduct.Some? && form.editProduct.value.id != "" then form.editProduct.value.id
              else CustomPrefix + freshId;
    var category := if Trim(form.category) != "" then Trim(form.category) else DefaultCategory;
    Product(id, Trim(form.name), category, form.price.GetOr(0.0), form.unit, trade)
  }

  /** A new product, or an edit of a custom product (the only ones the
      catalog offers to edit), is saved under a custom id. */
  lemma SavedProductIsCustom(form: CustomForm, trade: Trade, freshId: string)
    requires form.editProduct.Some? ==> IsCustom(form.editProduct.value.id)
    ensures IsCustom(CustomProductOf(form, trade, freshId).id)
  {
    var p := CustomProductOf(form, trade, freshId);
    if form.editProduct.None? {
      assert (CustomPrefix + freshId)[..|CustomPrefix|] == CustomPrefix;
    }
  }

  /** A built-in product never passes for a custom one. */
  lemma CatalogProductsNotCustom(trade: Trade)
    ensures var products := GetProductsByTrade(trade);
            forall i :: 0 <= i < |products| ==> !IsCustom(products[i].id)
  {
  }

  class Catalog {
    var search: string
    var category: string
    var quantities: map<string, real>
    var refreshKey: nat
    var form: CustomForm

    constructor ()
      ensures search == "" && category == AllCategories && quantities == map[]
      ensures refreshKey == 0 && form == EmptyForm
    {
      search := "";
      category := AllCategories;
      quantities := map[];
      refreshKey := 0;
      form := EmptyForm;
    }

    /** The list shown for the trade under the current filters. */
    function Listed(trade: Trade): (r: seq<Product>)
      reads this
      ensures |r| <= 15
      ensures forall i :: 0 <= i < |r| ==> r[i].trade == trade && Matches(r[i], search, category)
      ensures forall p :: p in GetProductsByTrade(trade) && Matches(p, search, category) ==> p in r
      ensures IsSubsequence(r, GetProductsByTrade(trade))
    {
      FilteredInOrder(GetProductsByTrade(trade), search, category);
      FilteredProducts(GetProductsByTrade(trade), search, category)
    }

    /** `handleQuantityChange`: the product's entry becomes the read
        number, or 0 when it reads as NaN; nothing else changes. */
    method HandleQuantityChange(productId: string, parsed: Option<real>)
      modifies this
      ensures quantities == old(quantities)[productId := parsed.GetOr(0.0)]
      ensures search == old(search) && category == old(category)
      ensures refreshKey == old(refreshKey) && form == old(form)
    {
      quantities := quantities[productId := parsed.GetOr(0.0)];
    }

    /** `handleAdd`: without a target section, nothing. Otherwise the
        product is requested with its stored quantity (or 1), and its
        entry is reset to 0, so that the next add defaults to 1 again. */
    method HandleAdd(product: Product, sectionId: string) returns (req: Option<AddRequest>)
      modifies this
      ensures sectionId == "" ==> req.None? && quantities == old(quantities)
      ensures sectionId != "" ==> req == Some(AddRequest(product, RequestedQuantity(old(quantities), product.id), sectionId))
      ensures sectionId != "" ==> quantities == old(quantities)[product.id := 0.0]
      ensures sectionId != "" ==> RequestedQuantity(quantities, product.id) == 1.0
      ensures req.Some? ==> req.value.quantity != 0.0
      ensures search == old(search) && category == old(category)
      ensures refreshKey == old(refreshKey) && form == old(form)
    {
      if sectionId == "" {
        return None;
      }
      var qty := RequestedQuantity(quantities, product.id);
      req := Some(AddRequest(product, qty, sectionId));
      quantities := quantities[product.id := 0.0];
    }

    /** `openNewProduct`: an open, empty dialog with unit "unité". */
    method OpenNewProduct()
      modifies this
      ensures form == EmptyForm.(open := true)
      ensures form.name == "" && form.category == "" && form.price.None? && form.unit == DefaultUnit
      ensures search == old(search) && category == old(category)
      ensures quantities == old(quantities) && refreshKey == old(refreshKey)
    {
      form := EmptyForm.(open := true);
    }

    /** `openEditProduct`: an open dialog filled from the product. */
    method OpenEditProduct(product: Product)
      modifies this
      ensures form == CustomForm(true, Some(product), product.name, product.category, Some(product.unitPrice), product.unit)
      ensures search == old(search) && category == old(category)
      ensures quantities == old(quantities) && refreshKey == old(refreshKey)
    {
      form := CustomForm(true, Some(product), product.name, product.category, Some(product.unitPrice), product.unit);
    }

    /** `handleSaveCustomProduct`: a blank name saves nothing. Otherwise
        the product is saved; when the store write goes through, the
        dialog closes and the list is refreshed. A failed write throws
        out of the handler, leaving the dialog open. */
    method HandleSaveCustomProduct(store: ProductStore, trade: Trade, freshId: string, readFails: bool, writeFails: bool)
      modifies this, store
      ensures NameBlank(old(form.name)) ==> store.products == old(store.products) && form == old(form) && refreshKey == old(refreshKey)
      ensures !NameBlank(old(form.name)) && !writeFails && !readFails
              ==> store.products == SaveProduct(old(store.products), CustomProductOf(old(form), trade, freshId))
      ensures !NameBlank(old(form.name)) && !writeFails && readFails
              ==> store.products == [CustomProductOf(old(form), trade, freshId)]
      ensures !NameBlank(old(form.name)) && !writeFails
              ==> form == old(form).(open := false) && refreshKey == old(refreshKey) + 1
      ensures writeFails ==> store.products == old(store.products) && form == old(form) && refreshKey == old(refreshKey)
      ensures search == old(search) && category == old(category) && quantities == old(quantities)
    {
      if NameBlank(form.name) {
        return;
      }
      var product := CustomProductOf(form, trade, freshId);
      SaveAndClose(store, product, readFails, writeFails);
    }

    /** `saveCustomProduct(product)`, then, when the write went through,
        the dialog closes and the list is refreshed. */
    method SaveAndClose(store: ProductStore, product: Product, readFails: bool, writeFails: bool)
      modifies this, store
      ensures !writeFails && !readFails ==> store.products == SaveProduct(old(store.products), product)
      ensures !writeFails && readFails ==> store.products == [product]
      ensures !writeFails ==> form == old(form).(open := false) && refreshKey == old(refreshKey) + 1
      ensures writeFails ==> store.products == old(store.products) && form == old(form) && refreshKey == old(refreshKey)
      ensures search == old(search) && category == old(category) && quantities == old(quantities)
    {
      var ok := store.SaveCustomProduct(product, readFails, writeFails);
      if !ok {
        return;
      }
      form := form.(open := false);
      refreshKey := refreshKey + 1;
    }

    /** `handleDeleteCustomProduct`: the entries with that id leave the
        store and the list is refreshed. */
    method HandleDeleteCustomProduct(store: ProductStore, productId: string, readFails: bool, writeFails: bool)
      modifies this, store
      ensures !writeFails && !readFails ==> store.products == WithoutProduct(old(store.products), productId)
      ensures !writeFails && readFails ==> store.products == []
      ensures !writeFails ==> refreshKey == old(refreshKey) + 1
      ensures writeFails ==> store.products == old(store.products) && refreshKey == old(refreshKey)
      ensures search == old(search) && category == old(category)
      ensures quantities == old(quantities) && form == old(form)
    {
      var ok := store.DeleteCustomProduct(productId, readFails, writeFails);
      if !ok {
        return;
      }
      refreshKey := refreshKey + 1;
    }
  }
}
