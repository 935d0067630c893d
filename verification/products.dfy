/** The built-in catalogs (src/data/products.ts): fifteen products per
    trade, and the two queries over them. */
module Products {
  import opened Seqs
  import opened QuoteTypes

  const ElectricianProducts: seq<Product> := [
    Product("e1", "Tableau électrique 13 modules", "Tableaux", 245.0, "unité", Electrician),
    Product("e2", "Tableau électrique 26 modules", "Tableaux", 385.0, "unité", Electrician),
    Product("e3", "Interrupteur différentiel 40A 30mA", "Protection", 89.0, "unité", Electrician),
    Product("e4", "Disjoncteur 16A", "Protection", 12.0, "unité", Electrician),
    Product("e5", "Disjoncteur 20A", "Protection", 14.0, "unité", Electrician),
    Product("e6", "Disjoncteur 32A", "Protection", 18.0, "unité", Electrician),
    Product("e7", "Prise électrique 16A", "Appareillage", 8.0, "unité", Electrician),
    Product("e8", "Interrupteur simple", "Appareillage", 6.0, "unité", Electrician),
    Product("e9", "Interrupteur va-et-vient", "Appareillage", 9.0, "unité", Electrician),
    Product("e10", "Spot LED encastrable", "Éclairage", 25.0, "unité", Electrician),
    Product("e11", "Câble R2V 3G2.5", "Câbles", 2.5, "mètre", Electrician),
    Product("e12", "Câble R2V 3G6", "Câbles", 4.5, "mètre", Electrician),
    Product("e13", "Gaine ICTA 20mm", "Câbles", 0.8, "mètre", Electrician),
    Product("e14", "Boîte de dérivation", "Accessoires", 3.0, "unité", Electrician),
    Product("e15", "Prise RJ45 Cat6", "Appareillage", 18.0, "unité", Electrician)
  ]

  const CarpenterProducts: seq<Product> := [
    Product("c1", "Porte intérieure standard", "Portes", 180.0, "unité", Carpenter),
    Product("c2", "Porte intérieure vitrée", "Portes", 280.0, "unité", Carpenter),
    Product("c3", "Bloc porte pré-peint", "Portes", 220.0, "unité", Carpenter),
    Product("c4", "Fenêtre PVC 1 vantail", "Fenêtres", 320.0, "unité", Carpenter),
    Product("c5", "Fenêtre PVC 2 vantaux", "Fenêtres", 480.0, "unité", Carpenter),
    Product("c6", "Porte-fenêtre PVC", "Fenêtres", 650.0, "unité", Carpenter),
    Product("c7", "Volet roulant manuel", "Volets", 280.0, "unité", Carpenter),
    Product("c8", "Volet roulant électrique", "Volets", 420.0, "unité", Carpenter),
    Product("c9", "Parquet stratifié", "Sols", 25.0, "m²", Carpenter),
    Product("c10", "Parquet contrecollé chêne", "Sols", 55.0, "m²", Carpenter),
    Product("c11", "Plinthe bois", "Finitions", 8.0, "mètre", Carpenter),
    Product("c12", "Étagère sur mesure", "Rangement", 120.0, "mètre", Carpenter),
    Product("c13", "Placard coulissant 2 portes", "Rangement", 850.0, "unité", Carpenter),
    Product("c14", "Escalier bois standard", "Escaliers", 2500.0, "unité", Carpenter),
    Product("c15", "Garde-corps bois", "Escaliers", 180.0, "mètre", Carpenter)
  ]

  /** `getProductsByTrade`: the electrician catalog for `electrician`, the
      carpenter catalog otherwise; custom products are not merged in. */
  function GetProductsByTrade(trade: Trade): (r: seq<Product>)
    ensures |r| == 15
    ensures forall i :: 0 <= i < |r| ==> r[i].trade == trade
  {
    if trade == Electrician then ElectricianProducts
    else assert trade == Carpenter; CarpenterProducts
  }

  /** `products.map((p) => p.category)`. */
  function Categories(products: seq<Product>): (r: seq<string>)
    ensures |r| == |products| && forall i :: 0 <= i < |products| ==> r[i] == products[i].category
  {
    seq(|products|, i requires 0 <= i < |products| => products[i].category)
  }

  /** `getCategories`: each category of the trade's catalog once, in the
      order of first occurrence. */
  function GetCategories(trade: Trade): seq<string> {
    Distinct(Categories(GetProductsByTrade(trade)))
  }

  /** No two products of a built-in catalog share an id. */
  lemma CatalogIdsUnique(trade: Trade)
    ensures var r := GetProductsByTrade(trade);
            forall i, j :: 0 <= i < j < |r| ==> r[i].id != r[j].id
  {
  }

  /** The categories have no duplicates, are exactly those of the trade's
      products, and keep the catalog's order. */
  lemma CategoriesExact(trade: Trade)
    ensures var cats := GetCategories(trade);
            var products := GetProductsByTrade(trade);
            && (forall i, j :: 0 <= i < j < |cats| ==> cats[i] != cats[j])
            && (forall i :: 0 <= i < |cats| ==> exists j :: 0 <= j < |products| && products[j].category == cats[i])
            && (forall j :: 0 <= j < |products| ==> products[j].category in cats)
            && IsSubsequence(cats, Categories(products))
  {
    DistinctCategories(GetProductsByTrade(trade));
  }

  /** The dedupe of the categories of any product list. */
  lemma DistinctCategories(products: seq<Product>)
    ensures var cats := Distinct(Categories(products));
            && (forall i, j :: 0 <= i < j < |cats| ==> cats[i] != cats[j])
            && (forall i :: 0 <= i < |cats| ==> exists j :: 0 <= j < |products| && products[j].category == cats[i])
            && (forall j :: 0 <= j < |products| ==> products[j].category in cats)
            && IsSubsequence(cats, Categories(products))
  {
    var all := Categories(products);
    var cats := Distinct(all);
    DistinctMembers(all);
    forall i | 0 <= i < |cats| ensures exists j :: 0 <= j < |products| && products[j].category == cats[i] {
      var j :| 0 <= j < |all| && all[j] == cats[i];
    }
    DistinctIsSubsequence(all);
  }

  /** The categories of the electrician catalog, product by product. */
  lemma ElectricianCategoryList()
    ensures Categories(ElectricianProducts) == ["Tableaux", "Tableaux", "Protection", "Protection", "Protection", "Protection", "Appareillage", "Appareillage", "Appareillage", "Éclairage", "Câbles", "Câbles", "Câbles", "Accessoires", "Appareillage"]
  {
  }

  /* The dedupe of a category list is followed a few runs at a time, over
     category names given as variables, so that each step stays small. */

  lemma ElectricianRuns1(s: seq<string>, t: string, p: string, a: string)
    requires t != p && t != a && p != a
    requires s == [t, t, p, p, p, p, a, a, a]
    ensures Distinct(s) == [t, p, a]
  {
    DistinctAppendRun([], t, [t]);
    assert [] + ([t] + [t]) == [t, t];
    DistinctAppendRun([t, t], p, [p, p, p]);
    assert [t, t] + ([p] + [p, p, p]) == [t, t, p, p, p, p];
    DistinctAppendRun([t, t, p, p, p, p], a, [a, a]);
    assert [t, t, p, p, p, p] + ([a] + [a, a]) == s;
  }

  lemma ElectricianRuns2(s: seq<string>, t: string, p: string, a: string, e: string, cb: string)
    requires e != t && e != p && e != a && cb != t && cb != p && cb != a && e != cb
    requires Distinct(s) == [t, p, a]
    ensures Distinct(s + [e, cb, cb, cb]) == [t, p, a, e, cb]
  {
    DistinctAppendRun(s, e, []);
    assert s + ([e] + []) == s + [e];
    DistinctAppendRun(s + [e], cb, [cb, cb]);
    assert s + [e] + ([cb] + [cb, cb]) == s + [e, cb, cb, cb];
  }

  lemma ElectricianRuns3(s: seq<string>, t: string, p: string, a: string, e: string, cb: string, acc: string)
    requires acc != t && acc != p && acc != a && acc != e && acc != cb
    requires Distinct(s) == [t, p, a, e, cb]
    ensures Distinct(s + [acc, a]) == [t, p, a, e, cb, acc]
  {
    DistinctAppendRun(s, acc, []);
    assert s + ([acc] + []) == s + [acc];
    DistinctAppendSeen(s + [acc], [a]);
    assert s + [acc] + [a] == s + [acc, a];
  }

  /** The dedupe of a list shaped like the electrician categories keeps
      the first of each run, and drops the late repeat of the third. */
  lemma ElectricianRuns(c: seq<string>, t: string, p: string, a: string, e: string, cb: string, acc: string)
    requires t != p && t != a && t != e && t != cb && t != acc && p != a && p != e && p != cb && p != acc
    requires a != e && a != cb && a != acc && e != cb && e != acc && cb != acc
    requires c == [t, t, p, p, p, p, a, a, a, e, cb, cb, cb, acc, a]
    ensures Distinct(c) == [t, p, a, e, cb, acc]
  {
    ElectricianRuns1(c[..9], t, p, a);
    ElectricianRuns2(c[..9], t, p, a, e, cb);
    assert c[..13] == c[..9] + [e, cb, cb, cb];
    ElectricianRuns3(c[..13], t, p, a, e, cb, acc);
    assert c == c[..13] + [acc, a];
  }

  /** The electrician categories, in first-occurrence order. */
  lemma ElectricianCategories()
    ensures GetCategories(Electrician) == ["Tableaux", "Protection", "Appareillage", "Éclairage", "Câbles", "Accessoires"]
  {
    ElectricianCategoryList();
    ElectricianRuns(Categories(ElectricianProducts), "Tableaux", "Protection", "Appareillage", "Éclairage", "Câbles", "Accessoires");
  }

  /** The categories of the carpenter catalog, product by product. */
  lemma CarpenterCategoryList()
    ensures Categories(CarpenterProducts) == ["Portes", "Portes", "Portes", "Fenêtres", "Fenêtres", "Fenêtres", "Volets", "Volets", "Sols", "Sols", "Finitions", "Rangement", "Rangement", "Escaliers", "Escaliers"]
  {
  }

  lemma CarpenterRuns1(s: seq<string>, po: string, f: string, v: string)
    requires po != f && po != v && f != v
    requires s == [po, po, po, f, f, f, v, v]
    ensures Distinct(s) == [po, f, v]
  {
    DistinctAppendRun([], po, [po, po]);
    assert [] + ([po] + [po, po]) == [po, po, po];
    DistinctAppendRun([po, po, po], f, [f, f]);
    assert [po, po, po] + ([f] + [f, f]) == [po, po, po, f, f, f];
    DistinctAppendRun([po, po, po, f, f, f], v, [v]);
    assert [po, po, po, f, f, f] + ([v] + [v]) == s;
  }

  lemma CarpenterRuns2(s: seq<string>, po: string, f: string, v: string, so: string, fi: string)
    requires so != po && so != f && so != v && fi != po && fi != f && fi != v && so != fi
    requires Distinct(s) == [po, f, v]
    ensures Distinct(s + [so, so, fi]) == [po, f, v, so, fi]
  {
    DistinctAppendRun(s, so, [so]);
    assert s + ([so] + [so]) == s + [so, so];
    DistinctAppendRun(s + [so, so], fi, []);
    assert s + [so, so] + ([fi] + []) == s + [so, so, fi];
  }

  lemma CarpenterRuns3(s: seq<string>, po: string, f: string, v: string, so: string, fi: string, r: string, e: string)
    requires r != po && r != f && r != v && r != so && r != fi
    requires e != po && e != f && e != v && e != so && e != fi && r != e
    requires Distinct(s) == [po, f, v, so, fi]
    ensures Distinct(s + [r, r, e, e]) == [po, f, v, so, fi, r, e]
  {
    DistinctAppendRun(s, r, [r]);
    assert s + ([r] + [r]) == s + [r, r];
    DistinctAppendRun(s + [r, r], e, [e]);
    assert s + [r, r] + ([e] + [e]) == s + [r, r, e, e];
  }

  /** The dedupe of a list shaped like the carpenter categories keeps the
      first of each run. */
  lemma CarpenterRuns(c: seq<string>, po: string, f: string, v: string, so: string, fi: string, r: string, e: string)
    requires po != f && po != v && po != so && po != fi && po != r && po != e
    requires f != v && f != so && f != fi && f != r && f != e
    requires v != so && v != fi && v != r && v != e
    requires so != fi && so != r && so != e && fi != r && fi != e && r != e
    requires c == [po, po, po, f, f, f, v, v, so, so, fi, r, r, e, e]
    ensures Distinct(c) == [po, f, v, so, fi, r, e]
  {
    CarpenterRuns1(c[..8], po, f, v);
    CarpenterRuns2(c[..8], po, f, v, so, fi);
    assert c[..11] == c[..8] + [so, so, fi];
    CarpenterRuns3(c[..11], po, f, v, so, fi, r, e);
    assert c == c[..11] + [r, r, e, e];
  }

  /** The carpenter categories, in first-occurrence order. */
  lemma CarpenterCategories()
    ensures GetCategories(Carpenter) == ["Portes", "Fenêtres", "Volets", "Sols", "Finitions", "Rangement", "Escaliers"]
  {
    CarpenterCategoryList();
    CarpenterRuns(Categories(CarpenterProducts), "Portes", "Fenêtres", "Volets", "Sols", "Finitions", "Rangement", "Escaliers");
  }
}
