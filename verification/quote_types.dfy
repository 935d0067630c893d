/** The entities of a quote (src/types/quote.ts). Every entity is a value:
    the application never updates one in place, it builds a new one with an
    object spread. Money, quantities and percentages are exact `real`s. */
module QuoteTypes {
  import opened Wrappers

  /** A calendar day, counted in days; the stored `YYYY-MM-DD` string is its
      printed form. */
  type Day = int

  datatype Trade = Electrician | Carpenter

  datatype Client = Client(
    name: string,
    email: string,
    phone: string,
    address: string,
    city: string,
    postalCode: string)

  datatype CompanyInfo = CompanyInfo(
    name: string,
    address: string,
    city: string,
    postalCode: string,
    phone: string,
    email: string,
    siret: Option<string>)

  datatype Product = Product(
    id: string,
    name: string,
    category: string,
    unitPrice: real,
    unit: string,
    trade: Trade)

  /** A line of the quote: a snapshot of the product, with its own unit
      price, unit and stored total. */
  datatype QuoteItem = QuoteItem(
    id: string,
    sectionId: string,
    product: Product,
    quantity: real,
    unitPrice: real,
    unit: string,
    total: real,
    description: Option<string>,
    included: bool)

  datatype QuoteSection = QuoteSection(id: string, name: string, order: int)

  datatype Quote = Quote(
    id: string,
    number: string,
    date: Day,
    validUntil: Day,
    trade: Trade,
    client: Client,
    companyInfo: CompanyInfo,
    sections: seq<QuoteSection>,
    items: seq<QuoteItem>,
    laborHours: real,
    laborRate: real,
    laborVisible: bool,
    marginPercent: real,
    discountPercent: real,
    tvaRate: real,
    notes: string)

  datatype QuoteCalculations = QuoteCalculations(
    subtotalProducts: real,
    laborCost: real,
    subtotalHT: real,
    margin: real,
    subtotalWithMargin: real,
    discount: real,
    totalHT: real,
    tva: real,
    totalTTC: real)

  /** The line invariant the editing handlers keep: the stored total is the
      line's own unit price times its quantity. */
  predicate ItemConsistent(item: QuoteItem) {
    item.total == item.unitPrice * item.quantity
  }

  predicate ItemsConsistent(items: seq<QuoteItem>) {
    forall i :: 0 <= i < |items| ==> ItemConsistent(items[i])
  }

  predicate UniqueItemIds(items: seq<QuoteItem>) {
    forall i, j :: 0 <= i < j < |items| ==> items[i].id != items[j].id
  }
}
