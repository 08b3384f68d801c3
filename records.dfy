/**
 * A sales record and `normalizeRow`, which turns one parsed CSV row (a map from
 * column header to cell text) into a record. The four money columns are parsed
 * as floating point in the engine and are not part of this model.
 */
module Records {
  import opened Wrappers
  import opened JsText
  import opened Seqs

  /** The columns of the sales CSV that normalisation reads, named after their headers. */
  datatype Column =
    | CustomerIdCol | CustomerNameCol | PhoneNumberCol | GenderCol | AgeCol | RegionCol
    | CustomerTypeCol | ProductIdCol | ProductNameCol | BrandCol | CategoryCol | TagsCol
    | QuantityCol | DateCol | PaymentMethodCol | OrderStatusCol | DeliveryTypeCol
    | StoreIdCol | StoreLocationCol | SalespersonIdCol | EmployeeNameCol

  /** The header text of each column. */
  function Header(c: Column): string {
    match c
    case CustomerIdCol => "Customer ID"
    case CustomerNameCol => "Customer Name"
    case PhoneNumberCol => "Phone Number"
    case GenderCol => "Gender"
    case AgeCol => "Age"
    case RegionCol => "Customer Region"
    case CustomerTypeCol => "Customer Type"
    case ProductIdCol => "Product ID"
    case ProductNameCol => "Product Name"
    case BrandCol => "Brand"
    case CategoryCol => "Product Category"
    case TagsCol => "Tags"
    case QuantityCol => "Quantity"
    case DateCol => "Date"
    case PaymentMethodCol => "Payment Method"
    case OrderStatusCol => "Order Status"
    case DeliveryTypeCol => "Delivery Type"
    case StoreIdCol => "Store ID"
    case StoreLocationCol => "Store Location"
    case SalespersonIdCol => "Salesperson ID"
    case EmployeeNameCol => "Employee Name"
  }

  /**
   * One CSV row as the CSV parser hands it over, restricted to the columns above
   * (normalisation reads no other header): a column missing from the file, or a
   * cell missing from a short line, is an absent key.
   */
  type Row = map<Column, string>

  datatype Record = Record(
    customerId: string,
    customerName: string,
    phoneNumber: string,
    gender: string,
    age: int,
    region: string,
    customerType: string,
    productId: string,
    productName: string,
    brand: string,
    category: string,
    tags: seq<string>,
    quantity: int,
    date: string,
    paymentMethod: string,
    orderStatus: string,
    deliveryType: string,
    storeId: string,
    storeLocation: string,
    salespersonId: string,
    employeeName: string)

  /**
   * The services the engine takes from its runtime and does not define:
   * `new Date(s)` as a day number (None for an invalid date) and `localeCompare`.
   */
  datatype Platform = Platform(parseDate: string -> Option<int>, collate: (string, string) -> int)

  /** `row[header] || ''`. */
  function Cell(row: Row, c: Column): (r: string)
    ensures c in row ==> r == row[c]
    ensures c !in row ==> r == ""
  {
    if c in row then row[c] else ""
  }

  /** A tag as it comes out of normalisation: trimmed, non-empty, free of commas. */
  predicate IsTag(t: string) {
    t != "" && IsTrimmed(t) && ',' !in t
  }

  /** `cell.split(',').map(t => t.trim()).filter(Boolean)`. */
  function TagsOf(cell: string): seq<string> {
    Select(TrimEach(Split(cell, ',')), (t: string) => t != "")
  }

  /** What normalisation guarantees of every record it produces. */
  predicate WellFormed(r: Record) {
    IsTrimmed(r.customerId) && IsTrimmed(r.customerName) && IsTrimmed(r.phoneNumber) &&
    IsTrimmed(r.gender) && IsTrimmed(r.region) && IsTrimmed(r.customerType) &&
    IsTrimmed(r.productId) && IsTrimmed(r.productName) && IsTrimmed(r.brand) &&
    IsTrimmed(r.category) && IsTrimmed(r.date) && IsTrimmed(r.paymentMethod) &&
    IsTrimmed(r.orderStatus) && IsTrimmed(r.deliveryType) && IsTrimmed(r.storeId) &&
    IsTrimmed(r.storeLocation) && IsTrimmed(r.salespersonId) && IsTrimmed(r.employeeName) &&
    (forall t :: t in r.tags ==> IsTag(t))
  }

  /** `normalizeRow`: trims every text column, parses age and quantity with a fallback of 0, splits the tags. */
  function NormalizeRow(row: Row): (r: Record)
    ensures WellFormed(r)
  {
    var r := Record(
      Trim(Cell(row, CustomerIdCol)),
      Trim(Cell(row, CustomerNameCol)),
      Trim(Cell(row, PhoneNumberCol)),
      Trim(Cell(row, GenderCol)),
      IntOr(ParseInt(Cell(row, AgeCol)), 0),
      Trim(Cell(row, RegionCol)),
      Trim(Cell(row, CustomerTypeCol)),
      Trim(Cell(row, ProductIdCol)),
      Trim(Cell(row, ProductNameCol)),
      Trim(Cell(row, BrandCol)),
      Trim(Cell(row, CategoryCol)),
      TagsOf(Cell(row, TagsCol)),
      IntOr(ParseInt(Cell(row, QuantityCol)), 0),
      Trim(Cell(row, DateCol)),
      Trim(Cell(row, PaymentMethodCol)),
      Trim(Cell(row, OrderStatusCol)),
      Trim(Cell(row, DeliveryTypeCol)),
      Trim(Cell(row, StoreIdCol)),
      Trim(Cell(row, StoreLocationCol)),
      Trim(Cell(row, SalespersonIdCol)),
      Trim(Cell(row, EmployeeNameCol)));
    TagsAreTags(Cell(row, TagsCol));
    r
  }

  /**
   * The tags are the trimmed comma-separated pieces of the cell, in their order
   * and with duplicates, less the empty ones.
   */
  lemma TagsOfPieces(cell: string)
    ensures IsSubsequence(TagsOf(cell), TrimEach(Split(cell, ',')))
    ensures forall t :: t in TagsOf(cell) <==> t in TrimEach(Split(cell, ',')) && t != ""
    ensures multiset(TagsOf(cell))[""] == 0
    ensures forall t :: t != "" ==> multiset(TagsOf(cell))[t] == multiset(TrimEach(Split(cell, ',')))[t]
  {
    TagsInOrder(cell);
    TagsOfCounts(cell);
  }

  /** The kept pieces appear in the cell's order and are exactly its non-empty pieces. */
  lemma TagsInOrder(cell: string)
    ensures IsSubsequence(TagsOf(cell), TrimEach(Split(cell, ',')))
    ensures forall t :: t in TagsOf(cell) <==> t in TrimEach(Split(cell, ',')) && t != ""
  {
    SelectIsSubsequence(TrimEach(Split(cell, ',')), (t: string) => t != "");
    SelectMembers(TrimEach(Split(cell, ',')), (t: string) => t != "");
  }

  /** Each non-empty piece is kept as often as it occurs, and no empty one is. */
  lemma TagsOfCounts(cell: string)
    ensures multiset(TagsOf(cell))[""] == 0
    ensures forall t :: t != "" ==> multiset(TagsOf(cell))[t] == multiset(TrimEach(Split(cell, ',')))[t]
  {
    TagsCounted(TrimEach(Split(cell, ',')));
  }

  /** Keeping the non-empty pieces keeps each as often as it occurs and drops every empty one. */
  lemma TagsCounted(pieces: seq<string>)
    ensures multiset(Select(pieces, (t: string) => t != ""))[""] == 0
    ensures forall t :: t != "" ==> multiset(Select(pieces, (t: string) => t != ""))[t] == multiset(pieces)[t]
  {
    SelectCounts(pieces, (t: string) => t != "");
  }

  /** Every piece `TagsOf` keeps is a tag. */
  lemma TagsAreTags(cell: string)
    ensures forall t :: t in TagsOf(cell) ==> IsTag(t)
  {
    var trimmed := TrimEach(Split(cell, ','));
    TrimEachKeepsOut(Split(cell, ','), ',');
    SelectMembers(trimmed, (t: string) => t != "");
  }

  /** The trimmed pieces are trimmed and, when no piece holds `c`, still free of `c`. */
  lemma {:induction false} TrimEachKeepsOut(parts: seq<string>, c: char)
    requires forall p :: p in parts ==> c !in p
    ensures forall q :: q in TrimEach(parts) ==> c !in q && IsTrimmed(q)
  {
    if parts != [] {
      TrimEachKeepsOut(parts[1..], c);
      TrimKeepsOut(parts[0], c);
      assert TrimEach(parts) == [Trim(parts[0])] + TrimEach(parts[1..]);
    }
  }

  /** Trimming never introduces a character. */
  lemma TrimKeepsOut(s: string, c: char)
    requires c !in s
    ensures c !in Trim(s)
  {
    var t := TrimStart(s);
    var u := TrimEnd(t);
    assert Trim(s) == u;
    InnerRunKeepsOut(s, t, u, c);
  }

  /** A prefix of a suffix of `s` holds no character that `s` does not. */
  lemma InnerRunKeepsOut(s: string, t: string, u: string, c: char)
    requires |t| <= |s| && t == s[|s| - |t|..]
    requires |u| <= |t| && u == t[..|u|]
    requires c !in s
    ensures c !in u
  {
    assert s == s[..|s| - |t|] + t;
    assert t == u + t[|u|..];
  }

  /** Age is the parsed integer, or 0 when the cell is missing or holds no leading integer. */
  lemma NormalizeRowAge(row: Row)
    ensures ParseInt(Cell(row, AgeCol)).NaN? ==> NormalizeRow(row).age == 0
    ensures ParseInt(Cell(row, AgeCol)).Int? ==> NormalizeRow(row).age == ParseInt(Cell(row, AgeCol)).value
  {
  }

  /** Quantity is the parsed integer, or 0 when the cell is missing or holds no leading integer. */
  lemma NormalizeRowQuantity(row: Row)
    ensures ParseInt(Cell(row, QuantityCol)).NaN? ==> NormalizeRow(row).quantity == 0
    ensures ParseInt(Cell(row, QuantityCol)).Int? ==>
      NormalizeRow(row).quantity == ParseInt(Cell(row, QuantityCol)).value
  {
  }

  /** The text fields of a normalised record, one by one. */
  lemma NormalizeRowTextFields(row: Row)
    ensures NormalizeRow(row).customerId == Trim(Cell(row, CustomerIdCol))
    ensures NormalizeRow(row).customerName == Trim(Cell(row, CustomerNameCol))
    ensures NormalizeRow(row).phoneNumber == Trim(Cell(row, PhoneNumberCol))
    ensures NormalizeRow(row).gender == Trim(Cell(row, GenderCol))
    ensures NormalizeRow(row).region == Trim(Cell(row, RegionCol))
    ensures NormalizeRow(row).customerType == Trim(Cell(row, CustomerTypeCol))
    ensures NormalizeRow(row).productId == Trim(Cell(row, ProductIdCol))
    ensures NormalizeRow(row).productName == Trim(Cell(row, ProductNameCol))
    ensures NormalizeRow(row).brand == Trim(Cell(row, BrandCol))
    ensures NormalizeRow(row).category == Trim(Cell(row, CategoryCol))
    ensures NormalizeRow(row).date == Trim(Cell(row, DateCol))
    ensures NormalizeRow(row).paymentMethod == Trim(Cell(row, PaymentMethodCol))
    ensures NormalizeRow(row).orderStatus == Trim(Cell(row, OrderStatusCol))
    ensures NormalizeRow(row).deliveryType == Trim(Cell(row, DeliveryTypeCol))
    ensures NormalizeRow(row).storeId == Trim(Cell(row, StoreIdCol))
    ensures NormalizeRow(row).storeLocation == Trim(Cell(row, StoreLocationCol))
    ensures NormalizeRow(row).salespersonId == Trim(Cell(row, SalespersonIdCol))
    ensures NormalizeRow(row).employeeName == Trim(Cell(row, EmployeeNameCol))
  {
  }

  /** Every text field of `r` whose column is missing from `row` is empty. */
  predicate EmptyWhereMissing(r: Record, row: Row) {
    (CustomerIdCol !in row ==> r.customerId == "") &&
    (CustomerNameCol !in row ==> r.customerName == "") &&
    (PhoneNumberCol !in row ==> r.phoneNumber == "") &&
    (GenderCol !in row ==> r.gender == "") &&
    (RegionCol !in row ==> r.region == "") &&
    (CustomerTypeCol !in row ==> r.customerType == "") &&
    (ProductIdCol !in row ==> r.productId == "") &&
    (ProductNameCol !in row ==> r.productName == "") &&
    (BrandCol !in row ==> r.brand == "") &&
    (CategoryCol !in row ==> r.category == "") &&
    (DateCol !in row ==> r.date == "") &&
    (PaymentMethodCol !in row ==> r.paymentMethod == "") &&
    (OrderStatusCol !in row ==> r.orderStatus == "") &&
    (DeliveryTypeCol !in row ==> r.deliveryType == "") &&
    (StoreIdCol !in row ==> r.storeId == "") &&
    (StoreLocationCol !in row ==> r.storeLocation == "") &&
    (SalespersonIdCol !in row ==> r.salespersonId == "") &&
    (EmployeeNameCol !in row ==> r.employeeName == "")
  }

  /** A missing column gives an empty string in every text field, an age or quantity of 0, or no tags. */
  lemma NormalizeMissingColumns(row: Row)
    ensures EmptyWhereMissing(NormalizeRow(row), row)
    ensures AgeCol !in row ==> NormalizeRow(row).age == 0
    ensures TagsCol !in row ==> NormalizeRow(row).tags == []
    ensures QuantityCol !in row ==> NormalizeRow(row).quantity == 0
  {
    NormalizeRowTextFields(row);
    MissingTrimmedEmpty(NormalizeRow(row), row);
    MissingNumbers(row);
  }

  /** A record whose text fields are the trimmed cells of `row` has an empty field for every missing column. */
  lemma MissingTrimmedEmpty(r: Record, row: Row)
    requires r.customerId == Trim(Cell(row, CustomerIdCol))
    requires r.customerName == Trim(Cell(row, CustomerNameCol))
    requires r.phoneNumber == Trim(Cell(row, PhoneNumberCol))
    requires r.gender == Trim(Cell(row, GenderCol))
    requires r.region == Trim(Cell(row, RegionCol))
    requires r.customerType == Trim(Cell(row, CustomerTypeCol))
    requires r.productId == Trim(Cell(row, ProductIdCol))
    requires r.productName == Trim(Cell(row, ProductNameCol))
    requires r.brand == Trim(Cell(row, BrandCol))
    requires r.category == Trim(Cell(row, CategoryCol))
    requires r.date == Trim(Cell(row, DateCol))
    requires r.paymentMethod == Trim(Cell(row, PaymentMethodCol))
    requires r.orderStatus == Trim(Cell(row, OrderStatusCol))
    requires r.deliveryType == Trim(Cell(row, DeliveryTypeCol))
    requires r.storeId == Trim(Cell(row, StoreIdCol))
    requires r.storeLocation == Trim(Cell(row, StoreLocationCol))
    requires r.salespersonId == Trim(Cell(row, SalespersonIdCol))
    requires r.employeeName == Trim(Cell(row, EmployeeNameCol))
    ensures EmptyWhereMissing(r, row)
  {
    assert Trim("") == "";
  }

  /** A missing age or quantity column gives 0, a missing tags column no tags. */
  lemma MissingNumbers(row: Row)
    ensures AgeCol !in row ==> NormalizeRow(row).age == 0
    ensures TagsCol !in row ==> NormalizeRow(row).tags == []
    ensures QuantityCol !in row ==> NormalizeRow(row).quantity == 0
  {
    ParseIntEmpty();
    TagsOfEmpty();
  }

  /** An empty tags cell gives no tags. */
  lemma TagsOfEmpty()
    ensures TagsOf("") == []
  {
    EmptyCellPieces();
    TagsOfTrimmedPieces("", [""]);
    EmptyPieceDropped();
  }

  /** An empty cell is one empty piece. */
  lemma EmptyCellPieces()
    ensures TrimEach(Split("", ',')) == [""]
  {
    assert Split("", ',') == [""];
    assert TrimEach([""]) == [""];
  }

  /** A lone empty piece is not a tag. */
  lemma EmptyPieceDropped()
    ensures Select([""], (t: string) => t != "") == []
  {
    SelectSnoc([], "", (t: string) => t != "");
    assert [] + [""] == [""];
  }

  /** The cell text a record would be written back as in column `c`. */
  function CellOf(r: Record, c: Column): string {
    match c
    case CustomerIdCol => r.customerId
    case CustomerNameCol => r.customerName
    case PhoneNumberCol => r.phoneNumber
    case GenderCol => r.gender
    case AgeCol => DecimalString(r.age)
    case RegionCol => r.region
    case CustomerTypeCol => r.customerType
    case ProductIdCol => r.productId
    case ProductNameCol => r.productName
    case BrandCol => r.brand
    case CategoryCol => r.category
    case TagsCol => Join(r.tags, ',')
    case QuantityCol => DecimalString(r.quantity)
    case DateCol => r.date
    case PaymentMethodCol => r.paymentMethod
    case OrderStatusCol => r.orderStatus
    case DeliveryTypeCol => r.deliveryType
    case StoreIdCol => r.storeId
    case StoreLocationCol => r.storeLocation
    case SalespersonIdCol => r.salespersonId
    case EmployeeNameCol => r.employeeName
  }

  /** The CSV row a record would be written back as (money columns aside). */
  function RowOf(r: Record): Row {
    map c: Column :: CellOf(r, c)
  }

  /** Splitting the joined tags of a record gives its tags back. */
  lemma {:induction false} TagsOfJoin(tags: seq<string>)
    requires forall t :: t in tags ==> IsTag(t)
    ensures TagsOf(Join(tags, ',')) == tags
  {
    if tags == [] {
      TagsOfEmpty();
    } else {
      SplitJoin(tags, ',');
      TrimEachTrimmed(tags);
      TagsOfTrimmedPieces(Join(tags, ','), tags);
      SelectAll(tags, (t: string) => t != "");
    }
  }

  /** Once the trimmed pieces of a cell are known, its tags are the non-empty ones among them. */
  lemma TagsOfTrimmedPieces(cell: string, pieces: seq<string>)
    requires TrimEach(Split(cell, ',')) == pieces
    ensures TagsOf(cell) == Select(pieces, (t: string) => t != "")
  {
  }

  /** Each column of the written-back row holds the record's text for it. */
  lemma CellOfRowOf(r: Record, c: Column)
    ensures Cell(RowOf(r), c) == CellOf(r, c)
  {
  }

  /**
   * Normalisation is the inverse of writing a well-formed record out as a row:
   * nothing in a record that normalisation could have produced is lost.
   */
  lemma NormalizeRowOf(r: Record)
    requires WellFormed(r)
    ensures NormalizeRow(RowOf(r)) == r
  {
    TextCellsOf(r);
    NumberCellsOf(r);
    TagsCellOf(r);
  }

  /** The text columns of the written-back row hold the record's text as it is. */
  lemma TextCellsOf(r: Record)
    ensures Cell(RowOf(r), CustomerIdCol) == r.customerId
    ensures Cell(RowOf(r), CustomerNameCol) == r.customerName
    ensures Cell(RowOf(r), PhoneNumberCol) == r.phoneNumber
    ensures Cell(RowOf(r), GenderCol) == r.gender
    ensures Cell(RowOf(r), RegionCol) == r.region
    ensures Cell(RowOf(r), CustomerTypeCol) == r.customerType
    ensures Cell(RowOf(r), ProductIdCol) == r.productId
    ensures Cell(RowOf(r), ProductNameCol) == r.productName
    ensures Cell(RowOf(r), BrandCol) == r.brand
    ensures Cell(RowOf(r), CategoryCol) == r.category
    ensures Cell(RowOf(r), DateCol) == r.date
    ensures Cell(RowOf(r), PaymentMethodCol) == r.paymentMethod
    ensures Cell(RowOf(r), OrderStatusCol) == r.orderStatus
    ensures Cell(RowOf(r), DeliveryTypeCol) == r.deliveryType
    ensures Cell(RowOf(r), StoreIdCol) == r.storeId
    ensures Cell(RowOf(r), StoreLocationCol) == r.storeLocation
    ensures Cell(RowOf(r), SalespersonIdCol) == r.salespersonId
    ensures Cell(RowOf(r), EmployeeNameCol) == r.employeeName
  {
    CellOfRowOf(r, CustomerIdCol);
    CellOfRowOf(r, CustomerNameCol);
    CellOfRowOf(r, PhoneNumberCol);
    CellOfRowOf(r, GenderCol);
    CellOfRowOf(r, RegionCol);
    CellOfRowOf(r, CustomerTypeCol);
    CellOfRowOf(r, ProductIdCol);
    CellOfRowOf(r, ProductNameCol);
    CellOfRowOf(r, BrandCol);
    CellOfRowOf(r, CategoryCol);
    CellOfRowOf(r, DateCol);
    CellOfRowOf(r, PaymentMethodCol);
    CellOfRowOf(r, OrderStatusCol);
    CellOfRowOf(r, DeliveryTypeCol);
    CellOfRowOf(r, StoreIdCol);
    CellOfRowOf(r, StoreLocationCol);
    CellOfRowOf(r, SalespersonIdCol);
    CellOfRowOf(r, EmployeeNameCol);
  }

  /** The numeric columns of the written-back row hold the numbers in decimal, the tags column the tags joined by commas. */
  lemma EncodedCellsOf(r: Record)
    ensures Cell(RowOf(r), AgeCol) == DecimalString(r.age)
    ensures Cell(RowOf(r), QuantityCol) == DecimalString(r.quantity)
    ensures Cell(RowOf(r), TagsCol) == Join(r.tags, ',')
  {
    CellOfRowOf(r, AgeCol);
    CellOfRowOf(r, QuantityCol);
    CellOfRowOf(r, TagsCol);
  }

  /** The age and quantity columns of the written-back row read back as the record's numbers. */
  lemma NumberCellsOf(r: Record)
    ensures IntOr(ParseInt(Cell(RowOf(r), AgeCol)), 0) == r.age
    ensures IntOr(ParseInt(Cell(RowOf(r), QuantityCol)), 0) == r.quantity
  {
    EncodedCellsOf(r);
    IntRoundTrip(r.age);
    IntRoundTrip(r.quantity);
  }

  /** The tags column of the written-back row splits into the record's tags. */
  lemma TagsCellOf(r: Record)
    requires WellFormed(r)
    ensures TagsOf(Cell(RowOf(r), TagsCol)) == r.tags
  {
    EncodedCellsOf(r);
    TagsOfJoin(r.tags);
  }

  /** An integer written in decimal reads back through `parseInt(…) || 0`. */
  lemma IntRoundTrip(n: int)
    ensures IntOr(ParseInt(DecimalString(n)), 0) == n
  {
    ParseIntDecimalString(n);
  }

  /** Normalising is idempotent on the row it would write back. */
  lemma NormalizeRowStable(row: Row)
    ensures NormalizeRow(RowOf(NormalizeRow(row))) == NormalizeRow(row)
  {
    NormalizeRowOf(NormalizeRow(row));
  }
}
