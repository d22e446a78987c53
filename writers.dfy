/** Output side: the Farnell order-sheet writer of partsy/writers.py. The
    CSV stream is modelled as the sequence of rows written to it. */
module Writers {
  import opened Wrappers
  import opened Dicts
  import opened Readers
  import opened Database

  /** One CSV row of the order sheet: part number, then quantity. */
  datatype Row = Row(partNumber: PropValue, quantity: PropValue)

  const Header: Row := Row(PStr("Part Number"), PStr("Quantity"))

  /** `MissingOrderNo` (a `PartsyError`), raised with the offending item;
      and the KeyError that `item.props['qty']` raises on an item without a
      quantity. */
  datatype WriteError = MissingOrderNo(item: Item) | MissingQuantity

  /** The row `output_article` writes for `(item, article)`, or the error it
      raises: the article's Farnell order number with the item's quantity as
      stored, and MissingOrderNo when the article has no `farnell` entry. */
  function FarnellRow(item: Item, article: Article): (r: Result<Row, WriteError>)
    ensures r == Failure(MissingOrderNo(item)) <==> Get(article.vendors, "farnell").None?
    ensures r == Failure(MissingQuantity) <==> Get(article.vendors, "farnell").Some? && "qty" !in item.props
    ensures r.Success? <==> Get(article.vendors, "farnell").Some? && "qty" in item.props
    ensures r.Success? ==>
      && r.value.partNumber.PStr?
      && Get(article.vendors, "farnell") == Some(r.value.partNumber.s)
      && "qty" in item.props && r.value.quantity == item.props["qty"]
  {
    var order := Get(article.vendors, "farnell");
    if order.None? then Failure(MissingOrderNo(item))
    else if "qty" !in item.props then Failure(MissingQuantity)
    else Success(Row(PStr(order.value), item.props["qty"]))
  }

  /** Vendor entries other than Farnell's never change what is written. */
  lemma OtherVendorsIrrelevant(item: Item, a: Article, b: Article)
    requires Get(a.vendors, "farnell") == Get(b.vendors, "farnell")
    ensures FarnellRow(item, a) == FarnellRow(item, b)
  {
  }

  /** Adding a vendor other than Farnell to an article never changes what
      is written for it. */
  lemma AddedVendorIrrelevant(item: Item, a: Article, vendor: string, orderNo: string)
    requires vendor != "farnell"
    ensures FarnellRow(item, a.(vendors := a.vendors + [(vendor, orderNo)])) == FarnellRow(item, a)
  {
    GetAppend(a.vendors, [(vendor, orderNo)], "farnell");
  }

  /** `FarnellWriter`: writes the header when built, then one row per
      article it is given. */
  class FarnellWriter {
    /** Everything written to the output stream so far. */
    var rows: seq<Row>

    /** The header is the first row, and only data rows follow it. */
    ghost predicate Valid()
      reads this
    {
      |rows| > 0 && rows[0] == Header
    }

    /** `FarnellWriter(outstream)`: the header row and nothing else. */
    constructor ()
      ensures Valid() && rows == [Header]
    {
      rows := [Header];
    }

    /** `output_article`: appends the one row `FarnellRow` gives, leaving
        the rows already written as they are, or raises and writes nothing. */
    method OutputArticle(item: Item, article: Article) returns (res: Outcome<WriteError>)
      requires Valid()
      modifies this
      ensures Valid()
      ensures FarnellRow(item, article).Success? ==>
        res == Pass && rows == old(rows) + [FarnellRow(item, article).value]
      ensures FarnellRow(item, article).Failure? ==>
        res == Fail(FarnellRow(item, article).error) && rows == old(rows)
    {
      if Get(article.vendors, "farnell").None? {
        return Fail(MissingOrderNo(item));
      }
      var orderNo := Get(article.vendors, "farnell").value;
      if "qty" !in item.props {
        return Fail(MissingQuantity);
      }
      rows := rows + [Row(PStr(orderNo), item.props["qty"])];
      res := Pass;
    }
  }
}
