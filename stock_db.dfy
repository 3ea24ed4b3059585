/** The in-memory stock catalog: a fixed, immutable list of two stocks. */
module StockDB {
  import opened JavaInt
  import opened Ascii

  /** A catalog record. */
  datatype Stock = Stock(id: int32, name: string, price: int32, timestamp: string)

  /** The `stocks` list, built once with `List.of` and never changed. */
  const Stocks: seq<Stock> := [
    Stock(1, "Tata", 20, "1324"),
    Stock(2, "Lavish Motors", 50, "5757")
  ]

  /** No two records share a name, even ignoring letter case. */
  predicate NamesDistinct(stocks: seq<Stock>)
  {
    forall i, j :: 0 <= i < j < |stocks| ==> !EqualsIgnoreCase(stocks[i].name, stocks[j].name)
  }

  /** No two records share an id. */
  predicate IdsDistinct(stocks: seq<Stock>)
  {
    forall i, j :: 0 <= i < j < |stocks| ==> stocks[i].id != stocks[j].id
  }

  /** `getStocksFromDB`: the catalog's two entries, in order, whose names and
      ids are pairwise distinct. */
  function GetStocksFromDB(): (r: seq<Stock>)
    ensures |r| == 2
    ensures r[0] == Stock(1, "Tata", 20, "1324")
    ensures r[1] == Stock(2, "Lavish Motors", 50, "5757")
    ensures NamesDistinct(r) && IdsDistinct(r)
  {
    Stocks
  }
}
