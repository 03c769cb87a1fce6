/** The query front end: an exact lookup first, then a substring search
    whose results are shown as one price, or as price tables. */
module Parser {
  import opened Base
  import opened Offers
  import opened PriceIndex

  /** ParseInput: the exact lookup of `input` with no attributes wins when it
      succeeds. Otherwise every name containing `input` is searched: no
      result reports the lookup's error, one result is shown alone, and
      several are shown as tables sorted by hourly price. */
  method ParseInput(priceDB: PriceDB, input: string) returns (r: Result<string>)
    ensures var got := priceDB.View().Get(input, map[]);
            got.Ok? ==> r == Ok(got.value.String())
    ensures var got := priceDB.View().Get(input, map[]);
            var found := priceDB.View().SearchResult(input, map[]);
            got.Err? && found == multiset{} ==> r == Err(got.error)
    ensures var got := priceDB.View().Get(input, map[]);
            var found := priceDB.View().SearchResult(input, map[]);
            got.Err? && |found| == 1 ==> forall o :: o in found ==> r == Ok(o.String())
    ensures var got := priceDB.View().Get(input, map[]);
            var found := priceDB.View().SearchResult(input, map[]);
            got.Err? && |found| >= 2 ==>
              exists shown :: SortedByPrice(shown) && multiset(shown) == found && r == Ok(TableText(shown))
  {
    var attr: map<string, string> := map[];
    var offer := priceDB.View().Get(input, attr);
    if offer.Err? {
      var prices := priceDB.Search(input, attr);
      if |prices| == 0 {
        return Err(offer.error);
      }
      if |prices| == 1 {
        assert multiset(prices) == multiset{prices[0]};
        return Ok(prices[0].String());
      }
      var el := new Offer[|prices|](i requires 0 <= i < |prices| => prices[i]);
      assert el[..] == prices;
      var text := PriceTable(el);
      assert SortedByPrice(el[..]) && multiset(el[..]) == multiset(prices);
      return Ok(text);
    }
    return Ok(offer.value.String());
  }
}
