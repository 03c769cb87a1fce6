/** The extractor: scan a SKU's on-demand terms for the first parseable USD
    price, filter each family's products, and store what survives into the
    price database. Reading and decoding the catalog files happens before
    this module; `parseFloat` stands for strconv.ParseFloat. */
module Extractor {
  import opened Base
  import opened Catalog
  import opened OfferEC2
  import opened OfferRDS
  import opened Offers
  import opened PriceIndex

  const GovCloud := "AWS GovCloud (US)"

  /** A catalog's on-demand terms, by SKU. */
  type OnDemand = map<string, seq<TermItem>>

  /** strconv.ParseFloat, reading a USD string as a price (None on error). */
  type FloatParser = string -> Option<Price>

  /** The USD entry of a dimension; a missing entry reads as "", as a Go map
      lookup does. */
  function UsdText(d: PriceDimension): string {
    if "USD" in d.pricePerUnit then d.pricePerUnit["USD"] else ""
  }

  predicate Parses(d: PriceDimension, parseFloat: FloatParser) {
    parseFloat(UsdText(d)).Some?
  }

  /** The price of the first dimension whose USD entry parses. */
  function FirstParsed(ds: seq<PriceDimension>, parseFloat: FloatParser): Option<Price> {
    if ds == [] then None
    else if Parses(ds[0], parseFloat) then parseFloat(UsdText(ds[0]))
    else FirstParsed(ds[1..], parseFloat)
  }

  /** FirstParsed finds nothing exactly when no dimension parses, and
      otherwise the price of the earliest dimension that does. */
  lemma {:induction false} FirstParsedMeaning(ds: seq<PriceDimension>, parseFloat: FloatParser)
    ensures FirstParsed(ds, parseFloat).None? <==> forall k :: 0 <= k < |ds| ==> !Parses(ds[k], parseFloat)
    ensures forall k :: 0 <= k < |ds| && Parses(ds[k], parseFloat)
                        && (forall j :: 0 <= j < k ==> !Parses(ds[j], parseFloat)) ==>
              FirstParsed(ds, parseFloat) == parseFloat(UsdText(ds[k]))
  {
    if ds != [] {
      FirstParsedMeaning(ds[1..], parseFloat);
      assert forall k :: 1 <= k < |ds| ==> ds[k] == ds[1..][k - 1];
    }
  }

  /** The dimensions of a SKU's terms in scan order: term by term, and
      within a term dimension by dimension. */
  function Dimensions(terms: seq<TermItem>): seq<PriceDimension> {
    if terms == [] then [] else Dimensions(terms[..|terms| - 1]) + terms[|terms| - 1].priceDimensions
  }

  lemma {:induction false} DimensionsAppend(a: seq<TermItem>, b: seq<TermItem>)
    ensures Dimensions(a + b) == Dimensions(a) + Dimensions(b)
    decreases |b|
  {
    if b != [] {
      var b' := b[..|b| - 1];
      var last := b[|b| - 1].priceDimensions;
      assert (a + b)[..|a + b| - 1] == a + b';
      assert Dimensions(a + b) == Dimensions(a + b') + last;
      assert Dimensions(b) == Dimensions(b') + last;
      DimensionsAppend(a, b');
    } else {
      assert a + b == a;
    }
  }

  /** Scanning a concatenation: the first part wins if anything in it parses. */
  lemma {:induction false} FirstParsedAppend(a: seq<PriceDimension>, b: seq<PriceDimension>, parseFloat: FloatParser)
    ensures FirstParsed(a + b, parseFloat) ==
              if FirstParsed(a, parseFloat).Some? then FirstParsed(a, parseFloat) else FirstParsed(b, parseFloat)
  {
    if a != [] {
      assert (a + b)[1..] == a[1..] + b;
      FirstParsedAppend(a[1..], b, parseFloat);
    } else {
      assert a + b == b;
    }
  }

  /** The price simpleEC2Price and simpleRDSPrice find in a SKU's terms. */
  function FirstPrice(terms: seq<TermItem>, parseFloat: FloatParser): Option<Price> {
    FirstParsed(Dimensions(terms), parseFloat)
  }

  /** The dimensions of all terms are those before term i, then term i's,
      then those after it. */
  lemma {:induction false} DimensionsAround(terms: seq<TermItem>, i: nat)
    requires i < |terms|
    ensures Dimensions(terms) ==
              Dimensions(terms[..i]) + terms[i].priceDimensions + Dimensions(terms[i + 1..])
    decreases |terms|
  {
    var init, last := terms[..|terms| - 1], terms[|terms| - 1];
    assert Dimensions(terms) == Dimensions(init) + last.priceDimensions;
    if i == |terms| - 1 {
      assert init == terms[..i];
      assert Dimensions(terms[i + 1..]) == [];
    } else {
      DimensionsAround(init, i);
      assert init[..i] == terms[..i] && init[i] == terms[i];
      var after := terms[i + 1..];
      assert after[..|after| - 1] == init[i + 1..] && after[|after| - 1] == last;
      assert Dimensions(after) == Dimensions(init[i + 1..]) + last.priceDimensions;
    }
  }

  /** The scan of SKU terms stops at dimension j of term i when nothing
      before it parsed and it does. */
  lemma ScanFound(terms: seq<TermItem>, i: nat, j: nat, parseFloat: FloatParser)
    requires i < |terms| && j < |terms[i].priceDimensions|
    requires FirstParsed(Dimensions(terms[..i]) + terms[i].priceDimensions[..j], parseFloat).None?
    requires Parses(terms[i].priceDimensions[j], parseFloat)
    ensures FirstPrice(terms, parseFloat) == parseFloat(UsdText(terms[i].priceDimensions[j]))
  {
    var dims := terms[i].priceDimensions;
    var earlier, later := Dimensions(terms[..i]), Dimensions(terms[i + 1..]);
    DimensionsAround(terms, i);
    Regroup(earlier, dims[..j], dims[j..], later);
    assert dims[..j] + dims[j..] == dims;
    var rest := dims[j..] + later;
    FirstParsedAppend(earlier + dims[..j], rest, parseFloat);
    assert rest[0] == dims[j];
  }

  lemma Regroup<T>(a: seq<T>, b1: seq<T>, b2: seq<T>, c: seq<T>)
    ensures a + (b1 + b2) + c == (a + b1) + (b2 + c)
  {
  }

  /** A dimension that does not parse leaves the scan finding nothing. */
  lemma ScanSkip(done: seq<PriceDimension>, d: PriceDimension, parseFloat: FloatParser)
    requires FirstParsed(done, parseFloat).None? && !Parses(d, parseFloat)
    ensures FirstParsed(done + [d], parseFloat).None?
  {
    FirstParsedAppend(done, [d], parseFloat);
  }

  /** simpleEC2Price / simpleRDSPrice (the two are identical): scan the
      terms, and each term's dimensions, returning the first USD price that
      parses; report an error when none does. */
  method SimplePrice(terms: seq<TermItem>, parseFloat: FloatParser) returns (r: Result<Price>)
    ensures r.Ok? <==> FirstPrice(terms, parseFloat).Some?
    ensures r.Ok? ==> FirstPrice(terms, parseFloat) == Some(r.value)
    ensures r.Err? ==> r.error == NoPrice
  {
    for i := 0 to |terms|
      invariant FirstParsed(Dimensions(terms[..i]), parseFloat).None?
    {
      var dims := terms[i].priceDimensions;
      assert Dimensions(terms[..i]) + dims[..0] == Dimensions(terms[..i]);
      for j := 0 to |dims|
        invariant FirstParsed(Dimensions(terms[..i]) + dims[..j], parseFloat).None?
      {
        var hourly := parseFloat(UsdText(dims[j]));
        if hourly.Some? {
          ScanFound(terms, i, j, parseFloat);
          return Ok(hourly.value);
        }
        assert Dimensions(terms[..i]) + dims[..j + 1] == Dimensions(terms[..i]) + dims[..j] + [dims[j]];
        ScanSkip(Dimensions(terms[..i]) + dims[..j], dims[j], parseFloat);
      }
      assert terms[..i + 1][..i] == terms[..i];
      assert dims[..|dims|] == dims;
    }
    assert terms[..|terms|] == terms;
    return Err(NoPrice);
  }

  // ---------------------------------------------------------------- EC2

  /** The EC2 product filter as the code has it: shared tenancy, any
      operating system other than "Linux", outside GovCloud. */
  predicate KeepEC2(a: EC2Attr) {
    a.operatingSystem != "Linux" && a.tenancy == "Shared" && a.location != GovCloud
  }

  /** The price an EC2 product is stored with, or None when it is skipped:
      filtered out, no on-demand terms for its SKU, or no parseable price. */
  function EC2Price(p: EC2Product, onDemand: OnDemand, parseFloat: FloatParser): Option<Price> {
    if !KeepEC2(p.attr) || p.sku !in onDemand then None
    else FirstPrice(onDemand[p.sku], parseFloat)
  }

  /** The attributes an EC2 product is stored with. */
  function EC2StoreAttr(p: EC2Product): map<string, string> {
    map["region" := p.attr.location]
  }

  /** The key a priced EC2 product ends up under, if its region is valid. */
  function EC2StoredKey(p: EC2Product, onDemand: OnDemand, parseFloat: FloatParser): Option<EC2OfferParam> {
    if EC2Price(p, onDemand, parseFloat).None? then None
    else
      match NewEC2OfferParam(p.attr.instanceType, EC2StoreAttr(p))
      case Ok(key) => Some(key)
      case Err(_) => None
  }

  /** What one product does to the database. */
  function EC2Step(c: Contents, p: EC2Product, onDemand: OnDemand, parseFloat: FloatParser): Contents {
    match EC2Price(p, onDemand, parseFloat)
    case None => c
    case Some(price) => c.StoreEC2(p.attr.instanceType, EC2StoreAttr(p), EC2Offer(p.attr, price))
  }

  /** The database after extracting `products` in order. */
  function ExtractEC2Over(c: Contents, products: seq<EC2Product>, onDemand: OnDemand, parseFloat: FloatParser): Contents {
    if products == [] then c
    else EC2Step(ExtractEC2Over(c, products[..|products| - 1], onDemand, parseFloat), products[|products| - 1], onDemand, parseFloat)
  }

  /** The fold over one more product is one more step. */
  lemma ExtractEC2Next(c: Contents, ps: seq<EC2Product>, i: nat, onDemand: OnDemand, parseFloat: FloatParser)
    requires i < |ps|
    ensures ExtractEC2Over(c, ps[..i + 1], onDemand, parseFloat)
         == EC2Step(ExtractEC2Over(c, ps[..i], onDemand, parseFloat), ps[i], onDemand, parseFloat)
  {
    assert ps[..i + 1][..i] == ps[..i];
  }

  /** extractEC2, from the decoded catalog on: every product is tried in
      turn, skipped ones leave the database as it was, and a failure for one
      product never stops the rest. */
  method ExtractEC2(db: PriceDB, offerIndex: EC2OfferIndex, parseFloat: FloatParser)
    modifies db
    ensures db.View() == ExtractEC2Over(old(db.View()), offerIndex.products, offerIndex.onDemand, parseFloat)
  {
    var products := offerIndex.products;
    for i := 0 to |products|
      invariant db.View() == ExtractEC2Over(old(db.View()), products[..i], offerIndex.onDemand, parseFloat)
    {
      var p := products[i];
      ExtractEC2Next(old(db.View()), products, i, offerIndex.onDemand, parseFloat);
      ghost var before := db.View();
      if !(p.attr.operatingSystem != "Linux" && p.attr.tenancy == "Shared") {
        continue;
      }
      if p.attr.location == GovCloud {
        continue;
      }
      if p.sku !in offerIndex.onDemand {
        continue;
      }
      var price := SimplePrice(offerIndex.onDemand[p.sku], parseFloat);
      if price.Err? {
        continue;
      }
      assert EC2Price(p, offerIndex.onDemand, parseFloat) == Some(price.value);
      var offer := EC2Offer(p.attr, price.value);
      var err := db.StoreEC2(p.attr.instanceType, map["region" := p.attr.location], offer);
      assert db.View() == EC2Step(before, p, offerIndex.onDemand, parseFloat);
      if err.Fail? {
        continue;
      }
    }
    assert products[..|products|] == products;
  }

  // ---------------------------------------------------------------- RDS

  /** The RDS product filter: outside GovCloud and not a data-transfer
      product. */
  predicate KeepRDS(a: RDSAttr) {
    a.location != GovCloud && a.serviceCode != "AWSDataTransfer"
  }

  function RDSPrice(p: RDSProduct, onDemand: OnDemand, parseFloat: FloatParser): Option<Price> {
    if !KeepRDS(p.attr) || p.sku !in onDemand then None
    else FirstPrice(onDemand[p.sku], parseFloat)
  }

  /** The attributes an RDS product is stored with. */
  function RDSStoreAttr(p: RDSProduct): map<string, string> {
    map["region" := p.attr.location, "engine" := p.attr.databaseEngine, "deployment" := p.attr.deploymentOption]
  }

  function RDSStoredKey(p: RDSProduct, onDemand: OnDemand, parseFloat: FloatParser): Option<RDSOfferParam> {
    if RDSPrice(p, onDemand, parseFloat).None? then None
    else
      match NewRDSOfferParam(p.attr.instanceType, RDSStoreAttr(p))
      case Ok(key) => Some(key)
      case Err(_) => None
  }

  function RDSStep(c: Contents, p: RDSProduct, onDemand: OnDemand, parseFloat: FloatParser): Contents {
    match RDSPrice(p, onDemand, parseFloat)
    case None => c
    case Some(price) => c.StoreRDS(p.attr.instanceType, RDSStoreAttr(p), RDSOffer(p.attr, price))
  }

  function ExtractRDSOver(c: Contents, products: seq<RDSProduct>, onDemand: OnDemand, parseFloat: FloatParser): Contents {
    if products == [] then c
    else RDSStep(ExtractRDSOver(c, products[..|products| - 1], onDemand, parseFloat), products[|products| - 1], onDemand, parseFloat)
  }

  lemma ExtractRDSNext(c: Contents, ps: seq<RDSProduct>, i: nat, onDemand: OnDemand, parseFloat: FloatParser)
    requires i < |ps|
    ensures ExtractRDSOver(c, ps[..i + 1], onDemand, parseFloat)
         == RDSStep(ExtractRDSOver(c, ps[..i], onDemand, parseFloat), ps[i], onDemand, parseFloat)
  {
    assert ps[..i + 1][..i] == ps[..i];
  }

  /** extractRDS, from the decoded catalog on. */
  method ExtractRDS(db: PriceDB, offerIndex: RDSOfferIndex, parseFloat: FloatParser)
    modifies db
    ensures db.View() == ExtractRDSOver(old(db.View()), offerIndex.products, offerIndex.onDemand, parseFloat)
  {
    var products := offerIndex.products;
    for i := 0 to |products|
      invariant db.View() == ExtractRDSOver(old(db.View()), products[..i], offerIndex.onDemand, parseFloat)
    {
      var p := products[i];
      ExtractRDSNext(old(db.View()), products, i, offerIndex.onDemand, parseFloat);
      ghost var before := db.View();
      if p.attr.location == GovCloud {
        continue;
      }
      if p.attr.serviceCode == "AWSDataTransfer" {
        continue;
      }
      if p.sku !in offerIndex.onDemand {
        continue;
      }
      var price := SimplePrice(offerIndex.onDemand[p.sku], parseFloat);
      if price.Err? {
        continue;
      }
      assert RDSPrice(p, offerIndex.onDemand, parseFloat) == Some(price.value);
      var offer := RDSOffer(p.attr, price.value);
      var err := db.StoreRDS(p.attr.instanceType,
        map["region" := p.attr.location, "engine" := p.attr.databaseEngine, "deployment" := p.attr.deploymentOption], offer);
      assert db.View() == RDSStep(before, p, offerIndex.onDemand, parseFloat);
      if err.Fail? {
        continue;
      }
    }
    assert products[..|products|] == products;
  }

  /** The database ProcessJSON builds, before it is saved. */
  function Processed(ec2Index: EC2OfferIndex, rdsIndex: RDSOfferIndex, parseFloat: FloatParser): Contents {
    ExtractRDSOver(ExtractEC2Over(Empty, ec2Index.products, ec2Index.onDemand, parseFloat),
                   rdsIndex.products, rdsIndex.onDemand, parseFloat)
  }

  /** ProcessJSON without the file I/O: a fresh database, all EC2 products,
      then all RDS products. */
  method ProcessJSON(ec2Index: EC2OfferIndex, rdsIndex: RDSOfferIndex, parseFloat: FloatParser)
    returns (priceDB: PriceDB)
    ensures fresh(priceDB)
    ensures priceDB.View() == Processed(ec2Index, rdsIndex, parseFloat)
  {
    priceDB := new PriceDB();
    ExtractEC2(priceDB, ec2Index, parseFloat);
    ExtractRDS(priceDB, rdsIndex, parseFloat);
  }
}
