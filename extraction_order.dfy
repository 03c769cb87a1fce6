/** How extraction depends on the order the catalog's products are visited
    in. The catalog is a JSON object decoded into a map, and a range over a
    map visits its entries in no fixed order, so two runs over the same
    catalog may visit the products differently. The names registered and the
    keys stored do not depend on that order. The offer stored under a key
    that two different kept products share is that of the one visited last,
    so it does depend on the order. */
module ExtractionOrder {
  import opened Base
  import opened Catalog
  import opened Region
  import opened OfferEC2
  import opened OfferRDS
  import opened PriceIndex
  import opened Extractor
  import opened ExtractionFacts

  // ---------------------------------------------------------------- EC2

  /** Every product of `ps` that stores key k is the same product. */
  predicate EC2SoleStorer(ps: seq<EC2Product>, od: OnDemand, pf: FloatParser, k: EC2OfferParam) {
    forall p, q :: p in ps && q in ps && EC2StoredKey(p, od, pf) == Some(k) && EC2StoredKey(q, od, pf) == Some(k) ==> p == q
  }

  /** A product of `ps` other than its last one is in its prefix. */
  lemma InPrefix<T>(ps: seq<T>, p: T)
    requires ps != [] && p in ps && p != ps[|ps| - 1]
    ensures p in ps[..|ps| - 1]
  {
    assert ps == ps[..|ps| - 1] + [ps[|ps| - 1]];
  }

  /** Two orders of the same products hold the same products. */
  lemma SameElements<T>(ps: seq<T>, qs: seq<T>)
    requires multiset(qs) == multiset(ps)
    ensures forall p :: p in qs <==> p in ps
  {
    forall p ensures p in qs <==> p in ps {
      assert p in qs <==> p in multiset(qs);
    }
  }

  /** From an empty database, every name extraction registers is registered
      as EC2 by some priced product. */
  lemma {:induction false} ExtractEC2NameFrom(ps: seq<EC2Product>, od: OnDemand, pf: FloatParser, n: string)
    requires n in ExtractEC2Over(Empty, ps, od, pf).offerLookup
    ensures ExtractEC2Over(Empty, ps, od, pf).offerLookup[n] == EC2
    ensures exists p :: p in ps && EC2Price(p, od, pf).Some? && p.attr.instanceType == n
    decreases |ps|
  {
    var init, last := ps[..|ps| - 1], ps[|ps| - 1];
    if EC2Price(last, od, pf).Some? && last.attr.instanceType == n {
      assert last in ps;
    } else {
      ExtractEC2NameFrom(init, od, pf, n);
      var p :| p in init && EC2Price(p, od, pf).Some? && p.attr.instanceType == n;
      assert p in ps;
    }
  }

  /** From an empty database, every priced product's name is registered. */
  lemma {:induction false} ExtractEC2NameIn(ps: seq<EC2Product>, od: OnDemand, pf: FloatParser, p: EC2Product)
    requires p in ps && EC2Price(p, od, pf).Some?
    ensures p.attr.instanceType in ExtractEC2Over(Empty, ps, od, pf).offerLookup
  {
    var i :| 0 <= i < |ps| && ps[i] == p;
    ExtractEC2Registers(Empty, ps, od, pf, i);
  }

  /** From an empty database, every key extraction stores holds the offer of
      some product that stores that key. */
  lemma {:induction false} ExtractEC2KeyFrom(ps: seq<EC2Product>, od: OnDemand, pf: FloatParser, k: EC2OfferParam)
    requires k in ExtractEC2Over(Empty, ps, od, pf).ec2
    ensures exists p :: p in ps && EC2StoredKey(p, od, pf) == Some(k)
                        && ExtractEC2Over(Empty, ps, od, pf).ec2[k] == EC2Offer(p.attr, EC2Price(p, od, pf).value)
    decreases |ps|
  {
    var init, last := ps[..|ps| - 1], ps[|ps| - 1];
    if EC2StoredKey(last, od, pf) == Some(k) {
      assert last in ps;
    } else {
      ExtractEC2KeyFrom(init, od, pf, k);
      var p :| p in init && EC2StoredKey(p, od, pf) == Some(k)
               && ExtractEC2Over(Empty, init, od, pf).ec2[k] == EC2Offer(p.attr, EC2Price(p, od, pf).value);
      assert p in ps;
    }
  }

  /** From an empty database, every key a product stores is present. */
  lemma {:induction false} ExtractEC2KeyIn(ps: seq<EC2Product>, od: OnDemand, pf: FloatParser, p: EC2Product)
    requires p in ps && EC2StoredKey(p, od, pf).Some?
    ensures EC2StoredKey(p, od, pf).value in ExtractEC2Over(Empty, ps, od, pf).ec2
    decreases |ps|
  {
    var init, last := ps[..|ps| - 1], ps[|ps| - 1];
    if p != last {
      InPrefix(ps, p);
      ExtractEC2KeyIn(init, od, pf, p);
    }
  }

  /** Extracting the same products in another order registers the same names. */
  lemma EC2NamesReordered(ps: seq<EC2Product>, qs: seq<EC2Product>, od: OnDemand, pf: FloatParser)
    requires multiset(qs) == multiset(ps)
    ensures ExtractEC2Over(Empty, qs, od, pf).offerLookup == ExtractEC2Over(Empty, ps, od, pf).offerLookup
  {
    var wp, wq := ExtractEC2Over(Empty, ps, od, pf), ExtractEC2Over(Empty, qs, od, pf);
    SameElements(ps, qs);
    forall n | n in wp.offerLookup ensures n in wq.offerLookup && wq.offerLookup[n] == wp.offerLookup[n] {
      ExtractEC2NameFrom(ps, od, pf, n);
      var p :| p in ps && EC2Price(p, od, pf).Some? && p.attr.instanceType == n;
      ExtractEC2NameIn(qs, od, pf, p);
      ExtractEC2NameFrom(qs, od, pf, n);
    }
    forall n | n in wq.offerLookup ensures n in wp.offerLookup {
      ExtractEC2NameFrom(qs, od, pf, n);
      var p :| p in qs && EC2Price(p, od, pf).Some? && p.attr.instanceType == n;
      ExtractEC2NameIn(ps, od, pf, p);
    }
  }

  /** Extracting the same products in another order stores under the same
      keys, and a key with a sole storing product holds the same offer. */
  lemma EC2StoredReordered(ps: seq<EC2Product>, qs: seq<EC2Product>, od: OnDemand, pf: FloatParser)
    requires multiset(qs) == multiset(ps)
    ensures ExtractEC2Over(Empty, qs, od, pf).ec2.Keys == ExtractEC2Over(Empty, ps, od, pf).ec2.Keys
    ensures var wp, wq := ExtractEC2Over(Empty, ps, od, pf), ExtractEC2Over(Empty, qs, od, pf);
            forall k :: k in wp.ec2 && EC2SoleStorer(ps, od, pf, k) ==> wq.ec2[k] == wp.ec2[k]
  {
    var wp, wq := ExtractEC2Over(Empty, ps, od, pf), ExtractEC2Over(Empty, qs, od, pf);
    SameElements(ps, qs);
    forall k | k in wp.ec2 ensures k in wq.ec2 && (EC2SoleStorer(ps, od, pf, k) ==> wq.ec2[k] == wp.ec2[k]) {
      ExtractEC2KeyFrom(ps, od, pf, k);
      var p :| p in ps && EC2StoredKey(p, od, pf) == Some(k) && wp.ec2[k] == EC2Offer(p.attr, EC2Price(p, od, pf).value);
      ExtractEC2KeyIn(qs, od, pf, p);
      ExtractEC2KeyFrom(qs, od, pf, k);
    }
    forall k | k in wq.ec2 ensures k in wp.ec2 {
      ExtractEC2KeyFrom(qs, od, pf, k);
      var p :| p in qs && EC2StoredKey(p, od, pf) == Some(k) && wq.ec2[k] == EC2Offer(p.attr, EC2Price(p, od, pf).value);
      ExtractEC2KeyIn(ps, od, pf, p);
    }
  }

  /** Laying a second layer with the first layer's names, keys and no RDS
      entries over the result keeps its names, keys and RDS table, and every
      key the two layers agree on, or the first layer lacks, keeps its entry. */
  lemma OverlayAgain(c: Contents, wp: Contents, wq: Contents)
    requires wq.offerLookup == wp.offerLookup && wq.ec2.Keys == wp.ec2.Keys && wq.rds == map[]
    ensures var once := Overlay(c, wp);
            var twice := Overlay(once, wq);
            twice.offerLookup == once.offerLookup && twice.rds == once.rds && twice.ec2.Keys == once.ec2.Keys
    ensures var once := Overlay(c, wp);
            forall k :: k in once.ec2 && (k in wp.ec2 ==> wq.ec2[k] == wp.ec2[k]) ==> Overlay(once, wq).ec2[k] == once.ec2[k]
  {
    var once := Overlay(c, wp);
    assert once.offerLookup + wq.offerLookup == once.offerLookup;
    assert once.rds + wq.rds == once.rds;
  }

  /** A second pass over the same products in any order registers the same
      names, stores under the same keys and leaves the RDS table alone; a
      key whose storing products are all one product keeps its offer. */
  lemma ExtractEC2Reordered(c: Contents, ps: seq<EC2Product>, qs: seq<EC2Product>, od: OnDemand, pf: FloatParser)
    requires multiset(qs) == multiset(ps)
    ensures var once := ExtractEC2Over(c, ps, od, pf);
            var twice := ExtractEC2Over(once, qs, od, pf);
            twice.offerLookup == once.offerLookup && twice.rds == once.rds && twice.ec2.Keys == once.ec2.Keys
    ensures var once := ExtractEC2Over(c, ps, od, pf);
            var twice := ExtractEC2Over(once, qs, od, pf);
            forall k :: k in once.ec2 && EC2SoleStorer(ps, od, pf, k) ==> twice.ec2[k] == once.ec2[k]
  {
    var once := ExtractEC2Over(c, ps, od, pf);
    var wp, wq := ExtractEC2Over(Empty, ps, od, pf), ExtractEC2Over(Empty, qs, od, pf);
    ExtractEC2Overlay(once, qs, od, pf);
    ExtractEC2Overlay(c, ps, od, pf);
    ExtractEC2KeepsRDS(Empty, qs, od, pf);
    EC2NamesReordered(ps, qs, od, pf);
    EC2StoredReordered(ps, qs, od, pf);
    OverlayAgain(c, wp, wq);
  }

  /** When no two different kept products share a key, a second pass in any
      order changes nothing. */
  lemma ExtractEC2ReorderedIdempotent(c: Contents, ps: seq<EC2Product>, qs: seq<EC2Product>, od: OnDemand, pf: FloatParser)
    requires multiset(qs) == multiset(ps)
    requires forall k :: EC2SoleStorer(ps, od, pf, k)
    ensures ExtractEC2Over(ExtractEC2Over(c, ps, od, pf), qs, od, pf) == ExtractEC2Over(c, ps, od, pf)
  {
    var once := ExtractEC2Over(c, ps, od, pf);
    var twice := ExtractEC2Over(once, qs, od, pf);
    ExtractEC2Reordered(c, ps, qs, od, pf);
    assert twice.ec2 == once.ec2;
  }

  /** A Windows and a Red Hat product of the same instance type in the same
      region, both kept by the filter, share a key. */
  const WindowsLarge := EC2Product("SKU-WIN", "Compute Instance",
    EC2Attr("AmazonEC2", DefaultRegion, "AWS Region", "m4.large", "Yes", "General purpose", "2", "8 GiB", "Windows", "Shared"))
  const RhelLarge := EC2Product("SKU-RHEL", "Compute Instance",
    EC2Attr("AmazonEC2", DefaultRegion, "AWS Region", "m4.large", "Yes", "General purpose", "2", "8 GiB", "RHEL", "Shared"))

  /** Their on-demand terms: one dimension each, "0.2" and "0.1" dollars. */
  function OneRate(sku: string, usd: string): seq<TermItem> {
    [TermItem(sku + ".JRTCKXETXF", sku, [PriceDimension(sku + ".6YS6EN2CT7", "per hour", "Hrs", map["USD" := usd])])]
  }

  const LargeTerms: OnDemand := map["SKU-WIN" := OneRate("SKU-WIN", "0.2"), "SKU-RHEL" := OneRate("SKU-RHEL", "0.1")]

  /** A float parser that knows the two prices. */
  function TwoPrices(s: string): Option<Price> {
    if s == "0.2" then Some(200_000) else if s == "0.1" then Some(100_000) else None
  }

  /** Both products are kept and priced, and both store under one key. */
  lemma LargePricesAndKey()
    ensures EC2Price(WindowsLarge, LargeTerms, TwoPrices) == Some(200_000)
    ensures EC2Price(RhelLarge, LargeTerms, TwoPrices) == Some(100_000)
    ensures EC2StoredKey(WindowsLarge, LargeTerms, TwoPrices) == Some(EC2OfferParam(DefaultRegion, "m4.large"))
    ensures EC2StoredKey(RhelLarge, LargeTerms, TwoPrices) == Some(EC2OfferParam(DefaultRegion, "m4.large"))
  {
    DefaultRegionCanonical();
    assert Dimensions(LargeTerms["SKU-WIN"]) == LargeTerms["SKU-WIN"][0].priceDimensions;
    assert Dimensions(LargeTerms["SKU-RHEL"]) == LargeTerms["SKU-RHEL"][0].priceDimensions;
  }

  /** The offer stored under a shared key depends on the visiting order, and
      a second pass in the other order replaces it. */
  lemma ExtractEC2OrderMatters()
    ensures var k := EC2OfferParam(DefaultRegion, "m4.large");
            var winLast := ExtractEC2Over(Empty, [RhelLarge, WindowsLarge], LargeTerms, TwoPrices);
            var rhelLast := ExtractEC2Over(Empty, [WindowsLarge, RhelLarge], LargeTerms, TwoPrices);
            k in winLast.ec2 && k in rhelLast.ec2
            && winLast.ec2[k].price == 200_000 && rhelLast.ec2[k].price == 100_000
            && ExtractEC2Over(rhelLast, [RhelLarge, WindowsLarge], LargeTerms, TwoPrices) != rhelLast
  {
    LargePricesAndKey();
    var rhelLast := ExtractEC2Over(Empty, [WindowsLarge, RhelLarge], LargeTerms, TwoPrices);
    ExtractEC2LastWins(Empty, [RhelLarge, WindowsLarge], LargeTerms, TwoPrices, 1);
    ExtractEC2LastWins(Empty, [WindowsLarge, RhelLarge], LargeTerms, TwoPrices, 1);
    ExtractEC2LastWins(rhelLast, [RhelLarge, WindowsLarge], LargeTerms, TwoPrices, 1);
  }

  // ---------------------------------------------------------------- RDS

  /** Every product of `ps` that stores key k is the same product. */
  predicate RDSSoleStorer(ps: seq<RDSProduct>, od: OnDemand, pf: FloatParser, k: RDSOfferParam) {
    forall p, q :: p in ps && q in ps && RDSStoredKey(p, od, pf) == Some(k) && RDSStoredKey(q, od, pf) == Some(k) ==> p == q
  }

  /** From an empty database, every name extraction registers is registered
      as RDS by some priced product. */
  lemma {:induction false} ExtractRDSNameFrom(ps: seq<RDSProduct>, od: OnDemand, pf: FloatParser, n: string)
    requires n in ExtractRDSOver(Empty, ps, od, pf).offerLookup
    ensures ExtractRDSOver(Empty, ps, od, pf).offerLookup[n] == RDS
    ensures exists p :: p in ps && RDSPrice(p, od, pf).Some? && p.attr.instanceType == n
    decreases |ps|
  {
    var init, last := ps[..|ps| - 1], ps[|ps| - 1];
    if RDSPrice(last, od, pf).Some? && last.attr.instanceType == n {
      assert last in ps;
    } else {
      ExtractRDSNameFrom(init, od, pf, n);
      var p :| p in init && RDSPrice(p, od, pf).Some? && p.attr.instanceType == n;
      assert p in ps;
    }
  }

  /** From an empty database, every priced product's name is registered. */
  lemma {:induction false} ExtractRDSNameIn(ps: seq<RDSProduct>, od: OnDemand, pf: FloatParser, p: RDSProduct)
    requires p in ps && RDSPrice(p, od, pf).Some?
    ensures p.attr.instanceType in ExtractRDSOver(Empty, ps, od, pf).offerLookup
  {
    var i :| 0 <= i < |ps| && ps[i] == p;
    ExtractRDSRegisters(Empty, ps, od, pf, i);
  }

  /** From an empty database, every key extraction stores holds the offer of
      some product that stores that key. */
  lemma {:induction false} ExtractRDSKeyFrom(ps: seq<RDSProduct>, od: OnDemand, pf: FloatParser, k: RDSOfferParam)
    requires k in ExtractRDSOver(Empty, ps, od, pf).rds
    ensures exists p :: p in ps && RDSStoredKey(p, od, pf) == Some(k)
                        && ExtractRDSOver(Empty, ps, od, pf).rds[k] == RDSOffer(p.attr, RDSPrice(p, od, pf).value)
    decreases |ps|
  {
    var init, last := ps[..|ps| - 1], ps[|ps| - 1];
    if RDSStoredKey(last, od, pf) == Some(k) {
      assert last in ps;
    } else {
      ExtractRDSKeyFrom(init, od, pf, k);
      var p :| p in init && RDSStoredKey(p, od, pf) == Some(k)
               && ExtractRDSOver(Empty, init, od, pf).rds[k] == RDSOffer(p.attr, RDSPrice(p, od, pf).value);
      assert p in ps;
    }
  }

  /** From an empty database, every key a product stores is present. */
  lemma {:induction false} ExtractRDSKeyIn(ps: seq<RDSProduct>, od: OnDemand, pf: FloatParser, p: RDSProduct)
    requires p in ps && RDSStoredKey(p, od, pf).Some?
    ensures RDSStoredKey(p, od, pf).value in ExtractRDSOver(Empty, ps, od, pf).rds
    decreases |ps|
  {
    var init, last := ps[..|ps| - 1], ps[|ps| - 1];
    if p != last {
      InPrefix(ps, p);
      ExtractRDSKeyIn(init, od, pf, p);
    }
  }

  /** Extracting the same products in another order registers the same names. */
  lemma RDSNamesReordered(ps: seq<RDSProduct>, qs: seq<RDSProduct>, od: OnDemand, pf: FloatParser)
    requires multiset(qs) == multiset(ps)
    ensures ExtractRDSOver(Empty, qs, od, pf).offerLookup == ExtractRDSOver(Empty, ps, od, pf).offerLookup
  {
    var wp, wq := ExtractRDSOver(Empty, ps, od, pf), ExtractRDSOver(Empty, qs, od, pf);
    SameElements(ps, qs);
    forall n | n in wp.offerLookup ensures n in wq.offerLookup && wq.offerLookup[n] == wp.offerLookup[n] {
      ExtractRDSNameFrom(ps, od, pf, n);
      var p :| p in ps && RDSPrice(p, od, pf).Some? && p.attr.instanceType == n;
      ExtractRDSNameIn(qs, od, pf, p);
      ExtractRDSNameFrom(qs, od, pf, n);
    }
    forall n | n in wq.offerLookup ensures n in wp.offerLookup {
      ExtractRDSNameFrom(qs, od, pf, n);
      var p :| p in qs && RDSPrice(p, od, pf).Some? && p.attr.instanceType == n;
      ExtractRDSNameIn(ps, od, pf, p);
    }
  }

  /** Extracting the same products in another order stores under the same
      keys, and a key with a sole storing product holds the same offer. */
  lemma RDSStoredReordered(ps: seq<RDSProduct>, qs: seq<RDSProduct>, od: OnDemand, pf: FloatParser)
    requires multiset(qs) == multiset(ps)
    ensures ExtractRDSOver(Empty, qs, od, pf).rds.Keys == ExtractRDSOver(Empty, ps, od, pf).rds.Keys
    ensures var wp, wq := ExtractRDSOver(Empty, ps, od, pf), ExtractRDSOver(Empty, qs, od, pf);
            forall k :: k in wp.rds && RDSSoleStorer(ps, od, pf, k) ==> wq.rds[k] == wp.rds[k]
  {
    var wp, wq := ExtractRDSOver(Empty, ps, od, pf), ExtractRDSOver(Empty, qs, od, pf);
    SameElements(ps, qs);
    forall k | k in wp.rds ensures k in wq.rds && (RDSSoleStorer(ps, od, pf, k) ==> wq.rds[k] == wp.rds[k]) {
      ExtractRDSKeyFrom(ps, od, pf, k);
      var p :| p in ps && RDSStoredKey(p, od, pf) == Some(k) && wp.rds[k] == RDSOffer(p.attr, RDSPrice(p, od, pf).value);
      ExtractRDSKeyIn(qs, od, pf, p);
      ExtractRDSKeyFrom(qs, od, pf, k);
    }
    forall k | k in wq.rds ensures k in wp.rds {
      ExtractRDSKeyFrom(qs, od, pf, k);
      var p :| p in qs && RDSStoredKey(p, od, pf) == Some(k) && wq.rds[k] == RDSOffer(p.attr, RDSPrice(p, od, pf).value);
      ExtractRDSKeyIn(ps, od, pf, p);
    }
  }

  /** The RDS counterpart of OverlayAgain. */
  lemma OverlayAgainRDS(c: Contents, wp: Contents, wq: Contents)
    requires wq.offerLookup == wp.offerLookup && wq.rds.Keys == wp.rds.Keys && wq.ec2 == map[]
    ensures var once := Overlay(c, wp);
            var twice := Overlay(once, wq);
            twice.offerLookup == once.offerLookup && twice.ec2 == once.ec2 && twice.rds.Keys == once.rds.Keys
    ensures var once := Overlay(c, wp);
            forall k :: k in once.rds && (k in wp.rds ==> wq.rds[k] == wp.rds[k]) ==> Overlay(once, wq).rds[k] == once.rds[k]
  {
    var once := Overlay(c, wp);
    assert once.offerLookup + wq.offerLookup == once.offerLookup;
    assert once.ec2 + wq.ec2 == once.ec2;
  }

  /** A second pass over the same products in any order registers the same
      names, stores under the same keys and leaves the EC2 table alone; a
      key whose storing products are all one product keeps its offer. */
  lemma ExtractRDSReordered(c: Contents, ps: seq<RDSProduct>, qs: seq<RDSProduct>, od: OnDemand, pf: FloatParser)
    requires multiset(qs) == multiset(ps)
    ensures var once := ExtractRDSOver(c, ps, od, pf);
            var twice := ExtractRDSOver(once, qs, od, pf);
            twice.offerLookup == once.offerLookup && twice.ec2 == once.ec2 && twice.rds.Keys == once.rds.Keys
    ensures var once := ExtractRDSOver(c, ps, od, pf);
            var twice := ExtractRDSOver(once, qs, od, pf);
            forall k :: k in once.rds && RDSSoleStorer(ps, od, pf, k) ==> twice.rds[k] == once.rds[k]
  {
    var once := ExtractRDSOver(c, ps, od, pf);
    var wp, wq := ExtractRDSOver(Empty, ps, od, pf), ExtractRDSOver(Empty, qs, od, pf);
    ExtractRDSOverlay(once, qs, od, pf);
    ExtractRDSOverlay(c, ps, od, pf);
    ExtractRDSKeepsEC2(Empty, qs, od, pf);
    RDSNamesReordered(ps, qs, od, pf);
    RDSStoredReordered(ps, qs, od, pf);
    OverlayAgainRDS(c, wp, wq);
  }

  /** When no two different kept products share a key, a second pass in any
      order changes nothing. */
  lemma ExtractRDSReorderedIdempotent(c: Contents, ps: seq<RDSProduct>, qs: seq<RDSProduct>, od: OnDemand, pf: FloatParser)
    requires multiset(qs) == multiset(ps)
    requires forall k :: RDSSoleStorer(ps, od, pf, k)
    ensures ExtractRDSOver(ExtractRDSOver(c, ps, od, pf), qs, od, pf) == ExtractRDSOver(c, ps, od, pf)
  {
    var once := ExtractRDSOver(c, ps, od, pf);
    var twice := ExtractRDSOver(once, qs, od, pf);
    ExtractRDSReordered(c, ps, qs, od, pf);
    assert twice.rds == once.rds;
  }

  /** Two Oracle Single-AZ products of the same instance type in the same
      region under different SKUs (in the catalog they differ in attributes
      the key leaves out, such as the license model) share a key. */
  const OracleIncluded := RDSProduct("SKU-LI", "Database Instance",
    RDSAttr("AmazonRDS", DefaultRegion, "AWS Region", "db.m4.large", "Yes", "General purpose", "2", "8 GiB", "", "", "Oracle", "Single-AZ"))
  const OracleOwnLicense := RDSProduct("SKU-BYOL", "Database Instance",
    RDSAttr("AmazonRDS", DefaultRegion, "AWS Region", "db.m4.large", "Yes", "General purpose", "2", "8 GiB", "", "", "Oracle", "Single-AZ"))

  const OracleTerms: OnDemand := map["SKU-LI" := OneRate("SKU-LI", "0.2"), "SKU-BYOL" := OneRate("SKU-BYOL", "0.1")]

  /** Both products are kept and priced, and both store under one key. */
  lemma OraclePricesAndKey()
    ensures RDSPrice(OracleIncluded, OracleTerms, TwoPrices) == Some(200_000)
    ensures RDSPrice(OracleOwnLicense, OracleTerms, TwoPrices) == Some(100_000)
    ensures RDSStoredKey(OracleIncluded, OracleTerms, TwoPrices)
            == Some(RDSOfferParam("Oracle", "Single-AZ", DefaultRegion, "db.m4.large"))
    ensures RDSStoredKey(OracleOwnLicense, OracleTerms, TwoPrices)
            == Some(RDSOfferParam("Oracle", "Single-AZ", DefaultRegion, "db.m4.large"))
  {
    DefaultRegionCanonical();
    assert Dimensions(OracleTerms["SKU-LI"]) == OracleTerms["SKU-LI"][0].priceDimensions;
    assert Dimensions(OracleTerms["SKU-BYOL"]) == OracleTerms["SKU-BYOL"][0].priceDimensions;
  }

  /** The offer stored under a shared RDS key depends on the visiting order,
      and a second pass in the other order replaces it. */
  lemma ExtractRDSOrderMatters()
    ensures var k := RDSOfferParam("Oracle", "Single-AZ", DefaultRegion, "db.m4.large");
            var includedLast := ExtractRDSOver(Empty, [OracleOwnLicense, OracleIncluded], OracleTerms, TwoPrices);
            var ownLast := ExtractRDSOver(Empty, [OracleIncluded, OracleOwnLicense], OracleTerms, TwoPrices);
            k in includedLast.rds && k in ownLast.rds
            && includedLast.rds[k].price == 200_000 && ownLast.rds[k].price == 100_000
            && ExtractRDSOver(ownLast, [OracleOwnLicense, OracleIncluded], OracleTerms, TwoPrices) != ownLast
  {
    OraclePricesAndKey();
    var ownLast := ExtractRDSOver(Empty, [OracleIncluded, OracleOwnLicense], OracleTerms, TwoPrices);
    ExtractRDSLastWins(Empty, [OracleOwnLicense, OracleIncluded], OracleTerms, TwoPrices, 1);
    ExtractRDSLastWins(Empty, [OracleIncluded, OracleOwnLicense], OracleTerms, TwoPrices, 1);
    ExtractRDSLastWins(ownLast, [OracleOwnLicense, OracleIncluded], OracleTerms, TwoPrices, 1);
  }
}
