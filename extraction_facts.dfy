/** What extraction does to the price database, product by product: the
    last stored product wins its key, entries no product stores are left as
    they were, every priced product registers its name, and a second pass
    over the products in the same order changes nothing. */
module ExtractionFacts {
  import opened Base
  import opened OfferEC2
  import opened OfferRDS
  import opened Offers
  import opened PriceIndex
  import opened Extractor

  /** The entries of w laid over those of c, w winning on shared keys. */
  function Overlay(c: Contents, w: Contents): Contents {
    Contents(c.offerLookup + w.offerLookup, c.ec2 + w.ec2, c.rds + w.rds)
  }

  lemma UpdateOverUnion<K, V>(a: map<K, V>, b: map<K, V>, k: K, v: V)
    ensures (a + b)[k := v] == a + b[k := v]
  {
  }

  lemma OverlayTwice(c: Contents, w: Contents)
    ensures Overlay(Overlay(c, w), w) == Overlay(c, w)
  {
    var o := Overlay(c, w);
    assert (c.offerLookup + w.offerLookup) + w.offerLookup == c.offerLookup + w.offerLookup;
    assert (c.ec2 + w.ec2) + w.ec2 == c.ec2 + w.ec2;
    assert (c.rds + w.rds) + w.rds == c.rds + w.rds;
  }

  // ---------------------------------------------------------------- EC2

  /** EC2 extraction never touches the RDS table. */
  lemma {:induction false} ExtractEC2KeepsRDS(c: Contents, ps: seq<EC2Product>, od: OnDemand, pf: FloatParser)
    ensures ExtractEC2Over(c, ps, od, pf).rds == c.rds
    decreases |ps|
  {
    if ps != [] {
      ExtractEC2KeepsRDS(c, ps[..|ps| - 1], od, pf);
    }
  }

  /** Products the filter drops (a Linux operating system, a tenancy other
      than "Shared", or GovCloud) leave the database as it was. */
  lemma {:induction false} ExtractEC2Filtered(c: Contents, ps: seq<EC2Product>, od: OnDemand, pf: FloatParser)
    requires forall i :: 0 <= i < |ps| ==> !KeepEC2(ps[i].attr)
    ensures ExtractEC2Over(c, ps, od, pf) == c
    decreases |ps|
  {
    if ps != [] {
      var init := ps[..|ps| - 1];
      assert forall i :: 0 <= i < |init| ==> init[i] == ps[i];
      ExtractEC2Filtered(c, init, od, pf);
    }
  }

  /** A product that stores key k, with no later product storing the same
      key, leaves its own offer under k. */
  lemma {:induction false} ExtractEC2LastWins(c: Contents, ps: seq<EC2Product>, od: OnDemand, pf: FloatParser, i: nat)
    requires i < |ps| && EC2StoredKey(ps[i], od, pf).Some?
    requires forall j :: i < j < |ps| ==> EC2StoredKey(ps[j], od, pf) != EC2StoredKey(ps[i], od, pf)
    ensures var k := EC2StoredKey(ps[i], od, pf).value;
            var db := ExtractEC2Over(c, ps, od, pf);
            k in db.ec2 && db.ec2[k] == EC2Offer(ps[i].attr, EC2Price(ps[i], od, pf).value)
    decreases |ps|
  {
    var init := ps[..|ps| - 1];
    if i < |ps| - 1 {
      assert init[i] == ps[i];
      assert forall j :: i < j < |init| ==> init[j] == ps[j];
      ExtractEC2LastWins(c, init, od, pf, i);
    }
  }

  /** A key no product stores keeps whatever entry it had, or its absence. */
  lemma {:induction false} ExtractEC2Untouched(c: Contents, ps: seq<EC2Product>, od: OnDemand, pf: FloatParser, k: EC2OfferParam)
    requires forall i :: 0 <= i < |ps| ==> EC2StoredKey(ps[i], od, pf) != Some(k)
    ensures var db := ExtractEC2Over(c, ps, od, pf);
            (k in db.ec2 <==> k in c.ec2) && (k in c.ec2 ==> db.ec2[k] == c.ec2[k])
    decreases |ps|
  {
    if ps != [] {
      var init := ps[..|ps| - 1];
      assert forall i :: 0 <= i < |init| ==> init[i] == ps[i];
      ExtractEC2Untouched(c, init, od, pf, k);
    }
  }

  /** Every priced product registers its instance type as an EC2 name, even
      when its region is invalid and nothing is stored under a key. */
  lemma {:induction false} ExtractEC2Registers(c: Contents, ps: seq<EC2Product>, od: OnDemand, pf: FloatParser, i: nat)
    requires i < |ps| && EC2Price(ps[i], od, pf).Some?
    ensures var db := ExtractEC2Over(c, ps, od, pf);
            ps[i].attr.instanceType in db.offerLookup && db.offerLookup[ps[i].attr.instanceType] == EC2
    decreases |ps|
  {
    var init := ps[..|ps| - 1];
    if i < |ps| - 1 {
      assert init[i] == ps[i];
      ExtractEC2Registers(c, init, od, pf, i);
    }
  }

  /** A name no priced product carries keeps its registration, or its absence. */
  lemma {:induction false} ExtractEC2NameUntouched(c: Contents, ps: seq<EC2Product>, od: OnDemand, pf: FloatParser, n: string)
    requires forall i :: 0 <= i < |ps| ==> !(EC2Price(ps[i], od, pf).Some? && ps[i].attr.instanceType == n)
    ensures var db := ExtractEC2Over(c, ps, od, pf);
            (n in db.offerLookup <==> n in c.offerLookup) && (n in c.offerLookup ==> db.offerLookup[n] == c.offerLookup[n])
    decreases |ps|
  {
    if ps != [] {
      var init := ps[..|ps| - 1];
      assert forall i :: 0 <= i < |init| ==> init[i] == ps[i];
      ExtractEC2NameUntouched(c, init, od, pf, n);
    }
  }

  /** After extraction, the exact lookup of the last product stored under a
      key, with the attributes it was stored with, returns its offer. */
  lemma ExtractEC2Get(c: Contents, ps: seq<EC2Product>, od: OnDemand, pf: FloatParser, i: nat)
    requires i < |ps| && EC2StoredKey(ps[i], od, pf).Some?
    requires forall j :: i < j < |ps| ==> EC2StoredKey(ps[j], od, pf) != EC2StoredKey(ps[i], od, pf)
    ensures ExtractEC2Over(c, ps, od, pf).Get(ps[i].attr.instanceType, EC2StoreAttr(ps[i]))
            == Ok(EC2Item(EC2Offer(ps[i].attr, EC2Price(ps[i], od, pf).value)))
  {
    ExtractEC2LastWins(c, ps, od, pf, i);
    ExtractEC2Registers(c, ps, od, pf, i);
  }

  /** A store into the upper layer is a store into the overlay. */
  lemma StoreEC2Overlay(c: Contents, w: Contents, name: string, attr: map<string, string>, offer: EC2Offer)
    ensures Overlay(c, w).StoreEC2(name, attr, offer) == Overlay(c, w.StoreEC2(name, attr, offer))
  {
    UpdateOverUnion(c.offerLookup, w.offerLookup, name, EC2);
    var key := NewEC2OfferParam(name, attr);
    if key.Ok? {
      UpdateOverUnion(c.ec2, w.ec2, key.value, offer);
    }
  }

  lemma EC2StepOverlay(c: Contents, w: Contents, p: EC2Product, od: OnDemand, pf: FloatParser)
    ensures EC2Step(Overlay(c, w), p, od, pf) == Overlay(c, EC2Step(w, p, od, pf))
  {
    var price := EC2Price(p, od, pf);
    if price.Some? {
      StoreEC2Overlay(c, w, p.attr.instanceType, EC2StoreAttr(p), EC2Offer(p.attr, price.value));
    }
  }

  /** Extraction lays the entries it builds from the catalog alone over
      whatever the database held. */
  lemma {:induction false} ExtractEC2Overlay(c: Contents, ps: seq<EC2Product>, od: OnDemand, pf: FloatParser)
    ensures ExtractEC2Over(c, ps, od, pf) == Overlay(c, ExtractEC2Over(Empty, ps, od, pf))
    decreases |ps|
  {
    if ps == [] {
      assert Overlay(c, Empty) == c;
    } else {
      var init := ps[..|ps| - 1];
      ExtractEC2Overlay(c, init, od, pf);
      EC2StepOverlay(c, ExtractEC2Over(Empty, init, od, pf), ps[|ps| - 1], od, pf);
    }
  }

  /** A second pass over the same products, visited in the same order,
      changes nothing. A pass in another order may store a different offer
      under a key several kept products share (ExtractionOrder). */
  lemma ExtractEC2Idempotent(c: Contents, ps: seq<EC2Product>, od: OnDemand, pf: FloatParser)
    ensures ExtractEC2Over(ExtractEC2Over(c, ps, od, pf), ps, od, pf) == ExtractEC2Over(c, ps, od, pf)
  {
    var once := ExtractEC2Over(c, ps, od, pf);
    ExtractEC2Overlay(c, ps, od, pf);
    ExtractEC2Overlay(once, ps, od, pf);
    OverlayTwice(c, ExtractEC2Over(Empty, ps, od, pf));
  }

  // ---------------------------------------------------------------- RDS

  /** RDS extraction never touches the EC2 table. */
  lemma {:induction false} ExtractRDSKeepsEC2(c: Contents, ps: seq<RDSProduct>, od: OnDemand, pf: FloatParser)
    ensures ExtractRDSOver(c, ps, od, pf).ec2 == c.ec2
    decreases |ps|
  {
    if ps != [] {
      ExtractRDSKeepsEC2(c, ps[..|ps| - 1], od, pf);
    }
  }

  /** Products the filter drops (GovCloud, or data transfer) leave the
      database as it was. */
  lemma {:induction false} ExtractRDSFiltered(c: Contents, ps: seq<RDSProduct>, od: OnDemand, pf: FloatParser)
    requires forall i :: 0 <= i < |ps| ==> !KeepRDS(ps[i].attr)
    ensures ExtractRDSOver(c, ps, od, pf) == c
    decreases |ps|
  {
    if ps != [] {
      var init := ps[..|ps| - 1];
      assert forall i :: 0 <= i < |init| ==> init[i] == ps[i];
      ExtractRDSFiltered(c, init, od, pf);
    }
  }

  lemma {:induction false} ExtractRDSLastWins(c: Contents, ps: seq<RDSProduct>, od: OnDemand, pf: FloatParser, i: nat)
    requires i < |ps| && RDSStoredKey(ps[i], od, pf).Some?
    requires forall j :: i < j < |ps| ==> RDSStoredKey(ps[j], od, pf) != RDSStoredKey(ps[i], od, pf)
    ensures var k := RDSStoredKey(ps[i], od, pf).value;
            var db := ExtractRDSOver(c, ps, od, pf);
            k in db.rds && db.rds[k] == RDSOffer(ps[i].attr, RDSPrice(ps[i], od, pf).value)
    decreases |ps|
  {
    var init := ps[..|ps| - 1];
    if i < |ps| - 1 {
      assert init[i] == ps[i];
      assert forall j :: i < j < |init| ==> init[j] == ps[j];
      ExtractRDSLastWins(c, init, od, pf, i);
    }
  }

  lemma {:induction false} ExtractRDSUntouched(c: Contents, ps: seq<RDSProduct>, od: OnDemand, pf: FloatParser, k: RDSOfferParam)
    requires forall i :: 0 <= i < |ps| ==> RDSStoredKey(ps[i], od, pf) != Some(k)
    ensures var db := ExtractRDSOver(c, ps, od, pf);
            (k in db.rds <==> k in c.rds) && (k in c.rds ==> db.rds[k] == c.rds[k])
    decreases |ps|
  {
    if ps != [] {
      var init := ps[..|ps| - 1];
      assert forall i :: 0 <= i < |init| ==> init[i] == ps[i];
      ExtractRDSUntouched(c, init, od, pf, k);
    }
  }

  lemma {:induction false} ExtractRDSRegisters(c: Contents, ps: seq<RDSProduct>, od: OnDemand, pf: FloatParser, i: nat)
    requires i < |ps| && RDSPrice(ps[i], od, pf).Some?
    ensures var db := ExtractRDSOver(c, ps, od, pf);
            ps[i].attr.instanceType in db.offerLookup && db.offerLookup[ps[i].attr.instanceType] == RDS
    decreases |ps|
  {
    var init := ps[..|ps| - 1];
    if i < |ps| - 1 {
      assert init[i] == ps[i];
      ExtractRDSRegisters(c, init, od, pf, i);
    }
  }

  lemma {:induction false} ExtractRDSNameUntouched(c: Contents, ps: seq<RDSProduct>, od: OnDemand, pf: FloatParser, n: string)
    requires forall i :: 0 <= i < |ps| ==> !(RDSPrice(ps[i], od, pf).Some? && ps[i].attr.instanceType == n)
    ensures var db := ExtractRDSOver(c, ps, od, pf);
            (n in db.offerLookup <==> n in c.offerLookup) && (n in c.offerLookup ==> db.offerLookup[n] == c.offerLookup[n])
    decreases |ps|
  {
    if ps != [] {
      var init := ps[..|ps| - 1];
      assert forall i :: 0 <= i < |init| ==> init[i] == ps[i];
      ExtractRDSNameUntouched(c, init, od, pf, n);
    }
  }

  lemma StoreRDSOverlay(c: Contents, w: Contents, name: string, attr: map<string, string>, offer: RDSOffer)
    ensures Overlay(c, w).StoreRDS(name, attr, offer) == Overlay(c, w.StoreRDS(name, attr, offer))
  {
    UpdateOverUnion(c.offerLookup, w.offerLookup, name, RDS);
    var key := NewRDSOfferParam(name, attr);
    if key.Ok? {
      UpdateOverUnion(c.rds, w.rds, key.value, offer);
    }
  }

  lemma RDSStepOverlay(c: Contents, w: Contents, p: RDSProduct, od: OnDemand, pf: FloatParser)
    ensures RDSStep(Overlay(c, w), p, od, pf) == Overlay(c, RDSStep(w, p, od, pf))
  {
    var price := RDSPrice(p, od, pf);
    if price.Some? {
      StoreRDSOverlay(c, w, p.attr.instanceType, RDSStoreAttr(p), RDSOffer(p.attr, price.value));
    }
  }

  lemma {:induction false} ExtractRDSOverlay(c: Contents, ps: seq<RDSProduct>, od: OnDemand, pf: FloatParser)
    ensures ExtractRDSOver(c, ps, od, pf) == Overlay(c, ExtractRDSOver(Empty, ps, od, pf))
    decreases |ps|
  {
    if ps == [] {
      assert Overlay(c, Empty) == c;
    } else {
      var init := ps[..|ps| - 1];
      ExtractRDSOverlay(c, init, od, pf);
      RDSStepOverlay(c, ExtractRDSOver(Empty, init, od, pf), ps[|ps| - 1], od, pf);
    }
  }

  /** A second pass over the same products, visited in the same order,
      changes nothing. */
  lemma ExtractRDSIdempotent(c: Contents, ps: seq<RDSProduct>, od: OnDemand, pf: FloatParser)
    ensures ExtractRDSOver(ExtractRDSOver(c, ps, od, pf), ps, od, pf) == ExtractRDSOver(c, ps, od, pf)
  {
    var once := ExtractRDSOver(c, ps, od, pf);
    ExtractRDSOverlay(c, ps, od, pf);
    ExtractRDSOverlay(once, ps, od, pf);
    OverlayTwice(c, ExtractRDSOver(Empty, ps, od, pf));
  }

  // ---------------------------------------------------------------- ProcessJSON

  /** After ProcessJSON, an EC2 product that was the last to store its key
      is found by exact lookup, unless a priced RDS product took over its
      name. */
  lemma ProcessedEC2Get(e: EC2OfferIndex, r: RDSOfferIndex, pf: FloatParser, i: nat)
    requires i < |e.products| && EC2StoredKey(e.products[i], e.onDemand, pf).Some?
    requires forall j :: i < j < |e.products| ==>
               EC2StoredKey(e.products[j], e.onDemand, pf) != EC2StoredKey(e.products[i], e.onDemand, pf)
    requires forall j :: 0 <= j < |r.products| ==>
               !(RDSPrice(r.products[j], r.onDemand, pf).Some? && r.products[j].attr.instanceType == e.products[i].attr.instanceType)
    ensures Processed(e, r, pf).Get(e.products[i].attr.instanceType, EC2StoreAttr(e.products[i]))
            == Ok(EC2Item(EC2Offer(e.products[i].attr, EC2Price(e.products[i], e.onDemand, pf).value)))
  {
    var p := e.products[i];
    var mid := ExtractEC2Over(Empty, e.products, e.onDemand, pf);
    ExtractEC2Get(Empty, e.products, e.onDemand, pf, i);
    ExtractRDSKeepsEC2(mid, r.products, r.onDemand, pf);
    ExtractRDSNameUntouched(mid, r.products, r.onDemand, pf, p.attr.instanceType);
  }

  /** After ProcessJSON, an RDS product that was the last to store its key
      is held in the RDS table, yet exact lookup of its name reports that no
      pricing data exists, since lookup serves the EC2 family only. */
  lemma ProcessedRDSStored(e: EC2OfferIndex, r: RDSOfferIndex, pf: FloatParser, i: nat)
    requires i < |r.products| && RDSStoredKey(r.products[i], r.onDemand, pf).Some?
    requires forall j :: i < j < |r.products| ==>
               RDSStoredKey(r.products[j], r.onDemand, pf) != RDSStoredKey(r.products[i], r.onDemand, pf)
    ensures var db := Processed(e, r, pf);
            var k := RDSStoredKey(r.products[i], r.onDemand, pf).value;
            k in db.rds && db.rds[k] == RDSOffer(r.products[i].attr, RDSPrice(r.products[i], r.onDemand, pf).value)
    ensures forall a :: Processed(e, r, pf).Get(r.products[i].attr.instanceType, a) == Err(PricingDataNotFound)
  {
    var mid := ExtractEC2Over(Empty, e.products, e.onDemand, pf);
    ExtractRDSLastWins(mid, r.products, r.onDemand, pf, i);
    ExtractRDSRegisters(mid, r.products, r.onDemand, pf, i);
  }
}
