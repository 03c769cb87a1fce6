/** The price index: a name-to-family lookup table plus one keyed map per
    family, with last-write-wins stores, exact lookup and substring search. */
module PriceIndex {
  import opened Base
  import opened Region
  import opened OfferEC2
  import opened OfferRDS
  import opened Offers

  predicate OccursAt(s: string, sub: string, i: nat) {
    i + |sub| <= |s| && s[i..i + |sub|] == sub
  }

  /** strings.Contains: `sub` occurs in `s` at some position. */
  predicate Contains(s: string, sub: string) {
    exists i: nat :: i <= |s| && OccursAt(s, sub, i)
  }

  /** The empty query occurs in every name, every name contains itself, and
      a query longer than the name never occurs in it. */
  lemma ContainsBasics(s: string, sub: string)
    ensures Contains(s, "") && Contains(s, s)
    ensures |sub| > |s| ==> !Contains(s, sub)
  {
    assert OccursAt(s, "", 0);
    assert OccursAt(s, s, 0);
  }

  /** The value held by a PriceDB: what a snapshot of its maps contains. */
  datatype Contents = Contents(
    offerLookup: map<string, OfferType>,
    ec2: map<EC2OfferParam, EC2Offer>,
    rds: map<RDSOfferParam, RDSOffer>)
  {
    /** Exact lookup: the name's family decides the table, the attributes
        (with their defaults) decide the key. Only the EC2 family has a
        case; every other family reports that no pricing data exists. */
    function Get(name: string, attr: map<string, string>): (r: Result<Offer>)
      ensures name !in offerLookup ==> r == Err(NoKnownResource(name))
      ensures name in offerLookup && offerLookup[name] != EC2 ==> r == Err(PricingDataNotFound)
      ensures r.Ok? <==>
                name in offerLookup && offerLookup[name] == EC2
                && NewEC2OfferParam(name, attr).Ok? && NewEC2OfferParam(name, attr).value in ec2
      ensures r.Ok? ==> r.value == EC2Item(ec2[NewEC2OfferParam(name, attr).value])
      ensures (name in offerLookup && offerLookup[name] == EC2 && NewEC2OfferParam(name, attr).Err?)
              ==> r == Err(InvalidRegion)
      ensures (name in offerLookup && offerLookup[name] == EC2 && NewEC2OfferParam(name, attr).Ok?
               && NewEC2OfferParam(name, attr).value !in ec2) ==> r == Err(NoMatchingRecords)
    {
      if name !in offerLookup then Err(NoKnownResource(name))
      else match offerLookup[name]
        case EC2 =>
          (match NewEC2OfferParam(name, attr)
           case Err(e) => Err(e)
           case Ok(key) => if key in ec2 then Ok(EC2Item(ec2[key])) else Err(NoMatchingRecords))
        case _ => Err(PricingDataNotFound)
    }

    /** The contents after StoreEC2: the name is registered as EC2 even when
        its key cannot be built; a buildable key is bound to the offer,
        replacing any earlier one. Queries for other names are unaffected. */
    function StoreEC2(name: string, attr: map<string, string>, offer: EC2Offer): (r: Contents)
      ensures r.offerLookup == offerLookup[name := EC2]
      ensures r.rds == rds
      ensures NewEC2OfferParam(name, attr).Err? ==> r.ec2 == ec2
      ensures NewEC2OfferParam(name, attr).Ok? ==> r.ec2 == ec2[NewEC2OfferParam(name, attr).value := offer]
      ensures NewEC2OfferParam(name, attr).Ok? ==> r.Get(name, attr) == Ok(EC2Item(offer))
    {
      var lookup := offerLookup[name := EC2];
      match NewEC2OfferParam(name, attr)
      case Err(_) => Contents(lookup, ec2, rds)
      case Ok(key) => Contents(lookup, ec2[key := offer], rds)
    }

    /** The contents after StoreRDS, the RDS counterpart of StoreEC2. */
    function StoreRDS(name: string, attr: map<string, string>, offer: RDSOffer): (r: Contents)
      ensures r.offerLookup == offerLookup[name := RDS]
      ensures r.ec2 == ec2
      ensures NewRDSOfferParam(name, attr).Err? ==> r.rds == rds
      ensures NewRDSOfferParam(name, attr).Ok? ==> r.rds == rds[NewRDSOfferParam(name, attr).value := offer]
      ensures r.Get(name, attr) == Err(PricingDataNotFound)
    {
      var lookup := offerLookup[name := RDS];
      match NewRDSOfferParam(name, attr)
      case Err(_) => Contents(lookup, ec2, rds)
      case Ok(key) => Contents(lookup, ec2, rds[key := offer])
    }

    /** What one lookup key contributes to a search for `name`. */
    function Hit(key: string, name: string, attr: map<string, string>): multiset<Offer> {
      if Contains(key, name) && Get(key, attr).Ok? then multiset{Get(key, attr).value} else multiset{}
    }

    /** The offers a search over `keys` collects, whatever the visiting order. */
    ghost function Hits(keys: set<string>, name: string, attr: map<string, string>): multiset<Offer>
      decreases keys
    {
      if keys == {} then multiset{}
      else
        var k :| k in keys;
        Hits(keys - {k}, name, attr) + Hit(k, name, attr)
    }

    /** What Search returns, as a multiset. */
    ghost function SearchResult(name: string, attr: map<string, string>): multiset<Offer> {
      Hits(offerLookup.Keys, name, attr)
    }
  }

  const Empty := Contents(map[], map[], map[])

  /** Storing under one name leaves every query for another name as it was. */
  lemma StoreEC2KeepsOtherNames(c: Contents, name: string, attr: map<string, string>, offer: EC2Offer, n: string, a: map<string, string>)
    requires n != name
    ensures c.StoreEC2(name, attr, offer).Get(n, a) == c.Get(n, a)
  {
    var key := NewEC2OfferParam(n, a);
    if key.Ok? {
      assert key.value.name == n;
    }
  }

  /** The RDS counterpart of StoreEC2KeepsOtherNames. */
  lemma StoreRDSKeepsOtherNames(c: Contents, name: string, attr: map<string, string>, offer: RDSOffer, n: string, a: map<string, string>)
    requires n != name
    ensures c.StoreRDS(name, attr, offer).Get(n, a) == c.Get(n, a)
  {
  }

  /** Any key may be visited first: the collected offers do not depend on
      the order in which the keys are visited. */
  lemma {:induction false} HitsRemove(c: Contents, keys: set<string>, k: string, name: string, attr: map<string, string>)
    requires k in keys
    ensures c.Hits(keys, name, attr) == c.Hits(keys - {k}, name, attr) + c.Hit(k, name, attr)
    decreases keys
  {
    var j :| j in keys && c.Hits(keys, name, attr) == c.Hits(keys - {j}, name, attr) + c.Hit(j, name, attr);
    if j != k {
      HitsRemove(c, keys - {j}, k, name, attr);
      HitsRemove(c, keys - {k}, j, name, attr);
      assert keys - {j} - {k} == keys - {k} - {j};
    }
  }

  /** One step of the search loop keeps its invariant. */
  lemma SearchStep(c: Contents, todo: set<string>, key: string, name: string, attr: map<string, string>,
                   before: seq<Offer>, after: seq<Offer>)
    requires key in todo
    requires multiset(before) + c.Hits(todo, name, attr) == c.SearchResult(name, attr)
    requires after == if Contains(key, name) && c.Get(key, attr).Ok? then before + [c.Get(key, attr).value] else before
    ensures multiset(after) + c.Hits(todo - {key}, name, attr) == c.SearchResult(name, attr)
  {
    HitsRemove(c, todo, key, name, attr);
  }

  /** Every searched offer is the exact lookup of a key containing `name`. */
  lemma {:induction false} HitsSound(c: Contents, keys: set<string>, name: string, attr: map<string, string>, o: Offer)
    requires o in c.Hits(keys, name, attr)
    ensures exists k :: k in keys && Contains(k, name) && c.Get(k, attr) == Ok(o)
    decreases keys
  {
    var k :| k in keys;
    HitsRemove(c, keys, k, name, attr);
    if o !in c.Hit(k, name, attr) {
      HitsSound(c, keys - {k}, name, attr, o);
    }
  }

  /** Every key containing `name` whose exact lookup succeeds contributes
      its offer. */
  lemma HitsComplete(c: Contents, keys: set<string>, name: string, attr: map<string, string>, k: string)
    requires k in keys && Contains(k, name) && c.Get(k, attr).Ok?
    ensures c.Get(k, attr).value in c.Hits(keys, name, attr)
  {
    HitsRemove(c, keys, k, name, attr);
  }

  /** A search returns at most one offer per key. */
  lemma {:induction false} HitsSize(c: Contents, keys: set<string>, name: string, attr: map<string, string>)
    ensures |c.Hits(keys, name, attr)| <= |keys|
    decreases keys
  {
    if keys != {} {
      var k :| k in keys;
      HitsRemove(c, keys, k, name, attr);
      HitsSize(c, keys - {k}, name, attr);
    }
  }

  /** The search result holds exactly the exact-lookup offers of the keys
      that contain `name`, and no more offers than there are names. */
  lemma SearchCharacterized(c: Contents, name: string, attr: map<string, string>)
    ensures forall o :: o in c.SearchResult(name, attr) ==>
              exists k :: k in c.offerLookup && Contains(k, name) && c.Get(k, attr) == Ok(o)
    ensures forall k :: k in c.offerLookup && Contains(k, name) && c.Get(k, attr).Ok? ==>
              c.Get(k, attr).value in c.SearchResult(name, attr)
    ensures |c.SearchResult(name, attr)| <= |c.offerLookup|
  {
    forall o | o in c.SearchResult(name, attr)
      ensures exists k :: k in c.offerLookup && Contains(k, name) && c.Get(k, attr) == Ok(o)
    {
      HitsSound(c, c.offerLookup.Keys, name, attr, o);
    }
    forall k | k in c.offerLookup && Contains(k, name) && c.Get(k, attr).Ok?
      ensures c.Get(k, attr).value in c.SearchResult(name, attr)
    {
      HitsComplete(c, c.offerLookup.Keys, name, attr, k);
    }
    HitsSize(c, c.offerLookup.Keys, name, attr);
  }

  /** The mutable price database. */
  class PriceDB {
    /** Maps a name such as "m4.xlarge" to its family. */
    var offerLookup: map<string, OfferType>
    var ec2: map<EC2OfferParam, EC2Offer>
    var rds: map<RDSOfferParam, RDSOffer>

    function View(): Contents
      reads this
    {
      Contents(offerLookup, ec2, rds)
    }

    /** NewPriceDB: every table empty. */
    constructor ()
      ensures View() == Empty
    {
      offerLookup := map[];
      ec2 := map[];
      rds := map[];
    }

    method StoreEC2(name: string, attr: map<string, string>, offer: EC2Offer) returns (err: Outcome)
      modifies this
      ensures View() == old(View()).StoreEC2(name, attr, offer)
      ensures err.Pass? <==> NewEC2OfferParam(name, attr).Ok?
      ensures err.Fail? ==> err.error == InvalidRegion
    {
      offerLookup := offerLookup[name := EC2];
      var offerParam := NewEC2OfferParam(name, attr);
      if offerParam.Err? {
        return Fail(offerParam.error);
      }
      ec2 := ec2[offerParam.value := offer];
      return Pass;
    }

    method StoreRDS(name: string, attr: map<string, string>, offer: RDSOffer) returns (err: Outcome)
      modifies this
      ensures View() == old(View()).StoreRDS(name, attr, offer)
      ensures err.Pass? <==> NewRDSOfferParam(name, attr).Ok?
      ensures err.Fail? ==> err.error == InvalidRegion
    {
      offerLookup := offerLookup[name := RDS];
      var offerParam := NewRDSOfferParam(name, attr);
      if offerParam.Err? {
        return Fail(offerParam.error);
      }
      rds := rds[offerParam.value := offer];
      return Pass;
    }

    /** Visits every name in the lookup table, in an arbitrary order, and
        collects the exact lookup of each name that contains `name`. */
    method Search(name: string, attr: map<string, string>) returns (results: seq<Offer>)
      ensures multiset(results) == View().SearchResult(name, attr)
      ensures |results| <= |offerLookup|
    {
      results := [];
      var c := View();
      var todo := offerLookup.Keys;
      while todo != {}
        invariant todo <= c.offerLookup.Keys
        invariant multiset(results) + c.Hits(todo, name, attr) == c.SearchResult(name, attr)
        decreases todo
      {
        var key :| key in todo;
        ghost var before := results;
        if Contains(key, name) {
          var offer := c.Get(key, attr);
          if offer.Ok? {
            results := results + [offer.value];
          }
        }
        SearchStep(c, todo, key, name, attr, before, results);
        todo := todo - {key};
      }
      HitsSize(c, c.offerLookup.Keys, name, attr);
      assert |multiset(results)| == |results|;
    }
  }
}
