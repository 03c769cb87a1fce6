/** EC2 offers: the catalog's EC2 product shape, the stored offer record with
    its display accessors, and the key under which an offer is stored. */
module OfferEC2 {
  import opened Base
  import opened Region
  import opened Catalog
  import Format

  /** The selected attributes of one EC2 product. */
  datatype EC2Attr = EC2Attr(
    serviceCode: string,
    location: string,
    locationType: string,
    instanceType: string,
    currentGeneration: string,
    instanceFamily: string,
    vcpu: string,
    memory: string,
    operatingSystem: string,
    tenancy: string)

  datatype EC2Product = EC2Product(sku: string, productFamily: string, attr: EC2Attr)

  /** A decoded EC2 catalog: its products, in iteration order, and the
      on-demand terms of each SKU, in iteration order. */
  datatype EC2OfferIndex = EC2OfferIndex(
    formatVersion: string,
    disclaimer: string,
    publicationDate: string,
    products: seq<EC2Product>,
    onDemand: map<string, seq<TermItem>>)

  /** The product and hourly price of one EC2 offering. */
  datatype EC2Offer = EC2Offer(product: EC2Attr, price: Price) {

    /** The instance type. */
    function Name(): string {
      product.instanceType
    }

    function HourlyPrice(): Price {
      price
    }

    /** Always EC2. */
    function Type(): OfferType {
      EC2
    }

    /** "$<hourly> /hr, $<monthly> /mo", monthly being 730 hours. */
    function String(): string {
      Format.HourlyText(price) + " /hr, " + Format.MonthlyText(price) + " /mo"
    }

    function Columns(): seq<string> {
      ["type", "vCPU", "Mem", "$/hr", "$/mo"]
    }

    /** One table row, aligned with Columns(); its two price cells are the
        figures String() shows. */
    function RowData(): (row: seq<string>)
      ensures |row| == |Columns()|
      ensures row[0] == Name()
      ensures String() == row[3] + " /hr, " + row[4] + " /mo"
    {
      [product.instanceType, product.vcpu, product.memory,
       Format.HourlyText(price), Format.MonthlyText(price)]
    }
  }

  /** The factors that identify one EC2 offer in the index. */
  datatype EC2OfferParam = EC2OfferParam(region: Region, name: string)

  /** Builds the key for `name`; only the "region" attribute is consulted,
      and it defaults to DefaultRegion. */
  function NewEC2OfferParam(name: string, attr: map<string, string>): (r: Result<EC2OfferParam>)
    ensures "region" !in attr ==> r == Ok(EC2OfferParam(DefaultRegion, name))
    ensures "region" in attr ==> (r.Ok? <==> NewRegion(attr["region"]).Ok?)
    ensures "region" in attr && r.Ok? ==> r.value.region == NewRegion(attr["region"]).value
    ensures r.Ok? ==> r.value.name == name && r.value.region in RegionToCode
    ensures r.Err? ==> r.error == InvalidRegion
  {
    if "region" in attr then
      match NewRegion(attr["region"])
      case Ok(reg) => Ok(EC2OfferParam(reg, name))
      case Err(e) => Err(e)
    else
      Ok(EC2OfferParam(DefaultRegion, name))
  }

  /** Attributes other than "region" never change the key. */
  lemma EC2KeyIgnoresOtherAttributes(name: string, a: map<string, string>, b: map<string, string>)
    requires "region" in a <==> "region" in b
    requires "region" in a ==> a["region"] == b["region"]
    ensures NewEC2OfferParam(name, a) == NewEC2OfferParam(name, b)
  {
  }

  /** A region given by name or by code yields the same key. */
  lemma EC2KeyByNameOrCode(name: string, regionName: string)
    requires regionName in RegionToCode
    ensures NewEC2OfferParam(name, map["region" := RegionToCode[regionName]])
         == NewEC2OfferParam(name, map["region" := regionName])
         == Ok(EC2OfferParam(regionName, name))
  {
    NameAndCodeAgree(regionName);
  }
}
