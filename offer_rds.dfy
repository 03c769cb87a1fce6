/** RDS offers: the catalog's RDS product shape, the stored offer record with
    its display accessors, and the key under which an offer is stored. */
module OfferRDS {
  import opened Base
  import opened Region
  import opened Catalog
  import Format

  /** The selected attributes of one RDS product. */
  datatype RDSAttr = RDSAttr(
    serviceCode: string,
    location: string,
    locationType: string,
    instanceType: string,
    currentGeneration: string,
    instanceFamily: string,
    vcpu: string,
    memory: string,
    operatingSystem: string,
    tenancy: string,
    databaseEngine: string,
    deploymentOption: string)

  datatype RDSProduct = RDSProduct(sku: string, productFamily: string, attr: RDSAttr)

  /** A decoded RDS catalog: its products, in iteration order, and the
      on-demand terms of each SKU, in iteration order. */
  datatype RDSOfferIndex = RDSOfferIndex(
    formatVersion: string,
    disclaimer: string,
    publicationDate: string,
    products: seq<RDSProduct>,
    onDemand: map<string, seq<TermItem>>)

  /** The product and hourly price of one RDS offering. */
  datatype RDSOffer = RDSOffer(product: RDSAttr, price: Price) {

    /** The instance type. */
    function Name(): string {
      product.instanceType
    }

    function HourlyPrice(): Price {
      price
    }

    /** Always RDS. */
    function Type(): OfferType {
      RDS
    }

    /** "$<hourly> /hr, $<monthly> /mo", monthly being 730 hours. */
    function String(): string {
      Format.HourlyText(price) + " /hr, " + Format.MonthlyText(price) + " /mo"
    }

    function Columns(): seq<string> {
      ["type", "vCPU", "Mem", "Engine", "Deployment", "$/hr", "$/mo"]
    }

    /** One table row, aligned with Columns(): the engine and deployment sit
        under their headers and the price cells are the figures String()
        shows. */
    function RowData(): (row: seq<string>)
      ensures |row| == |Columns()|
      ensures row[0] == Name()
      ensures Columns()[3] == "Engine" && row[3] == product.databaseEngine
      ensures Columns()[4] == "Deployment" && row[4] == product.deploymentOption
      ensures String() == row[5] + " /hr, " + row[6] + " /mo"
    {
      [product.instanceType, product.vcpu, product.memory,
       product.databaseEngine, product.deploymentOption,
       Format.HourlyText(price), Format.MonthlyText(price)]
    }
  }

  /** The factors that identify one RDS offer in the index. */
  datatype RDSOfferParam = RDSOfferParam(
    databaseEngine: string,
    deploymentOption: string,
    region: Region,
    name: string)

  const DefaultEngine := "MySQL"
  const DefaultDeployment := "Multi-AZ"

  /** Builds the key for `name` from the "region", "engine" and
      "deployment" attributes, each with its own default. */
  function NewRDSOfferParam(name: string, attr: map<string, string>): (r: Result<RDSOfferParam>)
    ensures "region" in attr ==> (r.Ok? <==> NewRegion(attr["region"]).Ok?)
    ensures "region" !in attr ==> r.Ok? && r.value.region == DefaultRegion
    ensures "region" in attr && r.Ok? ==> r.value.region == NewRegion(attr["region"]).value
    ensures r.Ok? ==> r.value.databaseEngine == (if "engine" in attr then attr["engine"] else DefaultEngine)
    ensures r.Ok? ==> r.value.deploymentOption == (if "deployment" in attr then attr["deployment"] else DefaultDeployment)
    ensures r.Ok? ==> r.value.name == name && r.value.region in RegionToCode
    ensures r.Err? ==> r.error == InvalidRegion
  {
    var region :=
      if "region" in attr then NewRegion(attr["region"]) else Ok(DefaultRegion);
    match region
    case Err(e) => Err(e)
    case Ok(reg) =>
      var engine := if "engine" in attr then attr["engine"] else DefaultEngine;
      var deployment := if "deployment" in attr then attr["deployment"] else DefaultDeployment;
      Ok(RDSOfferParam(engine, deployment, reg, name))
  }

  /** With no attributes at all, every default applies. */
  lemma RDSKeyDefaults(name: string)
    ensures NewRDSOfferParam(name, map[]) == Ok(RDSOfferParam("MySQL", "Multi-AZ", DefaultRegion, name))
  {
  }

  /** Attributes other than "region", "engine" and "deployment" never change
      the key. */
  lemma RDSKeyIgnoresOtherAttributes(name: string, a: map<string, string>, b: map<string, string>)
    requires forall k :: k in {"region", "engine", "deployment"} ==> (k in a <==> k in b)
    requires forall k :: k in {"region", "engine", "deployment"} && k in a ==> a[k] == b[k]
    ensures NewRDSOfferParam(name, a) == NewRDSOfferParam(name, b)
  {
  }
}
