/** Shared vocabulary of the price index: optional values, Go-style error
    results, the error kinds the core reports, the price representation and
    the offer families. */
module Base {

  datatype Option<+T> = None | Some(value: T)

  /** A Go `(value, error)` pair: exactly one side is meaningful. */
  datatype Result<+T> = Ok(value: T) | Err(error: Error)

  /** A Go `error` return with no value beside it. */
  datatype Outcome = Pass | Fail(error: Error)

  /** The errors the core produces, one per distinct message in the source. */
  datatype Error =
    | InvalidRegion                  // "Invalid Region"
    | NoKnownResource(name: string)  // "No known resources named %s"
    | NoMatchingRecords              // "No matching records found"
    | PricingDataNotFound            // "Pricing data not found"
    | NoPrice                        // "Error getting pricing from %+v"

  /** An hourly price in micro-dollars (millionths of a US dollar). */
  type Price = int

  const MicrosPerDollar: nat := 1_000_000

  /** Average number of hours in a month, fixed by the program. */
  const HoursPerMonth: nat := 730

  /** The offer families; only EC2 and RDS are ever stored. */
  datatype OfferType = EC2 | RDS | S3 | EBS
}

/** The decoded shape of an on-demand pricing term, shared by the EC2 and RDS
    catalogs (the two families declare identical term types). Go map
    iteration order is modelled as the order of these sequences. */
module Catalog {

  /** One billing dimension; pricePerUnit maps a currency code to a decimal
      number as text. */
  datatype PriceDimension = PriceDimension(
    rateCode: string,
    description: string,
    unit: string,
    pricePerUnit: map<string, string>)

  /** One on-demand term of a SKU, with its price dimensions. */
  datatype TermItem = TermItem(
    offerTermCode: string,
    sku: string,
    priceDimensions: seq<PriceDimension>)
}
