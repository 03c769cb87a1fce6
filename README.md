# awsprice price index, modelled in Dafny

awsprice answers questions such as "what does an m4.xlarge cost per hour and
per month?" from AWS's public pricing catalogs. It distils the EC2 and RDS
catalogs into a small price database and then answers queries against it.
This model covers that pipeline from the already-decoded catalogs onwards:

- **Region normalizer** (`region.dfy`, module `Region`). It holds the fixed
  table of 14 region names and their short codes, and the inverse table. The
  inverse is written out, and it is proved equal to what the initialisation
  loop builds. `NewRegion` accepts a full name or a code
  and returns the canonical full name.
- **Offer records and keys** (`offer_ec2.dfy`, `offer_rds.dfy`). These are
  the catalog shapes, the offer records with their accessors, `String`,
  `Columns` and `RowData`, and the key constructors. The key constructors
  apply defaults for missing attributes: region, and for RDS also engine
  "MySQL" and deployment "Multi-AZ".
- **Offers and the price table** (`offers.dfy`, module `Offers`). This module
  models:
  - the `Offer` interface over both families;
  - the `OfferList` ordering (`Less`, `Swap`);
  - the in-place sort behind `sort.Sort`;
  - the grouping of rows into one table per family;
  - the rendering of those tables.
- **Price index** (`pricedb.dfy`, module `PriceIndex`). The class `PriceDB`
  holds the name-to-family lookup table and one keyed map per family. Its
  methods `StoreEC2`, `StoreRDS` and `Search` update or read those fields in
  place. Each method is specified against the value-level `Contents`
  functions (`Get`, `StoreEC2`, `StoreRDS`, `SearchResult`).
- **Extractor** (`extractor.dfy`, `extraction_facts.dfy`,
  `extraction_order.dfy`). This part models:
  - the first-parseable-price scan (`simpleEC2Price` and `simpleRDSPrice`);
  - the filter, skip and store loops of `extractEC2` and `extractRDS`;
  - `ProcessJSON`.

  Each loop is proved equal to a fold over the product sequence
  (`ExtractEC2Over`, `ExtractRDSOver`). The facts
  about that fold say which entries end up in the database, and which of
  them depend on the order the products are visited in.
- **Query resolver** (`parser.dfy`, module `Parser`). `ParseInput` tries an
  exact lookup first, then falls back to substring search.

Prices are integers counting micro-dollars (`Base.Price`), so comparing and
sorting them is exact. A monthly figure is the hourly price times
`HoursPerMonth` (730). `strconv.ParseFloat` is a parameter of type
`FloatParser`, a function from text to an optional price.

Go's map iteration order is arbitrary. The model reflects it as follows:
- Catalog products, terms and price dimensions are sequences in an unknown
  but fixed order. `ExtractionOrder` proves which parts of the database do
  not depend on the product order and shows, by example, which part does.
- `Search` visits the lookup keys in any order, chosen with `:|`. Its result
  is specified as a multiset, so it does not depend on that order.
- `PriceTable` renders its per-family tables in the order EC2, RDS, S3, EBS.

Where the code and its comments disagree, the model follows the code:
- The EC2 filter keeps products whose operating system is anything *but*
  "Linux", even though the comment at extractor.go:54 says "Linux/Shared".
- `PriceTable` sorts with `sort.Sort`, which is not stable. The model
  therefore promises a sorted permutation and nothing about the order of
  offers with equal prices.

## Model

| member | source | states |
|---|---|---|
| Region.InverseIsInvert | region.go:28-31 | A table with a two-sided inverse is injective, and that inverse is exactly Invert of the table. |
| Region.CodeToRegionLeftInverse | region.go:12-31 | Every name's code is in the code table and maps back to the name. |
| Region.CodeToRegionRightInverse | region.go:12-31 | Every code in the code table maps to a name whose code it is. |
| Region.CodeToRegionIsInverse | region.go:28-31 | The name table is injective, and the code table is exactly its inverse, which is what the initialisation loop builds (BuildCodeToRegion). |
| Region.Invert | region.go:28-31 | The inverse table has exactly the codes as keys. Every name's code maps back to that name, and every code maps to a name whose code it is. |
| Region.BuildCodeToRegion | region.go:28-31 | The initialisation loop, visiting the names in any order, builds exactly the inverse table. |
| Region.NewRegion | region.go:35-45 | A full name is returned unchanged. A code yields its full name. The result is an error (InvalidRegion) exactly when the token is neither. Every success is a canonical name. |
| Region.CodesAreNotNames | region.go:12-27 | No short code is also a full name, so the two lookups never compete. |
| Region.NameAndCodeAgree | region.go:36-42 | A region's name and its code both normalize to the name. |
| Region.NewRegionIdempotent | region.go:36-42 | Normalizing a normalized region gives the same result. |
| Region.DefaultRegionCanonical | offer_ec2.go:92-94 | The assumed default region, "US East (N. Virginia)", is itself a canonical name. This holds for the assumed value only, since `defaultRegion` is defined outside the modelled files. |
| Region.ShortCodeExample | region_test.go:6-15 | "us-west-1" normalizes to "US West (N. California)". |
| OfferEC2.EC2Offer.RowData | offer_ec2.go:104-112 | The row has one cell per column. Its first cell is the instance type. Its two price cells are the hourly and monthly figures that String() shows. |
| OfferEC2.NewEC2OfferParam | offer_ec2.go:84-96 | The key's name is the given name. Its region is DefaultRegion when "region" is absent, and otherwise the normalized "region" attribute. An invalid region gives InvalidRegion, and only then. |
| OfferEC2.EC2KeyIgnoresOtherAttributes | offer_ec2.go:84-96 | Attributes other than "region" never change the key. |
| OfferEC2.EC2KeyByNameOrCode | offer_ec2.go:86-91 | Giving a region by name or by code yields the same key, which carries the full name. |
| OfferRDS.RDSOffer.RowData | offer_rds.go:118-126 | The row has one cell per column. The instance type comes first. The engine and deployment sit under the "Engine" and "Deployment" headers. The price cells are the figures String() shows. |
| OfferRDS.NewRDSOfferParam | offer_rds.go:88-110 | Region defaults to DefaultRegion, and an invalid region gives InvalidRegion. Engine is copied from "engine" or defaults to "MySQL". Deployment is copied from "deployment" or defaults to "Multi-AZ". The key's name is the given name. |
| OfferRDS.RDSKeyDefaults | offer_rds.go:88-110 | With no attributes, every default applies. |
| OfferRDS.RDSKeyIgnoresOtherAttributes | offer_rds.go:88-110 | Only "region", "engine" and "deployment" affect the key. |
| Offers.Offer.Columns | pricedb.go:131-139 | An offer's column headers depend on its family alone. |
| Offers.Offer.RowData | pricedb.go:131-139 | Every offer's row has one cell per column header. |
| Offers.Swap | pricedb.go:99-101 | Exchanges two elements in place; the array keeps the same multiset. |
| Offers.LessIsStrictWeakOrder | pricedb.go:95-97 | `Less` is irreflexive and transitive, and two offers neither of which is less than the other have equal hourly prices. This is the strict weak order `sort.Sort` needs. |
| Offers.SortByPrice | pricedb.go:91-111 | Sorting by Less alone leaves the array in ascending hourly-price order, as a permutation of its old contents. |
| Offers.OfType | pricedb.go:113-122 | A family's group holds offers of the list and of that family only, and every such offer. |
| Offers.GroupPresent | pricedb.go:113-122 | A family has a non-empty group exactly when one of its offers is in the list. |
| Offers.WritersMeaning | pricedb.go:113-122 | After visiting a list, a table exists exactly for each family with an offer in the list. Each table is headed by its family's columns and holds the rows of all that family's offers in list order. |
| Offers.GroupSorted | pricedb.go:111-122 | Each family's group of a sorted list is itself sorted by price. |
| Offers.GroupsPartition | pricedb.go:113-122 | Every offer lands in exactly one family's group; the groups together hold the list's offers. |
| Offers.Group | pricedb.go:113-122 | The grouping loop fills exactly the tables Writers describes; WritersMeaning says what they hold. |
| Offers.Render | pricedb.go:123-125 | The render loop emits the filled tables one after another in the given order. |
| Offers.PriceTable | pricedb.go:104-127 | An empty list gives "". Otherwise the caller's list is left as an ascending-by-price permutation of itself, and the text is the per-family rendering of that sorted list. |
| PriceIndex.Contents.Get | pricedb.go:176-194 | An unknown name gives NoKnownResource. A non-EC2 name gives PricingDataNotFound. Success happens exactly when the name is EC2 and its key is valid and stored, and returns the stored offer. An EC2 name whose region is invalid gives InvalidRegion. An EC2 name whose valid key is missing gives NoMatchingRecords. |
| PriceIndex.Contents.StoreEC2 | pricedb.go:162-172 | The name is always registered as EC2. A valid key is bound to the offer (last write wins), and the RDS table is unchanged. A following Get of that name and those attributes returns the offer. |
| PriceIndex.Contents.StoreRDS | extractor.go:114-115 | The RDS counterpart: the name is registered as RDS and the EC2 table is unchanged. A valid key is bound to the offer. Get of the name then reports PricingDataNotFound. |
| PriceIndex.StoreEC2KeepsOtherNames | pricedb.go:162-172 | Storing under one name leaves every lookup of another name as it was. |
| PriceIndex.StoreRDSKeepsOtherNames | extractor.go:114-115 | The same for RDS stores. |
| PriceIndex.HitsRemove | pricedb.go:199-206 | The search result does not depend on the order in which the lookup keys are visited. |
| PriceIndex.ContainsBasics | pricedb.go:200 | `strings.Contains`: the empty query occurs in every name, every name contains itself, and a query longer than the name never occurs in it. |
| PriceIndex.HitsSound | pricedb.go:199-206 | Every collected offer is the exact lookup of a visited key that contains the query. |
| PriceIndex.HitsComplete | pricedb.go:199-206 | Every visited key that contains the query and whose exact lookup succeeds contributes its offer. |
| PriceIndex.HitsSize | pricedb.go:199-206 | At most one offer is collected per key. |
| PriceIndex.SearchCharacterized | pricedb.go:197-208 | The search result is exactly the successful exact lookups of the names containing the query, and holds at most as many offers as there are names. |
| PriceIndex.PriceDB.constructor | pricedb.go:244-249 | A new database has every table empty. |
| PriceIndex.PriceDB.StoreEC2 | pricedb.go:162-172 | Updates the fields to Contents.StoreEC2 of their old value. It reports success exactly when the key is valid, and otherwise InvalidRegion. |
| PriceIndex.PriceDB.StoreRDS | extractor.go:114-120 | Updates the fields to Contents.StoreRDS of their old value. It reports success exactly when the key is valid. |
| PriceIndex.PriceDB.Search | pricedb.go:197-208 | Returns, in some order, exactly the SearchResult multiset, with no more offers than there are names. |
| Extractor.FirstParsedMeaning | extractor.go:17-27 | The scan finds nothing exactly when no dimension's USD entry parses. Otherwise it finds the price of the earliest dimension whose entry parses. |
| Extractor.DimensionsAppend | extractor.go:18-19 | Scanning a list of terms visits the dimensions of its parts in order. |
| Extractor.FirstParsedAppend | extractor.go:18-24 | Scanning a concatenation: the first part wins whenever anything in it parses. |
| Extractor.DimensionsAround | extractor.go:18-19 | The dimensions of all terms are those before term i, then term i's own, then those after it. |
| Extractor.ScanFound | extractor.go:18-23 | When nothing before dimension j of term i parses and that dimension does, its price is the scan's result. |
| Extractor.ScanSkip | extractor.go:19-23 | A dimension that does not parse leaves the scan finding nothing. |
| Extractor.SimplePrice | extractor.go:17-39 | The nested loop with early return yields the first parseable USD price in term-then-dimension order. It gives NoPrice when nothing parses, including for no terms. |
| Extractor.ExtractEC2 | extractor.go:54-79 | The product loop leaves the database equal to the fold of EC2Step over the products. A skipped product (filtered out, no terms, no price) changes nothing. A store failure does not stop the loop. |
| Extractor.ExtractRDS | extractor.go:95-121 | The same for RDS products, with their own filter and stored attributes. |
| Extractor.ProcessJSON | extractor.go:126-129 | A fresh database holds the EC2 extraction followed by the RDS extraction. |
| ExtractionFacts.ExtractEC2KeepsRDS | extractor.go:73-74 | EC2 extraction never touches the RDS table. |
| ExtractionFacts.ExtractEC2Filtered | extractor.go:55-61 | Products the EC2 filter drops leave the database as it was. These are products with a "Linux" operating system, a tenancy other than "Shared", or a GovCloud location. |
| ExtractionFacts.ExtractEC2LastWins | extractor.go:73-74 | A product that stores a key, with no later product storing that key, leaves its own attributes and price under the key. |
| ExtractionFacts.ExtractEC2Untouched | extractor.go:55-79 | A key that no product stores keeps its old entry, or its absence. |
| ExtractionFacts.ExtractEC2Registers | extractor.go:73-74 | Every kept and priced product registers its instance type as EC2, even when its region is invalid. |
| ExtractionFacts.ExtractEC2NameUntouched | extractor.go:55-79 | A name that no kept and priced product carries keeps its registration, or its absence. |
| ExtractionFacts.ExtractEC2Get | extractor.go:73-74 | After extraction, an exact lookup of the last product stored under a key, with the attributes it was stored with, returns that product's offer. |
| ExtractionFacts.StoreEC2Overlay | pricedb.go:162-172 | Storing into the upper layer of an overlay is the same as storing into the overlay. |
| ExtractionFacts.EC2StepOverlay | extractor.go:55-79 | One product's step commutes with laying new entries over older ones. |
| ExtractionFacts.ExtractEC2Overlay | extractor.go:55-79 | Extraction lays the entries built from the catalog alone over whatever the database held. |
| ExtractionFacts.ExtractEC2Idempotent | extractor.go:55-79 | A second pass over the same products, visited in the same order, changes nothing. |
| ExtractionFacts.ExtractRDSKeepsEC2 | extractor.go:113-115 | RDS extraction never touches the EC2 table. |
| ExtractionFacts.ExtractRDSFiltered | extractor.go:95-101 | Products the RDS filter drops (GovCloud, or the "AWSDataTransfer" service) leave the database as it was. |
| ExtractionFacts.ExtractRDSLastWins | extractor.go:113-115 | A product that stores a key, with no later product storing that key, leaves its own offer under the key. |
| ExtractionFacts.ExtractRDSUntouched | extractor.go:95-121 | A key that no product stores keeps its old entry, or its absence. |
| ExtractionFacts.ExtractRDSRegisters | extractor.go:113-115 | Every kept and priced product registers its instance type as RDS. |
| ExtractionFacts.ExtractRDSNameUntouched | extractor.go:95-121 | A name that no kept and priced product carries keeps its registration, or its absence. |
| ExtractionFacts.StoreRDSOverlay | extractor.go:114-115 | The same for RDS stores. |
| ExtractionFacts.RDSStepOverlay | extractor.go:95-121 | One product's step commutes with laying new entries over older ones. |
| ExtractionFacts.ExtractRDSOverlay | extractor.go:95-121 | Extraction lays the entries built from the catalog alone over whatever the database held. |
| ExtractionFacts.ExtractRDSIdempotent | extractor.go:95-121 | A second pass over the same products, visited in the same order, changes nothing. |
| ExtractionFacts.OverlayTwice | extractor.go:55-79 | Laying the same entries over a database twice is the same as once. |
| ExtractionOrder.ExtractEC2NameFrom | extractor.go:55-79 | Starting from an empty database, every registered name is registered as EC2 by some priced product. |
| ExtractionOrder.ExtractEC2NameIn | extractor.go:55-79 | Starting from an empty database, every priced product's instance type is registered. |
| ExtractionOrder.ExtractEC2KeyFrom | extractor.go:55-79 | Starting from an empty database, every stored key holds the offer of some product that stores that key. |
| ExtractionOrder.ExtractEC2KeyIn | extractor.go:55-79 | Starting from an empty database, every key a product stores is present. |
| ExtractionOrder.EC2NamesReordered | extractor.go:55 | Extracting the same products in another order registers the same names. |
| ExtractionOrder.EC2StoredReordered | extractor.go:55 | Extracting the same products in another order stores under the same keys. A key stored by a single product holds the same offer. |
| ExtractionOrder.ExtractEC2Reordered | extractor.go:55-79 | A second pass in any order keeps the names, the RDS table and the set of EC2 keys. It keeps the offer of every key that a single product stores. |
| ExtractionOrder.ExtractEC2ReorderedIdempotent | extractor.go:55-79 | When no two different kept products share a key, a second pass in any order changes nothing. |
| ExtractionOrder.ExtractEC2OrderMatters | extractor.go:55-79 | Counterexample: a Windows and a RHEL product of the same type and region share a key. The offer stored there is that of whichever is visited last, so a second pass in the other order changes the database. |
| ExtractionOrder.ExtractRDSNameFrom | extractor.go:95-121 | The RDS counterpart of ExtractEC2NameFrom: every registered name is registered as RDS by some priced product. |
| ExtractionOrder.ExtractRDSNameIn | extractor.go:95-121 | Starting from an empty database, every priced RDS product's instance type is registered. |
| ExtractionOrder.ExtractRDSKeyFrom | extractor.go:95-121 | Starting from an empty database, every stored RDS key holds the offer of some product that stores that key. |
| ExtractionOrder.ExtractRDSKeyIn | extractor.go:95-121 | Starting from an empty database, every RDS key a product stores is present. |
| ExtractionOrder.RDSNamesReordered | extractor.go:95 | Extracting the same RDS products in another order registers the same names. |
| ExtractionOrder.RDSStoredReordered | extractor.go:95 | Extracting the same RDS products in another order stores under the same keys. A key stored by a single product holds the same offer. |
| ExtractionOrder.ExtractRDSReordered | extractor.go:95-121 | A second pass in any order keeps the names, the EC2 table and the set of RDS keys. It keeps the offer of every key that a single product stores. |
| ExtractionOrder.ExtractRDSReorderedIdempotent | extractor.go:95-121 | When no two different kept RDS products share a key, a second pass in any order changes nothing. |
| ExtractionOrder.ExtractRDSOrderMatters | extractor.go:95-121 | Counterexample: two Oracle Single-AZ products of the same type and region under different SKUs share a key. The stored offer is that of whichever is visited last. |
| ExtractionFacts.ProcessedEC2Get | extractor.go:126-129 | After ProcessJSON, the last EC2 product stored under a key is found by exact lookup, unless a priced RDS product took over its name. |
| ExtractionFacts.ProcessedRDSStored | extractor.go:126-129 | After ProcessJSON, the last RDS product stored under a key is held in the RDS table, yet exact lookup of its name reports PricingDataNotFound. |
| Parser.ParseInput | parser.go:5-21 | The lookup uses no attributes, so all defaults apply. A successful exact lookup is shown alone. Otherwise there are three cases. No search result gives the lookup's error. One result is shown alone. Several results are shown as the tables of a price-sorted permutation of the results. |

## Left out

- Reading the catalogs from disk and decoding their JSON (extractor.go:42-53, 83-94) are not modelled. The model starts from the decoded `EC2OfferIndex` and `RDSOfferIndex`.
- The process exit on a read or decode failure and the log lines for skipped products are not modelled either.
- `save` and `LoadPriceDB` (gob encoding to the cache file) are not modelled. `ProcessJSON` is modelled up to the point where it saves.
- fetcher.go (HTTP download and the cache directory) is not part of this model. Neither is cmd/awsprice/main.go (argument handling and exit codes).
- ec2_json.go is not part of this model either. The catalog datatypes follow offer_ec2.go and offer_rds.go.
- `strconv.ParseFloat` is a parameter (`FloatParser`). Which strings parse, and to what price, is left to the caller.
- Prices are whole micro-dollars rather than `float64`, so binary floating-point rounding is not modelled. Neither are the special values: `strconv.ParseFloat` also accepts "NaN" and "Inf". A NaN price makes `Less` false in both directions against every offer, so `sort.Sort` promises no order for a list holding one. The integer model cannot represent that case, and `Offers.LessIsStrictWeakOrder` holds only for integer prices.
- `Format`: "%0.3f", "%0.2f" and tablewriter are replaced by deterministic text builders (module `Format`). Those builders round half away from zero, and their table layout is simplified. Nothing is proved about the exact text they produce. The proofs relate the rendered text to its inputs only through these functions.
- `defaultRegion` is not defined in any of the modelled files. The model takes it to be "US East (N. Virginia)" (`Region.DefaultRegion`).
- Region.NewRegion: on error the source also returns the empty Region value beside the error. The model returns only the error, and no caller uses that value.
- Error messages are replaced by the `Error` variants. Their formatted text, including the `%+v` dump of the terms, is not modelled.
- `StoreRDS` and the PriceDB RDS table are called from extractor.go:114 but defined in none of the modelled files. They are modelled as the RDS counterpart of `StoreEC2`.
- `Get` is kept EC2-only, as pricedb.go:182-193 has it. RDS prices are stored but never returned by `Get` or `Search`.
- pricedb.go:30-86 repeats the `EC2Offer` and `EC2OfferParam` definitions of offer_ec2.go. One copy is modelled.
- Offers.SortByPrice: `sort.Sort` is an introsort. The model uses an insertion sort that uses only `Less` and `Swap`. It proves what any correct `sort.Sort` guarantees (ascending order, same elements) and not which order tied offers end up in.
- The S3 and EBS families exist only as `OfferType` values. No offer of either family is ever built.
- Offers.PriceTable: Go visits the tables map in random order when rendering. The model renders in the fixed order EC2, RDS, S3, EBS.
- The accessors `Name`, `HourlyPrice`, `Type`, `Columns` and `String` of `EC2Offer` and `RDSOffer` are single field reads, constants or, for `String` (offer_ec2.go:99-101, offer_rds.go:113-115), one format expression. They are stated by their definitions, and the `RowData` contracts tie them together: the price cells of a row are the figures `String` shows.
- The predicates `Offers.Less` (pricedb.go:95-97), `PriceIndex.Contains` (pricedb.go:200), `Extractor.KeepEC2` (extractor.go:56-61) and `Extractor.KeepRDS` (extractor.go:96-101) are single boolean expressions with no contract of their own. Their rows are the lemmas about them: `LessIsStrictWeakOrder`, `ContainsBasics`, `ExtractEC2Filtered` and `ExtractRDSFiltered`.
- ExtractionFacts.ExtractEC2Idempotent, ExtractionFacts.ExtractRDSIdempotent: a second pass is proved to change nothing only when it visits the products in the same order. Go's `range` over the decoded products map may visit them in another order each run. Several kept products can then share a key: a Windows and a RHEL product of one instance type and region (the EC2 key is only region and type), or RDS products that differ only in attributes the key leaves out. The offer stored under such a key is that of the product visited last, so it depends on the map order (`ExtractionOrder.ExtractEC2OrderMatters`, `ExtractionOrder.ExtractRDSOrderMatters`). What does not depend on the order is proved in `ExtractEC2Reordered` and `ExtractRDSReordered`.
- Within one product, the on-demand terms and their price dimensions are also Go maps. The model fixes their order per catalog. When a SKU has several parseable dimensions, the price Go picks can differ between runs, and the model does not capture this.
