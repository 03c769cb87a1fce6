/** The region normalizer: a fixed table of AWS region names and their short
    codes, its inverse, and the function that turns either spelling into the
    canonical full name. */
module Region {
  import opened Base

  /** A canonical region is a full, human-readable region name. */
  type Region = string

  /** The region a key takes when no "region" attribute is given. Its
      definition is not among the modelled files; N. Virginia is assumed. */
  const DefaultRegion: Region := "US East (N. Virginia)"

  /** The fixed name-to-code table. */
  const RegionToCode: map<string, string> := map[
    "Asia Pacific (Mumbai)" := "ap-south-1",
    "Asia Pacific (Seoul)" := "ap-northeast-2",
    "Asia Pacific (Singapore)" := "ap-southeast-1",
    "Asia Pacific (Sydney)" := "ap-southeast-2",
    "Asia Pacific (Tokyo)" := "ap-northeast-1",
    "Canada (Central)" := "ca-central-1",
    "EU (Frankfurt)" := "eu-central-1",
    "EU (Ireland)" := "eu-west-1",
    "EU (London)" := "eu-west-2",
    "South America (Sao Paulo)" := "sa-east-1",
    "US East (N. Virginia)" := "us-east-1",
    "US East (Ohio)" := "us-east-2",
    "US West (N. California)" := "us-west-1",
    "US West (Oregon)" := "us-west-2"
  ]

  /** No two names share a code. */
  ghost predicate Injective(t: map<string, string>) {
    forall a, b :: a in t && b in t && a != b ==> t[a] != t[b]
  }

  /** The code-to-name table determined by a name-to-code table. */
  function Invert(t: map<string, string>): (inv: map<string, string>)
    requires Injective(t)
    ensures inv.Keys == t.Values
    ensures forall name :: name in t ==> inv[t[name]] == name
    ensures forall code :: code in inv ==> inv[code] in t && t[inv[code]] == code
  {
    map name | name in t :: t[name] := name
  }

  /** The code-to-name table, written out; CodeToRegionIsInverse shows it
      is what the initialisation loop builds. */
  const CodeToRegion: map<string, string> := map[
    "ap-south-1" := "Asia Pacific (Mumbai)",
    "ap-northeast-2" := "Asia Pacific (Seoul)",
    "ap-southeast-1" := "Asia Pacific (Singapore)",
    "ap-southeast-2" := "Asia Pacific (Sydney)",
    "ap-northeast-1" := "Asia Pacific (Tokyo)",
    "ca-central-1" := "Canada (Central)",
    "eu-central-1" := "EU (Frankfurt)",
    "eu-west-1" := "EU (Ireland)",
    "eu-west-2" := "EU (London)",
    "sa-east-1" := "South America (Sao Paulo)",
    "us-east-1" := "US East (N. Virginia)",
    "us-east-2" := "US East (Ohio)",
    "us-west-1" := "US West (N. California)",
    "us-west-2" := "US West (Oregon)"
  ]

  /** A table with a two-sided inverse is injective, and that inverse is
      the one Invert computes. */
  lemma InverseIsInvert(t: map<string, string>, inv: map<string, string>)
    requires forall name :: name in t ==> t[name] in inv && inv[t[name]] == name
    requires forall code :: code in inv ==> inv[code] in t && t[inv[code]] == code
    ensures Injective(t) && inv == Invert(t)
  {
    forall a, b | a in t && b in t && a != b
      ensures t[a] != t[b]
    {
      assert inv[t[a]] == a && inv[t[b]] == b;
    }
    var expected := Invert(t);
    assert inv.Keys == expected.Keys;
  }

  lemma CodeToRegionLeftInverse()
    ensures forall name :: name in RegionToCode ==>
              RegionToCode[name] in CodeToRegion && CodeToRegion[RegionToCode[name]] == name
  {
  }

  lemma CodeToRegionRightInverse()
    ensures forall code :: code in CodeToRegion ==>
              CodeToRegion[code] in RegionToCode && RegionToCode[CodeToRegion[code]] == code
  {
  }

  /** The written-out code table inverts the name table exactly. */
  lemma CodeToRegionIsInverse()
    ensures Injective(RegionToCode) && CodeToRegion == Invert(RegionToCode)
  {
    CodeToRegionLeftInverse();
    CodeToRegionRightInverse();
    InverseIsInvert(RegionToCode, CodeToRegion);
  }

  /** The initialisation loop: visit the name-to-code table in an arbitrary
      order and record each code against its name. */
  method BuildCodeToRegion(table: map<string, string>) returns (inv: map<string, string>)
    requires Injective(table)
    ensures inv == Invert(table)
  {
    inv := map[];
    var todo := table.Keys;
    while todo != {}
      invariant todo <= table.Keys
      invariant forall name :: name in table && name !in todo ==> table[name] in inv && inv[table[name]] == name
      invariant forall code :: code in inv ==> inv[code] in table && inv[code] !in todo && table[inv[code]] == code
      decreases todo
    {
      var name :| name in todo;
      inv := inv[table[name] := name];
      todo := todo - {name};
    }
  }

  /** Accepts a full region name or a short code and returns the full name. */
  function NewRegion(given: string): (r: Result<Region>)
    ensures given in RegionToCode ==> r == Ok(given)
    ensures given !in RegionToCode && given in CodeToRegion ==> r == Ok(CodeToRegion[given])
    ensures r.Err? <==> given !in RegionToCode && given !in CodeToRegion
    ensures r.Err? ==> r.error == InvalidRegion
    ensures r.Ok? ==> r.value in RegionToCode
  {
    if given in RegionToCode then Ok(given)
    else if given in CodeToRegion then Ok(CodeToRegion[given])
    else Err(InvalidRegion)
  }

  /** Short codes have a '-' as their third character. */
  predicate CodeShaped(token: string) {
    |token| > 2 && token[2] == '-'
  }

  lemma CodesAreCodeShaped()
    ensures forall code :: code in CodeToRegion ==> CodeShaped(code)
  {
  }

  lemma NamesAreNotCodeShaped()
    ensures forall name :: name in RegionToCode ==> !CodeShaped(name)
  {
  }

  /** No short code is also a full name, so the two lookups never compete. */
  lemma CodesAreNotNames()
    ensures forall code :: code in CodeToRegion ==> code !in RegionToCode
  {
    CodesAreCodeShaped();
    NamesAreNotCodeShaped();
  }

  /** A name and its code normalize to the same region: the name itself. */
  lemma NameAndCodeAgree(name: string)
    requires name in RegionToCode
    ensures NewRegion(RegionToCode[name]) == NewRegion(name) == Ok(name)
  {
    var code := RegionToCode[name];
    CodeToRegionLeftInverse();
    CodesAreNotNames();
    assert code in CodeToRegion && CodeToRegion[code] == name;
    assert code !in RegionToCode;
  }

  /** Normalizing a normalized region changes nothing. */
  lemma NewRegionIdempotent(token: string)
    ensures NewRegion(token).Ok? ==> NewRegion(NewRegion(token).value) == NewRegion(token)
  {
  }

  /** The assumed default region, "US East (N. Virginia)", is a canonical
      name. This is a fact about the assumed value only: the definition of
      defaultRegion is not among the modelled files. */
  lemma DefaultRegionCanonical()
    ensures NewRegion(DefaultRegion) == Ok(DefaultRegion)
  {
  }

  lemma ShortCodeExample()
    ensures NewRegion("us-west-1") == Ok("US West (N. California)")
  {
    NameAndCodeAgree("US West (N. California)");
  }
}
