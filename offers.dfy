/** The Offer interface over both families, the OfferList ordering, and the
    price table: sort a list of offers in place by hourly price, group the
    rows by family, render one table per family. */
module Offers {
  import opened Base
  import opened OfferEC2
  import opened OfferRDS
  import Format

  /** Any stored offer, whichever family it belongs to. */
  datatype Offer = EC2Item(ec2: EC2Offer) | RDSItem(rds: RDSOffer) {

    function HourlyPrice(): Price {
      match this
      case EC2Item(o) => o.HourlyPrice()
      case RDSItem(o) => o.HourlyPrice()
    }

    function Type(): OfferType {
      match this
      case EC2Item(o) => o.Type()
      case RDSItem(o) => o.Type()
    }

    function Name(): string {
      match this
      case EC2Item(o) => o.Name()
      case RDSItem(o) => o.Name()
    }

    function String(): string {
      match this
      case EC2Item(o) => o.String()
      case RDSItem(o) => o.String()
    }

    /** The column headers, which depend on the family alone. */
    function Columns(): (cols: seq<string>)
      ensures cols == Header(Type())
    {
      match this
      case EC2Item(o) => o.Columns()
      case RDSItem(o) => o.Columns()
    }

    function RowData(): (row: seq<string>)
      ensures |row| == |Columns()|
    {
      match this
      case EC2Item(o) => o.RowData()
      case RDSItem(o) => o.RowData()
    }
  }

  /** The column headers of a family's table (no S3 or EBS offer is ever
      stored). */
  function Header(t: OfferType): seq<string> {
    match t
    case EC2 => ["type", "vCPU", "Mem", "$/hr", "$/mo"]
    case RDS => ["type", "vCPU", "Mem", "Engine", "Deployment", "$/hr", "$/mo"]
    case _ => []
  }

  /** OfferList.Less: strictly cheaper per hour. */
  predicate Less(a: Offer, b: Offer) {
    a.HourlyPrice() < b.HourlyPrice()
  }

  /** Less is a strict weak order, as sort.Sort needs: irreflexive,
      transitive, and two offers neither of which is less than the other
      have the same hourly price. */
  lemma LessIsStrictWeakOrder(a: Offer, b: Offer, c: Offer)
    ensures !Less(a, a)
    ensures Less(a, b) && Less(b, c) ==> Less(a, c)
    ensures !Less(a, b) && !Less(b, a) ==> a.HourlyPrice() == b.HourlyPrice()
  {
  }

  /** Ascending by hourly price; offers of equal price may come in any order. */
  ghost predicate SortedByPrice(s: seq<Offer>) {
    forall i, j :: 0 <= i < j < |s| ==> s[i].HourlyPrice() <= s[j].HourlyPrice()
  }

  /** OfferList.Swap: exchange two elements in place. */
  method Swap(a: array<Offer>, i: int, j: int)
    requires 0 <= i < a.Length && 0 <= j < a.Length
    modifies a
    ensures a[..] == old(a[..])[i := old(a[j])][j := old(a[i])]
    ensures multiset(a[..]) == multiset(old(a[..]))
  {
    a[i], a[j] := a[j], a[i];
  }

  /** sort.Sort over an OfferList: an insertion sort that moves each element
      left past the strictly more expensive ones, using Less and Swap only. */
  method SortByPrice(a: array<Offer>)
    modifies a
    ensures SortedByPrice(a[..])
    ensures multiset(a[..]) == multiset(old(a[..]))
  {
    for i := 0 to a.Length
      invariant SortedByPrice(a[..i])
      invariant multiset(a[..]) == multiset(old(a[..]))
    {
      var j := i;
      while j > 0 && Less(a[j], a[j - 1])
        invariant 0 <= j <= i
        invariant multiset(a[..]) == multiset(old(a[..]))
        invariant forall k, l :: 0 <= k < l <= i && k != j && l != j ==> a[k].HourlyPrice() <= a[l].HourlyPrice()
        invariant forall l :: j < l <= i ==> a[j].HourlyPrice() <= a[l].HourlyPrice()
        invariant 0 < j < i ==> a[j - 1].HourlyPrice() <= a[j + 1].HourlyPrice()
      {
        Swap(a, j - 1, j);
        j := j - 1;
      }
    }
  }

  /** The offers of family t in s, in their order in s. */
  function OfType(s: seq<Offer>, t: OfferType): (g: seq<Offer>)
    ensures forall o :: o in g ==> o in s && o.Type() == t
    ensures forall o :: o in s && o.Type() == t ==> o in g
    decreases |s|
  {
    if s == [] then []
    else OfType(s[..|s| - 1], t) + (if s[|s| - 1].Type() == t then [s[|s| - 1]] else [])
  }

  /** The table rows of a list of offers, one per offer, in order. */
  function Rows(s: seq<Offer>): seq<seq<string>> {
    seq(|s|, i requires 0 <= i < |s| => s[i].RowData())
  }

  /** A table being filled: the header set by its first offer, then rows. */
  datatype Writer = Writer(header: seq<string>, rows: seq<seq<string>>)

  function TypesOf(s: seq<Offer>): set<OfferType> {
    set o | o in s :: o.Type()
  }

  /** The tables the grouping loop has filled after visiting s in order:
      the first offer of a family opens its table with the family's columns,
      and every offer appends its row to its family's table. */
  function Writers(s: seq<Offer>): map<OfferType, Writer>
    decreases |s|
  {
    if s == [] then map[]
    else
      var w, o := Writers(s[..|s| - 1]), s[|s| - 1];
      var t := o.Type();
      if t in w then w[t := Writer(w[t].header, w[t].rows + [o.RowData()])]
      else w[t := Writer(o.Columns(), [o.RowData()])]
  }

  /** The order in which the filled tables are rendered. */
  const RenderOrder: seq<OfferType> := [EC2, RDS, S3, EBS]

  function RenderIn(order: seq<OfferType>, w: map<OfferType, Writer>): string {
    if order == [] then ""
    else
      (if order[0] in w then Format.Table(w[order[0]].header, w[order[0]].rows) else "")
      + RenderIn(order[1..], w)
  }

  /** The text PriceTable produces for an already sorted list. */
  function TableText(sorted: seq<Offer>): string {
    if sorted == [] then "" else RenderIn(RenderOrder, Writers(sorted))
  }

  lemma OfTypeSnoc(s: seq<Offer>, o: Offer, t: OfferType)
    ensures OfType(s + [o], t) == OfType(s, t) + (if o.Type() == t then [o] else [])
  {
    assert (s + [o])[..|s + [o]| - 1] == s;
  }

  /** A family has a non-empty group exactly when one of its offers is present. */
  lemma GroupPresent(s: seq<Offer>, t: OfferType)
    ensures OfType(s, t) != [] <==> t in TypesOf(s)
  {
    var g := OfType(s, t);
    if g != [] {
      assert g[0] in g;
    }
  }

  lemma RowsSnoc(g: seq<Offer>, o: Offer)
    ensures Rows(g + [o]) == Rows(g) + [o.RowData()]
  {
  }

  /** One family's table after visiting a list: present exactly when the
      family has an offer in it, and then holding all their rows. */
  lemma {:induction false} WriterOf(s: seq<Offer>, t: OfferType)
    ensures t in Writers(s) <==> OfType(s, t) != []
    ensures t in Writers(s) ==> Writers(s)[t] == Writer(Header(t), Rows(OfType(s, t)))
    decreases |s|
  {
    if s != [] {
      var init, o := s[..|s| - 1], s[|s| - 1];
      assert s == init + [o];
      WriterOf(init, t);
      OfTypeSnoc(init, o, t);
      var w := Writers(init);
      if t != o.Type() {
        assert OfType(s, t) == OfType(init, t);
        assert t in Writers(s) <==> t in w;
        assert t in w ==> Writers(s)[t] == w[t];
      } else {
        RowsSnoc(OfType(init, t), o);
        assert Writers(s)[t] == (if t in w then Writer(w[t].header, w[t].rows + [o.RowData()])
                                 else Writer(o.Columns(), [o.RowData()]));
        if t !in w {
          assert OfType(s, t) == [o];
        }
      }
    }
  }

  /** The filled tables are exactly one per family present, headed by the
      family's columns and holding the rows of all its offers in list order. */
  lemma WritersMeaning(s: seq<Offer>)
    ensures forall t :: t in Writers(s) <==> OfType(s, t) != []
    ensures forall t :: t in Writers(s) ==> Writers(s)[t] == Writer(Header(t), Rows(OfType(s, t)))
  {
    forall t
      ensures t in Writers(s) <==> OfType(s, t) != []
      ensures t in Writers(s) ==> Writers(s)[t] == Writer(Header(t), Rows(OfType(s, t)))
    {
      WriterOf(s, t);
    }
  }

  /** Each family's group of a sorted list is itself sorted. */
  lemma {:induction false} GroupSorted(s: seq<Offer>, t: OfferType)
    requires SortedByPrice(s)
    ensures SortedByPrice(OfType(s, t))
  {
    if s != [] {
      var init := s[..|s| - 1];
      assert SortedByPrice(init);
      GroupSorted(init, t);
      forall o | o in OfType(init, t)
        ensures o.HourlyPrice() <= s[|s| - 1].HourlyPrice()
      {
        var k :| 0 <= k < |init| && init[k] == o;
      }
    }
  }

  /** Every offer lands in exactly one family's group. */
  lemma {:induction false} GroupsPartition(s: seq<Offer>)
    ensures multiset(s) == multiset(OfType(s, EC2)) + multiset(OfType(s, RDS))
                         + multiset(OfType(s, S3)) + multiset(OfType(s, EBS))
  {
    if s != [] {
      var init := s[..|s| - 1];
      assert s == init + [s[|s| - 1]];
      GroupsPartition(init);
    }
  }

  /** The grouping loop: visit a sorted list in order and append each
      offer's row to its family's table, opening the table at the family's
      first offer. */
  method Group(sorted: seq<Offer>) returns (tables: map<OfferType, Writer>)
    ensures tables == Writers(sorted)
  {
    tables := map[];
    for i := 0 to |sorted|
      invariant tables == Writers(sorted[..i])
    {
      var eo := sorted[i];
      var t, row := eo.Type(), eo.RowData();
      assert sorted[..i + 1][..i] == sorted[..i];
      if t in tables {
        var writer := tables[t];
        tables := tables[t := Writer(writer.header, writer.rows + [row])];
      } else {
        tables := tables[t := Writer(eo.Columns(), [row])];
      }
    }
    assert sorted[..|sorted|] == sorted;
  }

  /** The render loop: the filled tables, one after another, in RenderOrder. */
  method Render(order: seq<OfferType>, tables: map<OfferType, Writer>) returns (text: string)
    ensures text == RenderIn(order, tables)
  {
    text := "";
    for k := 0 to |order|
      invariant text + RenderIn(order[k..], tables) == RenderIn(order, tables)
    {
      var t := order[k];
      var rest := RenderIn(order[k + 1..], tables);
      assert order[k..][1..] == order[k + 1..];
      if t in tables {
        var table := Format.Table(tables[t].header, tables[t].rows);
        assert RenderIn(order[k..], tables) == table + rest;
        assert (text + table) + rest == text + (table + rest);
        text := text + table;
      } else {
        assert RenderIn(order[k..], tables) == rest;
      }
    }
  }

  /** PriceTable: an empty list gives the empty string; otherwise the list
      is sorted in place by hourly price and rendered as one table per
      family. */
  method PriceTable(el: array<Offer>) returns (text: string)
    modifies el
    ensures el.Length == 0 ==> text == ""
    ensures SortedByPrice(el[..])
    ensures multiset(el[..]) == multiset(old(el[..]))
    ensures text == TableText(el[..])
  {
    if el.Length == 0 {
      return "";
    }
    SortByPrice(el);
    var tables := Group(el[..]);
    text := Render(RenderOrder, tables);
  }
}
