/**
 * `groupSalesByID` of the point-of-sale client: flat sale rows are folded
 * into one group per VentaID, in the order in which the ids are first seen,
 * each with the header of its first row and the items of all its rows.
 */
module SalesGrouping {
  import opened SaleRecords
  import Seqs

  datatype GroupItem = GroupItem(nombre: string, codigo: string, cantidad: int, precio: int, subtotal: int)

  datatype SaleGroup = SaleGroup(
    id: string,
    fecha: string,
    hora: string,
    total: int,
    vendedor: string,
    items: seq<GroupItem>)

  function ItemOf(r: SaleRow): GroupItem {
    GroupItem(r.nombre, r.codigo, r.cantidad, r.precioUnitario, r.subtotal)
  }

  /** The items of the rows whose VentaID is `id`, in row order. */
  function ItemsWithId(sales: seq<SaleRow>, id: string): seq<GroupItem> {
    if sales == [] then []
    else
      var last := sales[|sales| - 1];
      ItemsWithId(sales[..|sales| - 1], id) + (if last.ventaId == id then [ItemOf(last)] else [])
  }

  /** The group of an id that occurs: the header of its first row and the items of all its rows. */
  function GroupOf(sales: seq<SaleRow>, id: string): SaleGroup
    requires id in Ids(sales)
  {
    var first := sales[Seqs.FirstIndexOf(Ids(sales), id).value];
    SaleGroup(id, first.fecha, first.hora, first.totalVenta, first.vendedor, ItemsWithId(sales, id))
  }

  /** One group per distinct VentaID, in order of first appearance. */
  function Grouped(sales: seq<SaleRow>): (groups: seq<SaleGroup>)
  {
    var keys := Seqs.FirstSeen(Ids(sales));
    seq(|keys|, i requires 0 <= i < |keys| => GroupOf(sales, keys[i]))
  }

  lemma {:induction false} ItemsWithAbsentId(sales: seq<SaleRow>, id: string)
    requires id !in Ids(sales)
    ensures ItemsWithId(sales, id) == []
  {
    if sales != [] {
      var init := sales[..|sales| - 1];
      IdsAppend(init, sales[|sales| - 1]);
      assert sales == init + [sales[|sales| - 1]];
      ItemsWithAbsentId(init, id);
    }
  }

  /** How the group of an id changes when one more row is read. */
  lemma {:induction false} GroupOfAppend(sales: seq<SaleRow>, r: SaleRow, id: string)
    requires id in Ids(sales + [r])
    ensures id in Ids(sales) ==>
      GroupOf(sales + [r], id) ==
      GroupOf(sales, id).(items := GroupOf(sales, id).items + (if r.ventaId == id then [ItemOf(r)] else []))
    ensures id !in Ids(sales) ==>
      GroupOf(sales + [r], id) == SaleGroup(id, r.fecha, r.hora, r.totalVenta, r.vendedor, [ItemOf(r)])
  {
    IdsAppend(sales, r);
    Seqs.FirstIndexOfAppend(Ids(sales), r.ventaId, id);
    assert (sales + [r])[..|sales|] == sales;
    if id !in Ids(sales) {
      ItemsWithAbsentId(sales, id);
    }
  }

  /** A JavaScript object used as a dictionary: its keys in insertion order and its entries. */
  datatype Dict = Dict(keys: seq<string>, entries: map<string, SaleGroup>)

  /** The body of the `forEach`: create the sale's group on first sight, then push its item. */
  function AddSale(d: Dict, sale: SaleRow): Dict {
    var id := sale.ventaId;
    var g := if id in d.entries then d.entries[id]
             else SaleGroup(id, sale.fecha, sale.hora, sale.totalVenta, sale.vendedor, []);
    Dict(if id in d.entries then d.keys else d.keys + [id],
         d.entries[id := g.(items := g.items + [ItemOf(sale)])])
  }

  /** The loop invariant of `groupSalesByID` after reading the rows `read`: the dictionary's keys,
      in insertion order, are the ids first seen, and each key maps to the group of those rows. */
  ghost predicate GroupingState(read: seq<SaleRow>, d: Dict) {
    && d.keys == Seqs.FirstSeen(Ids(read))
    && (forall k :: k in d.entries <==> k in d.keys)
    && (forall k :: k in d.entries ==> k in Ids(read) && d.entries[k] == GroupOf(read, k))
  }

  /** One iteration of the loop: create the group on first sight, then push the row's item. */
  lemma GroupingStep(read: seq<SaleRow>, sale: SaleRow, d: Dict)
    requires GroupingState(read, d)
    ensures GroupingState(read + [sale], AddSale(d, sale))
  {
    forall k | k in Ids(read) ensures k in d.entries {
      Seqs.FirstSeenMembers(Ids(read), k);
    }
    GroupingStepKeys(read, sale, d);
    GroupingStepEntries(read, sale, d);
  }

  /** The keys after one iteration are the ids first seen among the rows read, and only they
      have entries. */
  lemma GroupingStepKeys(read: seq<SaleRow>, sale: SaleRow, d: Dict)
    requires d.keys == Seqs.FirstSeen(Ids(read))
    requires forall k :: k in d.entries <==> k in d.keys
    ensures AddSale(d, sale).keys == Seqs.FirstSeen(Ids(read + [sale]))
    ensures forall k :: k in AddSale(d, sale).entries <==> k in AddSale(d, sale).keys
  {
    IdsAppend(read, sale);
    Seqs.FirstSeenAppend(Ids(read), sale.ventaId);
    Seqs.FirstSeenMembers(Ids(read), sale.ventaId);
  }

  /** Every entry after one iteration is the group of its id among the rows read. */
  lemma GroupingStepEntries(read: seq<SaleRow>, sale: SaleRow, d: Dict)
    requires forall k :: k in d.entries ==> k in Ids(read) && d.entries[k] == GroupOf(read, k)
    requires forall k :: k in Ids(read) ==> k in d.entries
    ensures forall k :: k in AddSale(d, sale).entries ==>
      k in Ids(read + [sale]) && AddSale(d, sale).entries[k] == GroupOf(read + [sale], k)
  {
    var next := read + [sale];
    var after := AddSale(d, sale).entries;
    IdsAppend(read, sale);
    forall k | k in after ensures k in Ids(next) && after[k] == GroupOf(next, k) {
      assert k in Ids(next);
      GroupOfAppend(read, sale, k);
      if k != sale.ventaId {
        assert GroupOf(read, k).items + [] == GroupOf(read, k).items;
      }
    }
  }

  /** The dictionary after the `forEach` has visited every row of `sales`. */
  function GroupingDict(sales: seq<SaleRow>): Dict {
    if sales == [] then Dict([], map[])
    else AddSale(GroupingDict(sales[..|sales| - 1]), sales[|sales| - 1])
  }

  /** The dictionary built from any prefix of the rows satisfies the loop invariant. */
  lemma {:induction false} GroupingDictState(sales: seq<SaleRow>)
    ensures GroupingState(sales, GroupingDict(sales))
  {
    if sales == [] {
      assert Ids(sales) == [];
    } else {
      var init, last := sales[..|sales| - 1], sales[|sales| - 1];
      assert init + [last] == sales;
      GroupingDictState(init);
      GroupingStep(init, last, GroupingDict(init));
    }
  }

  /** `groupSalesByID`: a loop that fills an insertion-ordered dictionary of groups and then
      returns its values. */
  method GroupSalesById(sales: seq<SaleRow>) returns (groups: seq<SaleGroup>)
    ensures groups == Grouped(sales)
  {
    var order: seq<string> := [];
    var grouped: map<string, SaleGroup> := map[];
    for i := 0 to |sales|
      invariant Dict(order, grouped) == GroupingDict(sales[..i])
    {
      var sale := sales[i];
      if sale.ventaId !in grouped {
        grouped := grouped[sale.ventaId := SaleGroup(sale.ventaId, sale.fecha, sale.hora, sale.totalVenta, sale.vendedor, [])];
        order := order + [sale.ventaId];
      }
      var g := grouped[sale.ventaId];
      grouped := grouped[sale.ventaId := g.(items := g.items + [ItemOf(sale)])];
      assert sales[..i + 1][..i] == sales[..i];
    }
    assert sales[..|sales|] == sales;
    GroupingDictState(sales);
    groups := Values(order, grouped);
    ValuesAreGroups(sales, order, grouped, groups);
  }

  /** `Object.values`: the values of an insertion-ordered dictionary, in key order. */
  method Values(order: seq<string>, grouped: map<string, SaleGroup>) returns (values: seq<SaleGroup>)
    requires forall k :: k in order ==> k in grouped
    ensures |values| == |order| && forall j :: 0 <= j < |order| ==> values[j] == grouped[order[j]]
  {
    values := [];
    for j := 0 to |order|
      invariant |values| == j && forall i :: 0 <= i < j ==> values[i] == grouped[order[i]]
    {
      values := values + [grouped[order[j]]];
    }
  }

  /** Once every row is read, the dictionary's values in key order are the groups. */
  lemma ValuesAreGroups(sales: seq<SaleRow>, order: seq<string>, grouped: map<string, SaleGroup>, values: seq<SaleGroup>)
    requires GroupingState(sales, Dict(order, grouped))
    requires |values| == |order| && forall j :: 0 <= j < |order| ==> values[j] == grouped[order[j]]
    ensures values == Grouped(sales)
  {
  }

  /** The ids of the groups are the distinct VentaIDs of the rows, each once. */
  lemma GroupedIds(sales: seq<SaleRow>)
    ensures var g := Grouped(sales);
      && |g| == |set id | id in Ids(sales)|
      && (forall i :: 0 <= i < |g| ==> g[i].id in Ids(sales))
      && (forall r :: 0 <= r < |sales| ==> exists i :: 0 <= i < |g| && g[i].id == sales[r].ventaId)
      && (forall i, j :: 0 <= i < j < |g| ==> g[i].id != g[j].id)
  {
    var keys := Seqs.FirstSeen(Ids(sales));
    Seqs.FirstSeenCardinality(Ids(sales));
    forall r | 0 <= r < |sales| ensures exists i :: 0 <= i < |keys| && Grouped(sales)[i].id == sales[r].ventaId {
      assert Ids(sales)[r] in keys;
      var i :| 0 <= i < |keys| && keys[i] == Ids(sales)[r];
      assert Grouped(sales)[i].id == sales[r].ventaId;
    }
  }

  /** The groups come in the order in which their ids first occur among the rows. */
  lemma GroupedOrder(sales: seq<SaleRow>, i: nat, j: nat)
    requires i < j < |Grouped(sales)|
    ensures Seqs.FirstIndexOf(Ids(sales), Grouped(sales)[i].id).value
          < Seqs.FirstIndexOf(Ids(sales), Grouped(sales)[j].id).value
  {
    Seqs.FirstSeenOrder(Ids(sales), i, j);
  }

  /** A group's header is that of the first row with its id; on a sheet whose rows of one sale
      share their header, it is the header of any of its rows. */
  lemma GroupHeader(sales: seq<SaleRow>, i: nat)
    requires i < |Grouped(sales)|
    ensures var g := Grouped(sales)[i];
      exists f :: 0 <= f < |sales| && sales[f].ventaId == g.id && g.id !in Ids(sales[..f]) &&
        SaleHeader(g.fecha, g.hora, g.total, g.vendedor) == HeaderOf(sales[f])
    ensures var g := Grouped(sales)[i];
      HeadersConsistent(sales) ==>
        forall r :: 0 <= r < |sales| && sales[r].ventaId == g.id ==>
          SaleHeader(g.fecha, g.hora, g.total, g.vendedor) == HeaderOf(sales[r])
  {
    var g := Grouped(sales)[i];
    var f := Seqs.FirstIndexOf(Ids(sales), g.id).value;
    IdsPrefix(sales, f);
    assert sales[f].ventaId == g.id;
  }

  /** An id has one item per row that carries it. */
  lemma {:induction false} ItemsWithIdCount(sales: seq<SaleRow>, id: string)
    ensures |ItemsWithId(sales, id)| == Seqs.Occurrences(Ids(sales), id)
  {
    if sales != [] {
      var init, last := sales[..|sales| - 1], sales[|sales| - 1];
      assert sales == init + [last];
      IdsAppend(init, last);
      Seqs.OccurrencesAppend(Ids(init), last.ventaId, id);
      ItemsWithIdCount(init, id);
    }
  }

  /** Every row that carries an id contributes its item to that id's items (`ItemSource` gives the
      converse). */
  lemma {:induction false} ItemsWithIdMembers(sales: seq<SaleRow>, id: string)
    ensures forall r :: 0 <= r < |sales| && sales[r].ventaId == id ==> ItemOf(sales[r]) in ItemsWithId(sales, id)
  {
    if sales != [] {
      var init, last := sales[..|sales| - 1], sales[|sales| - 1];
      ItemsWithIdMembers(init, id);
      var items := ItemsWithId(sales, id);
      var before := ItemsWithId(init, id);
      var extra := if last.ventaId == id then [ItemOf(last)] else [];
      assert items == before + extra;
      forall r | 0 <= r < |sales| && sales[r].ventaId == id ensures ItemOf(sales[r]) in items {
        if r < |init| {
          assert sales[r] == init[r];
          assert ItemOf(init[r]) in before;
        } else {
          assert sales[r] == last && items[|before|] == ItemOf(last);
        }
      }
    }
  }

  /** Each item of an id comes from a row that carries it. */
  lemma {:induction false} ItemSource(sales: seq<SaleRow>, id: string, j: nat) returns (r: nat)
    requires j < |ItemsWithId(sales, id)|
    ensures r < |sales| && sales[r].ventaId == id && ItemsWithId(sales, id)[j] == ItemOf(sales[r])
  {
    assert sales != [];
    var init := sales[..|sales| - 1];
    if j < |ItemsWithId(init, id)| {
      r := ItemSource(init, id, j);
      assert sales[r] == init[r];
    } else {
      r := |sales| - 1;
    }
  }

  /** The number of items over a list of groups. */
  function ItemTotal(groups: seq<SaleGroup>): nat {
    if groups == [] then 0 else ItemTotal(groups[..|groups| - 1]) + |groups[|groups| - 1].items|
  }

  /** Groups holding as many items as their ids occur among the row ids hold as many items in all
      as those occurrences add up to. */
  lemma {:induction false} ItemTotalCounts(groups: seq<SaleGroup>, ids: seq<string>, keys: seq<string>)
    requires |groups| == |keys|
    requires forall i :: 0 <= i < |groups| ==> |groups[i].items| == Seqs.Occurrences(ids, keys[i])
    ensures ItemTotal(groups) == Seqs.SumOccurrences(ids, keys)
  {
    if groups != [] {
      var n := |groups| - 1;
      ItemTotalCounts(groups[..n], ids, keys[..n]);
    }
  }

  /** Grouping neither drops nor duplicates a row: the groups hold one item per row. */
  lemma ItemTotalGrouped(sales: seq<SaleRow>)
    ensures ItemTotal(Grouped(sales)) == |sales|
  {
    var keys := Seqs.FirstSeen(Ids(sales));
    var groups := Grouped(sales);
    forall i | 0 <= i < |groups| ensures |groups[i].items| == Seqs.Occurrences(Ids(sales), keys[i]) {
      ItemsWithIdCount(sales, keys[i]);
    }
    ItemTotalCounts(groups, Ids(sales), keys);
    Seqs.SumOccurrencesCover(Ids(sales), keys);
  }
}
