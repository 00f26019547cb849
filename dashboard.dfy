/**
 * The dashboard's mutable state: the two chart slots that hold the live
 * Chart.js instances (`volumeChart`, `typeChart`), the transaction table body
 * rebuilt by `renderTransactions`, and the type drop-down filled by
 * `initTypeFilter`. The DOM is modelled by its content only.
 */
module Dashboard {
  import opened Wrappers
  import TypeCatalog
  import TransactionFilter

  /** What a chart instance was created with: labels and its one dataset. */
  datatype ChartConfig =
    | LineChart(labels: seq<string>, values: seq<int>)
    | DoughnutChart(labels: seq<string>, counts: seq<Option<nat>>)

  /** A chart instance (`new Chart(ctx, config)`); every construction is a new object. */
  class Chart {
    const config: ChartConfig

    constructor (config: ChartConfig)
      ensures this.config == config
    {
      this.config := config;
    }
  }

  /** The instance in a slot, as a set of zero or one charts. */
  function InSlot(slot: Option<Chart>): (s: set<Chart>)
    ensures slot.None? ==> s == {}
    ensures slot.Some? ==> s == {slot.value}
  {
    if slot.Some? then {slot.value} else {}
  }

  /**
   * The two module-level chart variables. `created` and `destroyed` record
   * every instance ever built and every instance released with `destroy()`.
   */
  class ChartSlots {
    var volumeChart: Option<Chart>
    var typeChart: Option<Chart>
    ghost var created: set<Chart>
    ghost var destroyed: set<Chart>

    /** The instances not yet destroyed. */
    ghost function Live(): set<Chart>
      reads this
    {
      InSlot(volumeChart) + InSlot(typeChart)
    }

    /**
     * No leak: every instance ever created is either destroyed or held by a
     * slot, never both, and the two slots never share an instance.
     */
    ghost predicate Valid()
      reads this
    {
      && created == destroyed + Live()
      && destroyed !! Live()
      && (volumeChart.Some? && typeChart.Some? ==> volumeChart.value != typeChart.value)
    }

    /** `let volumeChart = null; let typeChart = null;` */
    constructor ()
      ensures Valid()
      ensures volumeChart.None? && typeChart.None?
      ensures created == {} && destroyed == {}
    {
      volumeChart, typeChart := None, None;
      created, destroyed := {}, {};
    }

    /**
     * `renderVolumeChart(labels, data)`: destroy the instance in the volume
     * slot if there is one, then store a new line chart there. The type slot
     * is untouched.
     */
    method RenderVolumeChart(labels: seq<string>, values: seq<int>)
      requires Valid()
      modifies this
      ensures Valid()
      ensures volumeChart.Some? && fresh(volumeChart.value)
      ensures volumeChart.value.config == LineChart(labels, values)
      ensures typeChart == old(typeChart)
      ensures destroyed == old(destroyed) + InSlot(old(volumeChart))
      ensures created == old(created) + {volumeChart.value}
    {
      if volumeChart.Some? {
        destroyed := destroyed + {volumeChart.value};
      }
      var chart := new Chart(LineChart(labels, values));
      volumeChart := Some(chart);
      created := created + {chart};
    }

    /**
     * `renderTypeChart(labels, counts)`: destroy the instance in the type slot
     * if there is one, then store a new doughnut whose labels are the friendly
     * names of the type codes. The volume slot is untouched.
     */
    method RenderTypeChart(labels: seq<string>, counts: seq<Option<nat>>)
      requires Valid()
      modifies this
      ensures Valid()
      ensures typeChart.Some? && fresh(typeChart.value)
      ensures typeChart.value.config == DoughnutChart(TypeCatalog.ChartLabels(labels), counts)
      ensures volumeChart == old(volumeChart)
      ensures destroyed == old(destroyed) + InSlot(old(typeChart))
      ensures created == old(created) + {typeChart.value}
    {
      if typeChart.Some? {
        destroyed := destroyed + {typeChart.value};
      }
      var chart := new Chart(DoughnutChart(TypeCatalog.ChartLabels(labels), counts));
      typeChart := Some(chart);
      created := created + {chart};
    }
  }

  /** Rendering the volume chart twice on a fresh page leaves only the second instance alive. */
  method RenderTwice(labels: seq<string>, values: seq<int>) returns (slots: ChartSlots, first: Chart, second: Chart)
    ensures slots.Valid()
    ensures first != second
    ensures slots.destroyed == {first}
    ensures slots.Live() == {second}
  {
    slots := new ChartSlots();
    slots.RenderVolumeChart(labels, values);
    first := slots.volumeChart.value;
    slots.RenderVolumeChart(labels, values);
    second := slots.volumeChart.value;
  }

  /** One table row: description, the type's name, icon and colour, the amount and the date. */
  datatype Row = Row(description: string, typeInfo: TypeCatalog.TypeInfo, amount: int, timestamp: string)

  /** The row `renderTransactions` builds for one record. */
  function RowOf(t: TransactionFilter.Transaction): Row {
    Row(t.description, TypeCatalog.GetTypeInfo(t.typeCode), t.amount, t.timestamp)
  }

  /** The table body. */
  class TransactionTable {
    var rows: seq<Row>

    constructor ()
      ensures rows == []
    {
      rows := [];
    }

    /** `renderTransactions`: empty the body, then append one row per record, in order. */
    method Render(transactions: seq<TransactionFilter.Transaction>)
      modifies this
      ensures |rows| == |transactions|
      ensures forall i :: 0 <= i < |transactions| ==> rows[i] == RowOf(transactions[i])
    {
      rows := [];
      var i := 0;
      while i < |transactions|
        invariant 0 <= i <= |transactions|
        invariant |rows| == i
        invariant forall k :: 0 <= k < i ==> rows[k] == RowOf(transactions[k])
      {
        var row := RowOf(transactions[i]);
        ghost var before := rows;
        rows := rows + [row];
        assert forall k :: 0 <= k < i ==> rows[k] == before[k];
        i := i + 1;
      }
    }

    /**
     * The `filterTransactions` callback once the batch has arrived: the table
     * shows at most ten rows, one for each record the filter keeps, in batch order.
     */
    method ShowFiltered(batch: seq<TransactionFilter.Transaction>, searchInput: string, typeValue: string)
      modifies this
      ensures var shown := TransactionFilter.FilterTransactions(batch, searchInput, typeValue);
        && |rows| == |shown| <= TransactionFilter.DisplayLimit
        && forall i :: 0 <= i < |shown| ==> rows[i] == RowOf(shown[i])
    {
      Render(TransactionFilter.FilterTransactions(batch, searchInput, typeValue));
    }
  }

  /** The type filter drop-down. */
  class TypeFilterSelect {
    var options: seq<(string, string)>

    constructor ()
      ensures options == []
    {
      options := [];
    }

    /** `initTypeFilter`: append one option per entry, "all" first, in table order. */
    method Init()
      modifies this
      ensures options == old(options) + TypeCatalog.FilterOptions
    {
      var entries := TypeCatalog.FilterOptions;
      for i := 0 to |entries|
        invariant options == old(options) + entries[..i]
      {
        options := options + [entries[i]];
      }
    }
  }
}
