/**
 * Table rendering rules (transportation/tables.py): the colour a trip
 * request's status is drawn in, and the footer that sums a column. Money
 * columns are integers of cents.
 */
module Tables {
  import opened TripRequests

  datatype Color = Black | Green | Red | Blue
  {
    function Name(): string
    {
      match this
      case Black => "black"
      case Green => "green"
      case Red => "red"
      case Blue => "blue"
    }
  }

  /** TripRequestTable.render_status's choice of colour: black unless one of the three branches applies. */
  function StatusColor(s: Status): (c: Color)
    ensures c == Green <==> s.Approved? || s.Completed?
    ensures c == Red <==> s.Denied? || s.Cancelled?
    ensures c == Blue <==> s.Pending?
    ensures c == Black <==> s.NoStatus? || s.OtherStatus? || s.Returned?
  {
    if s.Approved? || s.Completed? then Green
    else if s.Denied? || s.Cancelled? then Red
    else if s.Pending? then Blue
    else Black
  }

  const OPEN_STYLE: string := "<p style=\"color: "
  const CLOSE_STYLE: string := "; font-weight: bold\">"
  const CLOSE_P: string := "</p>"

  /** render_status: a paragraph in the status's colour holding the status's label. */
  function RenderStatus(s: Status): (html: string)
    ensures |html| == |OPEN_STYLE| + |StatusColor(s).Name()| + |CLOSE_STYLE| + |StatusLabel(s)| + |CLOSE_P|
    ensures html[..|OPEN_STYLE|] == OPEN_STYLE
    ensures html[|OPEN_STYLE|..|OPEN_STYLE| + |StatusColor(s).Name()|] == StatusColor(s).Name()
    ensures html[|html| - |CLOSE_P| - |StatusLabel(s)|..] == StatusLabel(s) + CLOSE_P
  {
    var head := OPEN_STYLE + StatusColor(s).Name() + CLOSE_STYLE;
    head + (StatusLabel(s) + CLOSE_P)
  }

  /** Distinct colours have distinct names, so the rendered paragraph tells the colours apart. */
  lemma ColorNamesDistinct(a: Color, b: Color)
    ensures a.Name() == b.Name() <==> a == b
  {
  }

  /** Statuses that share a colour still render differently, through their labels. */
  lemma RenderStatusInjective(s: Status, t: Status)
    ensures RenderStatus(s) == RenderStatus(t) <==> s == t
  {
    if RenderStatus(s) == RenderStatus(t) {
      var h := RenderStatus(s);
      assert h[|OPEN_STYLE|] == StatusColor(s).Name()[0];
      assert h[|OPEN_STYLE|] == StatusColor(t).Name()[0];
      assert StatusColor(s) == StatusColor(t);
      assert |StatusLabel(s)| == |StatusLabel(t)|;
      var tail := h[|h| - |CLOSE_P| - |StatusLabel(s)|..];
      assert tail == StatusLabel(s) + CLOSE_P && tail == StatusLabel(t) + CLOSE_P;
      assert StatusLabel(s) == tail[..|StatusLabel(s)|] == StatusLabel(t);
      StatusLabelsDistinct(s, t);
    }
  }

  /** Python's sum() of the column values: 0 to start, then each value in turn. */
  function FooterSum(values: seq<int>): int
  {
    if |values| == 0 then 0 else FooterSum(values[..|values| - 1]) + values[|values| - 1]
  }

  /** A sum defined from the front, to check FooterSum against. */
  function SumFromFront(values: seq<int>): int
  {
    if |values| == 0 then 0 else values[0] + SumFromFront(values[1..])
  }

  /** The footer of two row ranges is the sum of their footers. */
  lemma {:induction false} FooterSumAppend(a: seq<int>, b: seq<int>)
    ensures FooterSum(a + b) == FooterSum(a) + FooterSum(b)
    decreases |b|
  {
    if |b| > 0 {
      FooterSumAppend(a, b[..|b| - 1]);
      assert (a + b)[..|a + b| - 1] == a + b[..|b| - 1];
    } else {
      assert a + b == a;
    }
  }

  /** The footer is the plain sum of the column, whichever end it is added from. */
  lemma {:induction false} FooterSumIsSum(values: seq<int>)
    ensures FooterSum(values) == SumFromFront(values)
    decreases |values|
  {
    if |values| > 0 {
      FooterSumIsSum(values[1..]);
      FooterSumAppend([values[0]], values[1..]);
      assert [values[0]] + values[1..] == values;
      assert [values[0]][..0] == [];
    }
  }

  /** A column of non-negative amounts has a non-negative footer at least as large as any one amount. */
  lemma {:induction false} FooterSumBounds(values: seq<int>)
    requires forall i :: 0 <= i < |values| ==> values[i] >= 0
    ensures FooterSum(values) >= 0
    ensures forall i :: 0 <= i < |values| ==> FooterSum(values) >= values[i]
    decreases |values|
  {
    if |values| > 0 {
      FooterSumBounds(values[..|values| - 1]);
      forall i | 0 <= i < |values| - 1
        ensures FooterSum(values) >= values[i]
      {
        assert values[..|values| - 1][i] == values[i];
      }
    }
  }

  /** The column's value in each row, as its accessor resolves it. */
  function ColumnValues<R>(rows: seq<R>, accessor: R -> int): seq<int>
  {
    seq(|rows|, i requires 0 <= i < |rows| => accessor(rows[i]))
  }

  /** SummingColumn.render_footer: the sum of the column's values over the table's rows. */
  function ColumnFooter<R>(rows: seq<R>, accessor: R -> int): (total: int)
    ensures |rows| == 0 ==> total == 0
  {
    FooterSum(ColumnValues(rows, accessor))
  }

  /** The footer of a table split in two is the sum of the two footers. */
  lemma ColumnFooterAppend<R>(a: seq<R>, b: seq<R>, accessor: R -> int)
    ensures ColumnFooter(a + b, accessor) == ColumnFooter(a, accessor) + ColumnFooter(b, accessor)
  {
    assert ColumnValues(a + b, accessor) == ColumnValues(a, accessor) + ColumnValues(b, accessor);
    FooterSumAppend(ColumnValues(a, accessor), ColumnValues(b, accessor));
  }

  /** The footer of one row is that row's value. */
  lemma ColumnFooterSingle<R>(row: R, accessor: R -> int)
    ensures ColumnFooter([row], accessor) == accessor(row)
  {
    var values := ColumnValues([row], accessor);
    assert values == [accessor(row)];
    assert values[..0] == [];
    assert FooterSum(values) == FooterSum(values[..0]) + values[0];
    assert ColumnFooter([row], accessor) == FooterSum(values);
  }

  /** One VehicleMaintenance row as the table shows it; the cost is in cents. */
  datatype MaintenanceRow = MaintenanceRow(date: int, mileage: nat, category: nat, cost: int, notes: string)

  const TOTAL_LABEL: string := "Total:"

  /** VehicleMaintenanceTable's footers: "Total:" under the date, the cost column's sum under the cost. */
  function MaintenanceFooters(rows: seq<MaintenanceRow>): (footers: (string, int))
    ensures footers.0 == TOTAL_LABEL
    ensures |rows| == 0 ==> footers.1 == 0
  {
    (TOTAL_LABEL, ColumnFooter(rows, (r: MaintenanceRow) => r.cost))
  }

  /** The cost footer over a table split in two is the sum of the two footers. */
  lemma MaintenanceFootersAppend(a: seq<MaintenanceRow>, b: seq<MaintenanceRow>)
    ensures MaintenanceFooters(a + b).1 == MaintenanceFooters(a).1 + MaintenanceFooters(b).1
  {
    ColumnFooterAppend(a, b, (r: MaintenanceRow) => r.cost);
  }
}
