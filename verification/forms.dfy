/**
 * Grouped choice fields and the trip-request form's status default
 * (transportation/forms.py). The grouped iterator is itertools.groupby over
 * the queryset: it cuts the rows into maximal runs of equal key, in order,
 * without sorting, so one key can head several groups.
 */
module Forms {
  import opened Wrappers
  import opened TripRequests

  /** One entry the grouped iterator yields: the empty choice, or a key with its rendered choices. */
  datatype Entry<K, C> = EmptyChoice(text: string) | Group(key: K, choices: seq<C>)

  /**
   * The runs groupby makes of `items`: each a key and the consecutive rows
   * having it. Defined from the last row back, as the rows arrive one by one.
   */
  function Runs<T, K(==)>(items: seq<T>, key: T -> K): seq<(K, seq<T>)>
    decreases |items|
  {
    if |items| == 0 then []
    else
      var prefix := Runs(items[..|items| - 1], key);
      var x := items[|items| - 1];
      if |prefix| > 0 && prefix[|prefix| - 1].0 == key(x) then
        prefix[..|prefix| - 1] + [(key(x), prefix[|prefix| - 1].1 + [x])]
      else
        prefix + [(key(x), [x])]
  }

  /** No run is empty, there are runs exactly when there are rows, and the last run has the last row's key. */
  lemma {:induction false} RunsShape<T, K>(items: seq<T>, key: T -> K)
    ensures |Runs(items, key)| <= |items|
    ensures |items| > 0 <==> |Runs(items, key)| > 0
    ensures forall j :: 0 <= j < |Runs(items, key)| ==> |Runs(items, key)[j].1| > 0
    ensures |items| > 0 ==> Runs(items, key)[|Runs(items, key)| - 1].0 == key(items[|items| - 1])
    decreases |items|
  {
    if |items| > 0 {
      var init := items[..|items| - 1];
      var x := items[|items| - 1];
      var prefix := Runs(init, key);
      RunsShape(init, key);
      if |prefix| > 0 && prefix[|prefix| - 1].0 == key(x) {
        var runs := prefix[..|prefix| - 1] + [(key(x), prefix[|prefix| - 1].1 + [x])];
        assert runs == Runs(items, key);
        assert forall j :: 0 <= j < |prefix| - 1 ==> runs[j] == prefix[j];
      } else {
        var runs := prefix + [(key(x), [x])];
        assert runs == Runs(items, key);
        assert forall j :: 0 <= j < |prefix| ==> runs[j] == prefix[j];
      }
    }
  }

  /** Every row of a run has the run's key. */
  lemma {:induction false} RunsKeyed<T, K>(items: seq<T>, key: T -> K)
    ensures forall j, m :: 0 <= j < |Runs(items, key)| && 0 <= m < |Runs(items, key)[j].1| ==>
      key(Runs(items, key)[j].1[m]) == Runs(items, key)[j].0
    decreases |items|
  {
    if |items| > 0 {
      var init := items[..|items| - 1];
      var x := items[|items| - 1];
      var prefix := Runs(init, key);
      RunsKeyed(init, key);
      var runs := Runs(items, key);
      if |prefix| > 0 && prefix[|prefix| - 1].0 == key(x) {
        var n := |prefix|;
        assert runs == prefix[..n - 1] + [(key(x), prefix[n - 1].1 + [x])];
        forall j, m | 0 <= j < |runs| && 0 <= m < |runs[j].1|
          ensures key(runs[j].1[m]) == runs[j].0
        {
          if j < n - 1 {
            assert runs[j] == prefix[j];
          } else if m < |prefix[n - 1].1| {
            assert runs[j].1[m] == prefix[n - 1].1[m];
          }
        }
      } else {
        assert runs == prefix + [(key(x), [x])];
        forall j, m | 0 <= j < |runs| && 0 <= m < |runs[j].1|
          ensures key(runs[j].1[m]) == runs[j].0
        {
          if j < |prefix| {
            assert runs[j] == prefix[j];
          }
        }
      }
    }
  }

  /** Neighbouring runs have different keys, so each run is as long as it can be. */
  lemma {:induction false} RunsMaximal<T, K>(items: seq<T>, key: T -> K)
    ensures forall j :: 0 < j < |Runs(items, key)| ==> Runs(items, key)[j - 1].0 != Runs(items, key)[j].0
    decreases |items|
  {
    if |items| > 0 {
      var init := items[..|items| - 1];
      var x := items[|items| - 1];
      var prefix := Runs(init, key);
      RunsMaximal(init, key);
      var runs := Runs(items, key);
      if |prefix| > 0 && prefix[|prefix| - 1].0 == key(x) {
        var n := |prefix|;
        assert runs == prefix[..n - 1] + [(key(x), prefix[n - 1].1 + [x])];
        forall j | 0 < j < |runs|
          ensures runs[j - 1].0 != runs[j].0
        {
          assert runs[j - 1] == prefix[j - 1];
          assert runs[j].0 == prefix[j].0;
        }
      } else {
        assert runs == prefix + [(key(x), [x])];
        forall j | 0 < j < |runs|
          ensures runs[j - 1].0 != runs[j].0
        {
          assert runs[j - 1] == prefix[j - 1];
          if j < |prefix| {
            assert runs[j] == prefix[j];
          }
        }
      }
    }
  }

  /** The rows of the runs, run after run. */
  function RunRows<T, K>(runs: seq<(K, seq<T>)>): seq<T>
  {
    if |runs| == 0 then [] else RunRows(runs[..|runs| - 1]) + runs[|runs| - 1].1
  }

  /** Flattening the groups gives back the queryset rows in their original order. */
  lemma {:induction false} RunsFlatten<T, K>(items: seq<T>, key: T -> K)
    ensures RunRows(Runs(items, key)) == items
    decreases |items|
  {
    if |items| > 0 {
      var init := items[..|items| - 1];
      var x := items[|items| - 1];
      var prefix := Runs(init, key);
      RunsFlatten(init, key);
      if |prefix| > 0 && prefix[|prefix| - 1].0 == key(x) {
        var n := |prefix|;
        var runs := prefix[..n - 1] + [(key(x), prefix[n - 1].1 + [x])];
        assert runs[..|runs| - 1] == prefix[..n - 1];
        assert RunRows(prefix) == RunRows(prefix[..n - 1]) + prefix[n - 1].1;
        assert RunRows(runs) == RunRows(prefix[..n - 1]) + (prefix[n - 1].1 + [x]);
      } else {
        var runs := prefix + [(key(x), [x])];
        assert runs[..|runs| - 1] == prefix;
      }
      assert init + [x] == items;
    }
  }

  /** Rows with one key throughout form a single group, and rows A, B, A form three: the grouping is by run. */
  lemma GroupingIsByRun<T>(a: T, b: T, key: T -> int)
    requires key(a) == 0 && key(b) == 1
    ensures Runs([a, a], key) == [(0, [a, a])]
    ensures |Runs([a, b, a], key)| == 3
  {
    assert [a, a][..1] == [a];
    assert [a][..0] == [];
    assert Runs([a], key) == [(0, [a])];
    assert [a] + [a] == [a, a];
    assert [a, b, a][..2] == [a, b];
    assert [a, b][..1] == [a];
  }

  /** `self.choice(obj)` applied to every row of a group. */
  function MapRows<T, C>(rows: seq<T>, choice: T -> C): seq<C>
  {
    seq(|rows|, m requires 0 <= m < |rows| => choice(rows[m]))
  }

  /** The ("", empty_label) entry, present when the field has an empty label. */
  function Header<K, C>(emptyLabel: Option<string>): seq<Entry<K, C>>
  {
    if emptyLabel.Some? then [EmptyChoice(emptyLabel.value)] else []
  }

  /** itertools.groupby over the queryset: the rows are taken one by one, joining the last run or opening a new one. */
  method GroupRuns<T, K(==)>(items: seq<T>, key: T -> K) returns (runs: seq<(K, seq<T>)>)
    ensures runs == Runs(items, key)
  {
    runs := [];
    var i := 0;
    while i < |items|
      invariant 0 <= i <= |items|
      invariant runs == Runs(items[..i], key)
    {
      var x := items[i];
      ghost var next := items[..i + 1];
      assert next[..|next| - 1] == items[..i] && next[|next| - 1] == x;
      if |runs| > 0 && runs[|runs| - 1].0 == key(x) {
        runs := runs[..|runs| - 1] + [(key(x), runs[|runs| - 1].1 + [x])];
      } else {
        runs := runs + [(key(x), [x])];
      }
      assert runs == Runs(next, key);
      i := i + 1;
    }
    assert items[..i] == items;
  }

  /**
   * GroupedModelChoiceIterator.__iter__: the empty choice first when there is
   * an empty label, then one group per run of equal key, each with its rows'
   * choices in order.
   */
  method GroupedChoices<T, K(==), C>(emptyLabel: Option<string>, items: seq<T>, key: T -> K, choice: T -> C)
    returns (out: seq<Entry<K, C>>)
    ensures |out| > 0 && out[0].EmptyChoice? <==> emptyLabel.Some?
    ensures emptyLabel.Some? ==> out[0] == EmptyChoice(emptyLabel.value)
    ensures |out| == |Header<K, C>(emptyLabel)| + |Runs(items, key)|
    ensures forall j :: 0 <= j < |Runs(items, key)| ==>
      out[|Header<K, C>(emptyLabel)| + j] == Group(Runs(items, key)[j].0, MapRows(Runs(items, key)[j].1, choice))
  {
    var runs := GroupRuns(items, key);
    var groups := seq(|runs|, j requires 0 <= j < |runs| => Group(runs[j].0, MapRows(runs[j].1, choice)));
    out := Header(emptyLabel) + groups;
  }

  /** How a grouped field is told to group: an attribute name, a callable, or anything else. */
  datatype GroupBy<!T, K> = ByAttribute(name: string) | ByCallable(f: T -> K) | Unusable

  /** Which of the two grouped fields is being built; both share the dispatch. */
  datatype FieldKind = SingleChoice | MultipleChoice

  /** A constructed grouped field: its kind and the key function its iterator groups by. */
  datatype GroupedField<!T, K> = GroupedField(kind: FieldKind, key: T -> K)

  /**
   * GroupedModelChoiceField.__init__ and GroupedModelMultipleChoiceField.__init__:
   * a string becomes attrgetter(name), here `getattr(obj, name)`; a callable is
   * kept; anything else raises TypeError.
   */
  function InitGroupedField<T(!new), K>(kind: FieldKind, groupBy: GroupBy<T, K>, getattr: (T, string) -> K)
    : (r: Result<GroupedField<T, K>>)
    ensures r.Err? <==> groupBy.Unusable?
    ensures r.Err? ==> r.error == TypeError
    ensures r.Ok? ==> r.value.kind == kind
    ensures groupBy.ByAttribute? ==> forall obj :: r.value.key(obj) == getattr(obj, groupBy.name)
    ensures groupBy.ByCallable? ==> forall obj :: r.value.key(obj) == groupBy.f(obj)
  {
    match groupBy
    case ByAttribute(name) => Ok(GroupedField(kind, (obj: T) => getattr(obj, name)))
    case ByCallable(f) => Ok(GroupedField(kind, f))
    case Unusable => Err(TypeError)
  }

  /** Both grouped fields accept and refuse the same arguments and group by the same key. */
  lemma GroupedFieldsAgree<T(!new), K>(groupBy: GroupBy<T, K>, getattr: (T, string) -> K, obj: T)
    ensures InitGroupedField(SingleChoice, groupBy, getattr).Ok?
      == InitGroupedField(MultipleChoice, groupBy, getattr).Ok?
    ensures InitGroupedField(SingleChoice, groupBy, getattr).Ok? ==>
      InitGroupedField(SingleChoice, groupBy, getattr).value.key(obj)
        == InitGroupedField(MultipleChoice, groupBy, getattr).value.key(obj)
  {
  }

  /** TripRequestForm.status: its initial value. */
  const FORM_INITIAL_STATUS: Status := Pending

  /**
   * The form's default is the one status a new request may be saved with,
   * and it is offered among the field's choices.
   */
  lemma FormInitialStatusSavable()
    ensures SaveAllowed(false, FORM_INITIAL_STATUS)
    ensures forall s: Status :: SaveAllowed(false, s) ==> s == FORM_INITIAL_STATUS
    ensures STATUS_CHOICES[FORM_INITIAL_STATUS.Code()] == (1, "Pending")
  {
  }
}
