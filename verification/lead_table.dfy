/**
 * The lead table's sorting: the sort state toggled by the column headers, the
 * comparator handed to `Array.prototype.sort`, and the sorted copy of the rows.
 */
module LeadTable {
  import opened Text
  import opened Sorting
  import opened LeadCard

  datatype SortField = NameField | EmailField | StatusField
  datatype SortOrder = Asc | Desc
  datatype SortState = SortState(field: SortField, order: SortOrder)

  /** The table starts sorted by name, ascending. */
  const InitialSort := SortState(NameField, Asc)

  /** A click on a column header: the current column flips its order, another
      column becomes current in ascending order. */
  function NextSort(st: SortState, field: SortField): (r: SortState)
    ensures r.field == field
    ensures st.field == field ==> r.order != st.order
    ensures st.field != field ==> r.order == Asc
  {
    if st.field == field then SortState(field, if st.order == Asc then Desc else Asc)
    else SortState(field, Asc)
  }

  /** Clicking the same header twice restores the previous state. */
  lemma NextSortTwice(st: SortState)
    ensures NextSort(NextSort(st, st.field), st.field) == st
  {
  }

  /** The table's sort state (`sortField`, `sortOrder`). */
  class Table {
    var sortField: SortField
    var sortOrder: SortOrder

    function State(): SortState
      reads this
    {
      SortState(sortField, sortOrder)
    }

    constructor ()
      ensures State() == InitialSort
    {
      sortField, sortOrder := NameField, Asc;
    }

    /** `handleSort`: the two setters of one header click. */
    method HandleSort(field: SortField)
      modifies this
      ensures State() == NextSort(old(State()), field)
    {
      if sortField == field {
        sortOrder := if sortOrder == Asc then Desc else Asc;
      } else {
        sortField := field;
        sortOrder := Asc;
      }
    }
  }

  /** The value compared for a column (`a[sortField]`; statuses by their string). */
  function Key(l: Lead, field: SortField): string {
    match field
    case NameField => l.name
    case EmailField => l.email
    case StatusField => l.status.Name()
  }

  /** `aValue > bValue ? modifier : -modifier`, with modifier 1 for ascending and
      -1 for descending. */
  function Compare(a: Lead, b: Lead, st: SortState): (r: int)
    ensures r == 1 || r == -1
    ensures r < 0 ==> MayPrecede(st)(a, b)
    ensures r > 0 ==> MayPrecede(st)(b, a)
  {
    var modifier := if st.order == Asc then 1 else -1;
    var r := if StrLess(Key(b, st.field), Key(a, st.field)) then modifier else -modifier;
    StrLessAsymmetricOrEqual(Key(a, st.field), Key(b, st.field));
    r
  }

  /** Two keys are ordered at most one way round. */
  lemma StrLessAsymmetricOrEqual(x: string, y: string)
    ensures !StrLess(x, y) || !StrLess(y, x)
  {
    if StrLess(x, y) {
      StrLessAsymmetric(x, y);
    }
  }

  /** Row `a` may be placed before row `b`: its key is not greater (ascending) or
      not smaller (descending). Equal keys may go either way. */
  function MayPrecede(st: SortState): (Lead, Lead) -> bool {
    (a: Lead, b: Lead) =>
      if st.order == Asc then !StrLess(Key(b, st.field), Key(a, st.field))
      else !StrLess(Key(a, st.field), Key(b, st.field))
  }

  lemma MayPrecedeTotalPreorder(st: SortState)
    ensures TotalPreorder(MayPrecede(st))
  {
    var le := MayPrecede(st);
    forall a, b ensures le(a, b) || le(b, a) {
      StrLessAsymmetricOrEqual(Key(a, st.field), Key(b, st.field));
    }
    forall a, b, c | le(a, b) && le(b, c) ensures le(a, c) {
      var ka, kb, kc := Key(a, st.field), Key(b, st.field), Key(c, st.field);
      if ka != kb && kb != kc {
        StrLessTotal(ka, kb);
        StrLessTotal(kb, kc);
        if st.order == Asc {
          StrLessTransitive(ka, kb, kc);
          StrLessAsymmetric(ka, kc);
        } else {
          StrLessTransitive(kc, kb, ka);
          StrLessAsymmetric(kc, ka);
        }
      }
    }
  }

  /** `[...leads].sort(cmp)`: a sorted copy; the leads themselves are a value and
      stay as they were. */
  function SortedLeads(leads: seq<Lead>, st: SortState): (rows: seq<Lead>)
    ensures multiset(rows) == multiset(leads)
    ensures SortedBy(rows, MayPrecede(st))
  {
    MayPrecedeTotalPreorder(st);
    SortBySorted(leads, MayPrecede(st));
    SortBy(leads, MayPrecede(st))
  }

  /** With pairwise different keys the rows come out strictly increasing
      (ascending) or strictly decreasing (descending) in the chosen column. */
  lemma SortedStrictly(leads: seq<Lead>, st: SortState, i: int, j: int)
    requires forall p, q :: 0 <= p < q < |leads| ==> Key(leads[p], st.field) != Key(leads[q], st.field)
    requires 0 <= i < j < |leads|
    ensures var rows := SortedLeads(leads, st);
      st.order == Asc ==> StrLess(Key(rows[i], st.field), Key(rows[j], st.field))
    ensures var rows := SortedLeads(leads, st);
      st.order == Desc ==> StrLess(Key(rows[j], st.field), Key(rows[i], st.field))
  {
    var rows := SortedLeads(leads, st);
    var ki, kj := Key(rows[i], st.field), Key(rows[j], st.field);
    assert MayPrecede(st)(rows[i], rows[j]);
    DistinctKeysSurvive(leads, rows, st.field, i, j);
    StrLessTotal(ki, kj);
  }

  /** Rows at two different positions of a permutation of `leads` are two
      different leads of it, so their keys differ when the leads' keys do. */
  lemma DistinctKeysSurvive(leads: seq<Lead>, rows: seq<Lead>, field: SortField, i: int, j: int)
    requires multiset(rows) == multiset(leads)
    requires forall p, q :: 0 <= p < q < |leads| ==> Key(leads[p], field) != Key(leads[q], field)
    requires 0 <= i < j < |rows|
    ensures Key(rows[i], field) != Key(rows[j], field)
  {
    assert rows[i] in multiset(leads);
    assert rows[j] in multiset(leads);
    var p :| 0 <= p < |leads| && leads[p] == rows[i];
    var q :| 0 <= q < |leads| && leads[q] == rows[j];
    AtMostOnce(leads, rows[i]);
    RepeatCountsTwice(rows, i, j);
    assert rows[i] != rows[j];
    assert p != q;
  }

  /** An element that occurs at two positions occurs at least twice. */
  lemma RepeatCountsTwice<T>(s: seq<T>, i: int, j: int)
    requires 0 <= i < j < |s|
    ensures s[i] == s[j] ==> multiset(s)[s[i]] >= 2
  {
    assert s == s[..j] + [s[j]] + s[j + 1..];
    assert s[i] == s[..j][i];
    assert multiset(s) == multiset(s[..j]) + multiset{s[j]} + multiset(s[j + 1..]);
  }

  /** In a sequence of pairwise different elements each element occurs at most once. */
  lemma {:induction false} AtMostOnce<T>(s: seq<T>, x: T)
    requires forall p, q :: 0 <= p < q < |s| ==> s[p] != s[q]
    ensures multiset(s)[x] <= 1
  {
    if s != [] {
      assert s == [s[0]] + s[1..];
      AtMostOnce(s[1..], x);
      assert s[0] !in s[1..] by {
        forall k | 0 <= k < |s[1..]| ensures s[1..][k] != s[0] {
          assert s[1..][k] == s[k + 1];
        }
      }
    }
  }
}
