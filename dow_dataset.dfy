/** The sales hierarchy rollup: a table of leaf series keyed by hierarchy
    columns is aggregated level by level, finest first, into the stacked
    series of every level and the square 0/1 matrix that links each level to
    the level directly below it. */
module DowDataset {
  import opened LinAlg
  import opened Ordering

  datatype Option<T> = None | Some(value: T)

  /** One row of a frame: its hierarchy labels, one per key column, and its
      value at each time step. */
  datatype Row = Row(key: seq<string>, values: seq<real>)

  /** A frame's content: the hierarchy columns present (in frame order), the
      number of numeric time columns, and the rows. */
  datatype Table = Table(columns: seq<string>, steps: nat, rows: seq<Row>)

  predicate WellFormed(t: Table) {
    forall j :: 0 <= j < |t.rows| ==> |t.rows[j].key| == |t.columns| && |t.rows[j].values| == t.steps
  }

  /** No name occurs twice. */
  predicate Distinct(s: seq<string>) {
    forall i, j :: 0 <= i < j < |s| ==> s[i] != s[j]
  }

  /** The default 0-based row index of a frame with `n` rows. */
  function Positions(n: nat): (p: seq<int>)
    ensures |p| == n && forall j :: 0 <= j < n ==> p[j] == j
  {
    seq(n, j => j)
  }

  /** The grouping columns: the hierarchy columns, in hierarchy order, that
      are present in the frame and are not the one aggregated over. */
  function KeyColumns(h: seq<string>, cols: seq<string>, aggOver: string): (kc: seq<string>)
    ensures forall c :: c in kc <==> c in h && c in cols && c != aggOver
  {
    if |h| == 0 then []
    else
      assert h == [h[0]] + h[1..];
      (if h[0] in cols && h[0] != aggOver then [h[0]] else []) + KeyColumns(h[1..], cols, aggOver)
  }

  /** The first position of `x` in `s`. */
  function IndexOf(s: seq<string>, x: string): (i: nat)
    requires x in s
    ensures i < |s| && s[i] == x && x !in s[..i]
  {
    if s[0] == x then 0
    else
      assert s == [s[0]] + s[1..];
      1 + IndexOf(s[1..], x)
  }

  /** The names of `kc` occur in `h` in the same order. */
  predicate InHierarchyOrder(kc: seq<string>, h: seq<string>) {
    forall i, j :: 0 <= i < j < |kc| && kc[i] in h && kc[j] in h ==> IndexOf(h, kc[i]) < IndexOf(h, kc[j])
  }

  /** The grouping columns come in hierarchy order, which fixes the order in
      which the labels of a group key are compared. */
  lemma {:induction false} KeyColumnsInHierarchyOrder(h: seq<string>, cols: seq<string>, aggOver: string)
    requires Distinct(h)
    ensures InHierarchyOrder(KeyColumns(h, cols, aggOver), h)
  {
    if |h| > 0 {
      var rest := KeyColumns(h[1..], cols, aggOver);
      KeyColumnsInHierarchyOrder(h[1..], cols, aggOver);
      OrderInTail(h, rest);
      if h[0] in cols && h[0] != aggOver {
        assert KeyColumns(h, cols, aggOver) == [h[0]] + rest;
      } else {
        assert KeyColumns(h, cols, aggOver) == rest;
      }
    }
  }

  /** Names in hierarchy order after the root stay in order within the whole
      hierarchy, with or without the root in front. */
  lemma OrderInTail(h: seq<string>, rest: seq<string>)
    requires Distinct(h) && |h| > 0 && InHierarchyOrder(rest, h[1..])
    requires forall x :: x in rest ==> x in h[1..]
    ensures InHierarchyOrder(rest, h) && InHierarchyOrder([h[0]] + rest, h)
  {
    forall x | x in rest ensures x in h && x != h[0] && IndexOf(h, x) == 1 + IndexOf(h[1..], x) {
      IndexOfTail(h, x);
    }
    var kc := [h[0]] + rest;
    forall i, j | 0 <= i < j < |kc| && kc[i] in h && kc[j] in h ensures IndexOf(h, kc[i]) < IndexOf(h, kc[j]) {
      assert kc[j] == rest[j - 1] && rest[j - 1] in rest;
      if i > 0 {
        assert kc[i] == rest[i - 1] && rest[i - 1] in rest;
      }
    }
    forall i, j | 0 <= i < j < |rest| && rest[i] in h && rest[j] in h ensures IndexOf(h, rest[i]) < IndexOf(h, rest[j]) {
      assert rest[i] in rest && rest[j] in rest;
    }
  }

  /** A later name of a hierarchy without repeats sits one further along
      than in the hierarchy's tail. */
  lemma IndexOfTail(h: seq<string>, x: string)
    requires Distinct(h) && |h| > 0 && x in h[1..]
    ensures x in h && x != h[0] && IndexOf(h, x) == 1 + IndexOf(h[1..], x)
  {
    var q :| 0 <= q < |h[1..]| && h[1..][q] == x;
    assert h[q + 1] == x;
  }

  /** The frame can be grouped by `kc`: every grouping column is present. */
  predicate Groupable(t: Table, kc: seq<string>) {
    WellFormed(t) && forall c :: c in kc ==> c in t.columns
  }

  /** Row `j`'s labels in the grouping columns: its group key. */
  function KeyOf(t: Table, kc: seq<string>, j: nat): (k: seq<string>)
    requires Groupable(t, kc) && j < |t.rows|
    ensures |k| == |kc|
  {
    seq(|kc|, i requires 0 <= i < |kc| => t.rows[j].key[IndexOf(t.columns, kc[i])])
  }

  /** Every row's group key, in row order. */
  function RowKeys(t: Table, kc: seq<string>): (ks: seq<seq<string>>)
    requires Groupable(t, kc)
    ensures |ks| == |t.rows| && forall j :: 0 <= j < |t.rows| ==> ks[j] == KeyOf(t, kc, j)
  {
    seq(|t.rows|, j requires 0 <= j < |t.rows| => KeyOf(t, kc, j))
  }

  /** The groups of a sorting `groupby`: each distinct key once, in
      increasing order of Python's tuple comparison. */
  function Groups(t: Table, kc: seq<string>): (g: seq<seq<string>>)
    requires Groupable(t, kc)
    ensures StrictlySorted(g, KeyLess)
    ensures forall k :: k in g <==> exists j :: 0 <= j < |t.rows| && KeyOf(t, kc, j) == k
  {
    KeyLessIsStrictTotal();
    var ks := RowKeys(t, kc);
    assert forall k :: k in ks <==> exists j :: 0 <= j < |t.rows| && KeyOf(t, kc, j) == k;
    SortedDistinct(ks, KeyLess)
  }

  /** The sum, at time step `s`, of the values of the rows before `n` whose
      key is `g`. */
  function MaskedSum(t: Table, kc: seq<string>, g: seq<string>, s: nat, n: nat): real
    requires Groupable(t, kc) && n <= |t.rows| && s < t.steps
  {
    if n == 0 then 0.0
    else MaskedSum(t, kc, g, s, n - 1) + (if KeyOf(t, kc, n - 1) == g then t.rows[n - 1].values[s] else 0.0)
  }

  /** A group's per-step sums: one row of `groupby(...).sum()`. */
  function GroupValues(t: Table, kc: seq<string>, g: seq<string>): (v: seq<real>)
    requires Groupable(t, kc)
    ensures |v| == t.steps
  {
    seq(t.steps, s requires 0 <= s < t.steps => MaskedSum(t, kc, g, s, |t.rows|))
  }

  /** The `initialIndex` labels of the rows before `n` whose key is `g`, in
      row order: one entry of `groupby(...)["initialIndex"].apply(list)`. */
  function IndexList(t: Table, kc: seq<string>, g: seq<string>, idx: seq<int>, n: nat): (l: seq<int>)
    requires Groupable(t, kc) && n <= |t.rows| && |idx| == |t.rows|
    ensures forall v :: v in l <==> exists j :: 0 <= j < n && KeyOf(t, kc, j) == g && idx[j] == v
  {
    if n == 0 then []
    else IndexList(t, kc, g, idx, n - 1) + (if KeyOf(t, kc, n - 1) == g then [idx[n - 1]] else [])
  }

  /** The membership matrix: groups by rows, 1 where the row belongs to the
      group. */
  function Membership(t: Table, kc: seq<string>): (m: seq<seq<real>>)
    requires Groupable(t, kc)
    ensures IsMatrix(m, |Groups(t, kc)|, |t.rows|)
    ensures Binary(m)
  {
    var g := Groups(t, kc);
    seq(|g|, i requires 0 <= i < |g| =>
      seq(|t.rows|, j requires 0 <= j < |t.rows| => if KeyOf(t, kc, j) == g[i] then 1.0 else 0.0))
  }

  /** The frame `get_aggregate` returns: one row per group, keyed by the
      grouping columns, holding the group's sums. */
  function Aggregate(t: Table, h: seq<string>, aggOver: string): (a: Table)
    requires WellFormed(t) && aggOver in t.columns && |KeyColumns(h, t.columns, aggOver)| > 0
    ensures WellFormed(a) && a.steps == t.steps
    ensures a.columns == KeyColumns(h, t.columns, aggOver)
    ensures |a.rows| == |Groups(t, a.columns)|
    ensures forall i :: 0 <= i < |a.rows| ==> a.rows[i].key == Groups(t, a.columns)[i]
  {
    var kc := KeyColumns(h, t.columns, aggOver);
    var g := Groups(t, kc);
    assert forall i :: 0 <= i < |g| ==> |g[i]| == |kc| by {
      forall i | 0 <= i < |g| ensures |g[i]| == |kc| {
        assert g[i] in g;
      }
    }
    Table(kc, t.steps, seq(|g|, i requires 0 <= i < |g| => Row(g[i], GroupValues(t, kc, g[i]))))
  }

  /** `.values.T`: one sequence per time step, holding every row's value. */
  function SeriesOf(t: Table): (s: seq<seq<real>>)
    requires WellFormed(t)
    ensures IsMatrix(s, t.steps, |t.rows|)
  {
    seq(t.steps, s requires 0 <= s < t.steps =>
      seq(|t.rows|, r requires 0 <= r < |t.rows| => t.rows[r].values[s]))
  }

  /** Group keys are pairwise distinct. */
  lemma GroupsDistinct(t: Table, kc: seq<string>, i: nat, i': nat)
    requires Groupable(t, kc) && i < |Groups(t, kc)| && i' < |Groups(t, kc)|
    requires Groups(t, kc)[i] == Groups(t, kc)[i']
    ensures i == i'
  {
    KeyLessIsStrictTotal();
  }

  /** Any strictly sorted listing of the row keys that holds each of them is
      the group listing: two `groupby` calls on the same key list enumerate
      the same groups in the same order. */
  lemma GroupingDeterministic(t: Table, kc: seq<string>, other: seq<seq<string>>)
    requires Groupable(t, kc) && StrictlySorted(other, KeyLess)
    requires forall k :: k in other <==> exists j :: 0 <= j < |t.rows| && KeyOf(t, kc, j) == k
    ensures other == Groups(t, kc)
  {
    KeyLessIsStrictTotal();
    SortedListingUnique(other, Groups(t, kc), KeyLess);
  }

  /** Each row belongs to exactly one group: its column of the membership
      matrix holds a single 1. */
  lemma MembershipColumnHasOneOne(t: Table, kc: seq<string>, j: nat)
    requires Groupable(t, kc) && j < |t.rows|
    ensures exists i :: 0 <= i < |Groups(t, kc)| && Membership(t, kc)[i][j] == 1.0
    ensures forall i, i' ::
      (0 <= i < |Groups(t, kc)| && 0 <= i' < |Groups(t, kc)| &&
       Membership(t, kc)[i][j] == 1.0 && Membership(t, kc)[i'][j] == 1.0) ==> i == i'
  {
    var g := Groups(t, kc);
    var m := Membership(t, kc);
    assert KeyOf(t, kc, j) in g;
    var i :| 0 <= i < |g| && g[i] == KeyOf(t, kc, j);
    assert m[i][j] == 1.0;
    forall i1, i2 | 0 <= i1 < |g| && 0 <= i2 < |g| && m[i1][j] == 1.0 && m[i2][j] == 1.0
      ensures i1 == i2
    {
      GroupsDistinct(t, kc, i1, i2);
    }
  }

  /** Every group has at least one member. */
  lemma MembershipRowHasAOne(t: Table, kc: seq<string>, i: nat)
    requires Groupable(t, kc) && i < |Groups(t, kc)|
    ensures exists j :: 0 <= j < |t.rows| && Membership(t, kc)[i][j] == 1.0
  {
    var g := Groups(t, kc);
    assert g[i] in g;
    var j :| 0 <= j < |t.rows| && KeyOf(t, kc, j) == g[i];
    assert Membership(t, kc)[i][j] == 1.0;
  }

  /** Over the first `n` rows, the membership row of group `i` dotted with a
      time step's values is that group's masked sum. */
  lemma {:induction false} MembershipDotPrefix(t: Table, kc: seq<string>, i: nat, s: nat, n: nat)
    requires Groupable(t, kc) && i < |Groups(t, kc)| && s < t.steps && n <= |t.rows|
    ensures Dot(Membership(t, kc)[i][..n], SeriesOf(t)[s][..n]) == MaskedSum(t, kc, Groups(t, kc)[i], s, n)
  {
    if n > 0 {
      var u := Membership(t, kc)[i][..n];
      var v := SeriesOf(t)[s][..n];
      assert u[..n - 1] == Membership(t, kc)[i][..n - 1];
      assert v[..n - 1] == SeriesOf(t)[s][..n - 1];
      MembershipDotPrefix(t, kc, i, s, n - 1);
    }
  }

  /** A level's series is its membership matrix times the series of the
      level below: group `i`'s value at step `s` is the sum over its rows. */
  lemma LevelConsistent(t: Table, h: seq<string>, aggOver: string, i: nat, s: nat)
    requires WellFormed(t) && aggOver in t.columns && |KeyColumns(h, t.columns, aggOver)| > 0
    requires i < |Aggregate(t, h, aggOver).rows| && s < t.steps
    ensures Dot(Membership(t, KeyColumns(h, t.columns, aggOver))[i], SeriesOf(t)[s])
         == SeriesOf(Aggregate(t, h, aggOver))[s][i]
  {
    var kc := KeyColumns(h, t.columns, aggOver);
    MembershipDotPrefix(t, kc, i, s, |t.rows|);
    assert Membership(t, kc)[i][..|t.rows|] == Membership(t, kc)[i];
    assert SeriesOf(t)[s][..|t.rows|] == SeriesOf(t)[s];
  }

  /** An entry of the membership matrix. */
  lemma MembershipAt(t: Table, kc: seq<string>, i: nat, j: nat)
    requires Groupable(t, kc) && i < |Groups(t, kc)| && j < |t.rows|
    ensures Membership(t, kc)[i][j] == if KeyOf(t, kc, j) == Groups(t, kc)[i] then 1.0 else 0.0
  {
  }

  /** Over the default 0-based index, a group's index list holds exactly the
      positions of its rows. */
  lemma IndexListHoldsMembers(t: Table, kc: seq<string>, g: seq<string>)
    requires Groupable(t, kc)
    ensures forall v :: v in IndexList(t, kc, g, Positions(|t.rows|), |t.rows|) <==>
      0 <= v < |t.rows| && KeyOf(t, kc, v) == g
  {
    var idx := Positions(|t.rows|);
    forall v | v in IndexList(t, kc, g, idx, |t.rows|)
      ensures 0 <= v < |t.rows| && KeyOf(t, kc, v) == g
    {
      var j :| 0 <= j < |t.rows| && KeyOf(t, kc, j) == g && idx[j] == v;
    }
    forall v | 0 <= v < |t.rows| && KeyOf(t, kc, v) == g
      ensures v in IndexList(t, kc, g, idx, |t.rows|)
    {
      assert idx[v] == v;
    }
  }

  /** A pandas frame as `get_aggregate` sees it: its content, its row index
      and the temporary `initialIndex` column, which is the only thing the
      function changes on its argument. */
  class DataFrame {
    var columns: seq<string>
    var steps: nat
    var rows: seq<Row>
    var index: seq<int>
    var initialIndex: Option<seq<int>>

    ghost predicate Valid()
      reads this
    {
      && WellFormed(Value())
      && |index| == |rows|
      && (initialIndex.Some? ==> |initialIndex.value| == |rows|)
    }

    function Value(): Table
      reads this
    {
      Table(columns, steps, rows)
    }

    /** A frame over `t` with a fresh 0-based index, as `reset_index()`
        leaves it. */
    constructor (t: Table)
      requires WellFormed(t)
      ensures Valid() && Value() == t
      ensures index == Positions(|t.rows|) && initialIndex == None
    {
      columns := t.columns;
      steps := t.steps;
      rows := t.rows;
      index := Positions(|t.rows|);
      initialIndex := None;
    }

    /** `df["initialIndex"] = df.index`. */
    method AddInitialIndex()
      requires Valid()
      modifies this
      ensures Valid() && initialIndex == Some(index)
      ensures Value() == old(Value()) && index == old(index)
    {
      initialIndex := Some(index);
    }

    /** `df.drop(columns=["initialIndex"], inplace=True)`. */
    method DropInitialIndex()
      requires Valid() && initialIndex.Some?
      modifies this
      ensures Valid() && initialIndex == None
      ensures Value() == old(Value()) && index == old(index)
    {
      initialIndex := None;
    }
  }

  /** The entries of a two-dimensional array, row by row. */
  function MatrixOf(a: array2<real>): (m: seq<seq<real>>)
    reads a
    ensures IsMatrix(m, a.Length0, a.Length1)
    ensures forall i, j :: 0 <= i < a.Length0 && 0 <= j < a.Length1 ==> m[i][j] == a[i, j]
  {
    seq(a.Length0, i requires 0 <= i < a.Length0 reads a =>
      seq(a.Length1, j requires 0 <= j < a.Length1 reads a => a[i, j]))
  }

  /** Two matrices of one shape with equal entries are equal. */
  lemma MatrixExt(a: seq<seq<real>>, b: seq<seq<real>>, rows: nat, cols: nat)
    requires IsMatrix(a, rows, cols) && IsMatrix(b, rows, cols)
    requires forall i, j :: 0 <= i < rows && 0 <= j < cols ==> a[i][j] == b[i][j]
    ensures a == b
  {
    forall i | 0 <= i < rows ensures a[i] == b[i] {
      assert a[i] == b[i];
    }
  }

  /** `torch.zeros(m, n)` followed by `matrix[i, lists[i]] = 1.0` for each
      row `i` in turn. */
  method OnesAt(m: nat, n: nat, lists: seq<seq<int>>) returns (matrix: array2<real>)
    requires |lists| == m && forall i, v :: 0 <= i < m && v in lists[i] ==> 0 <= v < n
    ensures fresh(matrix) && matrix.Length0 == m && matrix.Length1 == n
    ensures forall i, j :: 0 <= i < m && 0 <= j < n ==> matrix[i, j] == if j in lists[i] then 1.0 else 0.0
  {
    matrix := new real[m, n]((i, j) => 0.0);
    var i := 0;
    while i < m
      invariant 0 <= i <= m
      invariant forall r, j :: 0 <= r < m && 0 <= j < n ==>
        matrix[r, j] == if r < i && j in lists[r] then 1.0 else 0.0
    {
      forall v | v in lists[i] {
        matrix[i, v] := 1.0;
      }
      i := i + 1;
    }
  }

  /** Index lists gathered over the default index, one per group in group
      order, mark exactly the membership matrix's ones. */
  lemma ListsAreMembers(t: Table, kc: seq<string>, lists: seq<seq<int>>)
    requires Groupable(t, kc) && |lists| == |Groups(t, kc)|
    requires forall i :: 0 <= i < |lists| ==>
      lists[i] == IndexList(t, kc, Groups(t, kc)[i], Positions(|t.rows|), |t.rows|)
    ensures forall i, v :: 0 <= i < |lists| && v in lists[i] ==> 0 <= v < |t.rows|
    ensures forall i, j :: 0 <= i < |lists| && 0 <= j < |t.rows| ==>
      Membership(t, kc)[i][j] == if j in lists[i] then 1.0 else 0.0
  {
    forall i | 0 <= i < |lists| ensures forall v :: v in lists[i] <==> 0 <= v < |t.rows| && KeyOf(t, kc, v) == Groups(t, kc)[i] {
      IndexListHoldsMembers(t, kc, Groups(t, kc)[i]);
    }
    forall i, j | 0 <= i < |lists| && 0 <= j < |t.rows|
      ensures Membership(t, kc)[i][j] == if j in lists[i] then 1.0 else 0.0
    {
      MembershipAt(t, kc, i, j);
    }
  }

  /** Each group's `initialIndex` labels, gathered by a second `groupby` and
      looked up by group key, mark that group's ones in a zeroed matrix. */
  method MarkMembers(t: Table, kc: seq<string>, initialIndex: seq<int>) returns (matrix: array2<real>)
    requires Groupable(t, kc) && initialIndex == Positions(|t.rows|)
    ensures fresh(matrix) && matrix.Length0 == |Groups(t, kc)| && matrix.Length1 == |t.rows|
    ensures MatrixOf(matrix) == Membership(t, kc)
  {
    var groups := Groups(t, kc);
    var n := |t.rows|;
    var lists := map g | g in groups :: IndexList(t, kc, g, initialIndex, n);
    var m := |groups|;
    var rowLists := seq(m, i requires 0 <= i < m => lists[groups[i]]);
    ListsAreMembers(t, kc, rowLists);
    matrix := OnesAt(m, n, rowLists);
    MatrixExt(MatrixOf(matrix), Membership(t, kc), m, n);
  }

  /** `get_aggregate(df, agg_over)`: groups the rows of `df` by the present
      hierarchy columns other than `aggOver`, and returns the groups' series
      `[time][group]`, the groups-by-rows membership matrix and the grouped
      frame. `df` ends as it started. */
  method GetAggregate(df: DataFrame, h: seq<string>, aggOver: string)
    returns (ts: seq<seq<real>>, matrix: array2<real>, grouped: DataFrame)
    requires df.Valid() && df.initialIndex.None? && df.index == Positions(|df.rows|)
    requires aggOver in df.columns && |KeyColumns(h, df.columns, aggOver)| > 0
    modifies df
    ensures df.Valid() && df.Value() == old(df.Value())
    ensures df.index == old(df.index) && df.initialIndex.None?
    ensures fresh(matrix) && fresh(grouped)
    ensures matrix.Length0 == |grouped.rows| && matrix.Length1 == |old(df.rows)|
    ensures grouped.Valid() && grouped.initialIndex.None? && grouped.index == Positions(|grouped.rows|)
    ensures grouped.Value() == Aggregate(old(df.Value()), h, aggOver)
    ensures MatrixOf(matrix) == Membership(old(df.Value()), KeyColumns(h, old(df.columns), aggOver))
    ensures ts == SeriesOf(grouped.Value())
  {
    var t := df.Value();
    var kc := KeyColumns(h, df.columns, aggOver);
    // the per-group sums, with the column aggregated over dropped
    var summed := Aggregate(t, h, aggOver);
    df.AddInitialIndex();
    matrix := MarkMembers(t, kc, df.initialIndex.value);
    df.DropInitialIndex();
    grouped := new DataFrame(summed);
    ts := SeriesOf(grouped.Value());
  }

  /** The `n`-by-`n` identity: the leaves, each its own series. */
  function Identity(n: nat): (e: seq<seq<real>>)
    ensures IsMatrix(e, n, n)
    ensures forall i, j :: 0 <= i < n && 0 <= j < n ==> e[i][j] == if i == j then 1.0 else 0.0
  {
    seq(n, i requires 0 <= i < n => seq(n, j requires 0 <= j < n => if i == j then 1.0 else 0.0))
  }

  /** A zero row of length `total` with `v` written from column `m` on. */
  function Placed(m: nat, v: seq<real>, total: nat): (r: seq<real>)
    requires m + |v| <= total
    ensures |r| == total
    ensures forall j :: 0 <= j < total ==> r[j] == if m <= j < m + |v| then v[j - m] else 0.0
  {
    Zeros(m) + v + Zeros(total - m - |v|)
  }

  /** The matrix after one level: `|M|` new rows on top, each zeros, then the
      membership row of that group over the `w` rows of the level below, then
      zeros; below them, `|M|` zero columns followed by the previous matrix. */
  function Grow(h: seq<seq<real>>, M: seq<seq<real>>, w: nat): (g: seq<seq<real>>)
    requires IsMatrix(h, |h|, |h|) && IsMatrix(M, |M|, w) && w <= |h|
    ensures IsMatrix(g, |M| + |h|, |M| + |h|)
  {
    var m := |M|;
    var g := seq(m + |h|, i requires 0 <= i < m + |h| =>
      if i < m then Placed(m, M[i], m + |h|) else Placed(m, h[i - m], m + |h|));
    assert forall i :: 0 <= i < m ==> g[i] == Placed(m, M[i], m + |h|);
    assert forall i :: m <= i < m + |h| ==> g[i] == Placed(m, h[i - m], m + |h|);
    g
  }

  /** The blocks of the grown matrix: the previous matrix in the
      bottom-right corner, the membership in the first `|M|` rows just right
      of the new columns, and zeros everywhere else. */
  lemma GrowAt(h: seq<seq<real>>, M: seq<seq<real>>, w: nat, i: nat, j: nat)
    requires IsMatrix(h, |h|, |h|) && IsMatrix(M, |M|, w) && w <= |h|
    requires i < |M| + |h| && j < |M| + |h|
    ensures Grow(h, M, w)[i][j] ==
      if i >= |M| && j >= |M| then h[i - |M|][j - |M|]
      else if i < |M| && |M| <= j < |M| + w then M[i][j - |M|]
      else 0.0
  {
    var m := |M|;
    if i < m {
      assert Grow(h, M, w)[i] == Placed(m, M[i], m + |h|);
    } else {
      assert Grow(h, M, w)[i] == Placed(m, h[i - m], m + |h|);
    }
  }

  /** Growing a 0/1 matrix by a 0/1 membership keeps it 0/1. */
  lemma GrowBinary(h: seq<seq<real>>, M: seq<seq<real>>, w: nat)
    requires IsMatrix(h, |h|, |h|) && IsMatrix(M, |M|, w) && w <= |h| && Binary(M)
    ensures Binary(h) ==> Binary(Grow(h, M, w))
  {
    if Binary(h) {
      var g := Grow(h, M, w);
      forall i, j | 0 <= i < |g| && 0 <= j < |g[i]| ensures g[i][j] == 0.0 || g[i][j] == 1.0 {
        GrowAt(h, M, w, i, j);
      }
    }
  }

  /** `torch.cat([ts, time_series], dim=-1)`: at each time step the new
      series come first. */
  function Prepend(ts: seq<seq<real>>, s: seq<seq<real>>): (r: seq<seq<real>>)
    requires |ts| == |s|
    ensures |r| == |s|
    ensures forall k :: 0 <= k < |s| ==>
      |r[k]| == |ts[k]| + |s[k]| && r[k][..|ts[k]|] == ts[k] && r[k][|ts[k]|..] == s[k]
  {
    seq(|s|, k requires 0 <= k < |s| => ts[k] + s[k])
  }

  /** What `get_dataset` holds between levels: the frame of the coarsest
      level so far, the stacked series `[time][series]` and the square
      hierarchy matrix. */
  datatype State = State(frame: Table, series: seq<seq<real>>, hmatrix: seq<seq<real>>)

  /** The shape every state keeps: a square matrix, one series per matrix
      row at every step, and the current frame's series first. */
  ghost predicate Shaped(st: State) {
    && WellFormed(st.frame)
    && IsMatrix(st.hmatrix, |st.hmatrix|, |st.hmatrix|)
    && IsMatrix(st.series, st.frame.steps, |st.hmatrix|)
    && |st.frame.rows| <= |st.hmatrix|
    && forall s :: 0 <= s < st.frame.steps ==> st.series[s][..|st.frame.rows|] == SeriesOf(st.frame)[s]
  }

  /** One pass of the `get_dataset` loop, aggregating over `col`. */
  function Step(st: State, h: seq<string>, col: string): (r: State)
    requires Shaped(st)
    requires col in st.frame.columns && |KeyColumns(h, st.frame.columns, col)| > 0
    ensures Shaped(r) && r.frame == Aggregate(st.frame, h, col) && r.frame.steps == st.frame.steps
    ensures |r.hmatrix| == |r.frame.rows| + |st.hmatrix|
    ensures Binary(st.hmatrix) ==> Binary(r.hmatrix)
    ensures r.hmatrix == Grow(st.hmatrix, Membership(st.frame, KeyColumns(h, st.frame.columns, col)), |st.frame.rows|)
    ensures r.series == Prepend(SeriesOf(r.frame), st.series)
  {
    var kc := KeyColumns(h, st.frame.columns, col);
    var next := Aggregate(st.frame, h, col);
    var ts := SeriesOf(next);
    var M := Membership(st.frame, kc);
    var r := State(next, Prepend(ts, st.series), Grow(st.hmatrix, M, |st.frame.rows|));
    assert forall s :: 0 <= s < next.steps ==> r.series[s][..|next.rows|] == SeriesOf(next)[s];
    GrowBinary(st.hmatrix, M, |st.frame.rows|);
    r
  }

  /** The state before the loop: the leaf frame, its series and the
      identity. */
  function Start(t: Table): (st: State)
    requires WellFormed(t)
    ensures Shaped(st) && st.frame == t && |st.hmatrix| == |t.rows| && Binary(st.hmatrix)
    ensures st.hmatrix == Identity(|t.rows|) && st.series == SeriesOf(t)
  {
    var st := State(t, SeriesOf(t), Identity(|t.rows|));
    assert forall s :: 0 <= s < t.steps ==> SeriesOf(t)[s][..|t.rows|] == SeriesOf(t)[s];
    st
  }

  /** The frame `get_dataset` accepts: well formed, and its hierarchy columns
      are exactly the names of `h`, which are distinct and include a root. */
  predicate HierarchyFrame(t: Table, h: seq<string>) {
    && WellFormed(t) && |h| >= 1 && Distinct(h)
    && (forall c :: c in t.columns ==> c in h)
    && (forall c :: c in h ==> c in t.columns)
  }

  /** With the columns `h[..p + 1]` present, aggregating over `h[p]` is
      defined and leaves the columns `h[..p]`. */
  lemma LevelColumns(h: seq<string>, cols: seq<string>, p: nat)
    requires Distinct(h) && 0 < p < |h|
    requires forall c :: c in cols <==> c in h[..p + 1]
    ensures h[p] in cols && h[0] in KeyColumns(h, cols, h[p])
    ensures forall c :: c in KeyColumns(h, cols, h[p]) <==> c in h[..p]
  {
    assert h[p] == h[..p + 1][p];
    assert h[0] == h[..p + 1][0];
    forall c ensures c in KeyColumns(h, cols, h[p]) <==> c in h[..p] {
      if c in h[..p] {
        var i :| 0 <= i < p && h[..p][i] == c;
        assert h[..p + 1][i] == c;
      }
      if c in h[..p + 1] && c != h[p] {
        var i :| 0 <= i <= p && h[..p + 1][i] == c;
        assert i != p;
        assert h[..p][i] == c;
      }
    }
  }

  /** Every entry is 0 or 1. */
  ghost predicate Binary(m: seq<seq<real>>) {
    forall i, j :: 0 <= i < |m| && 0 <= j < |m[i]| ==> m[i][j] == 0.0 || m[i][j] == 1.0
  }

  /** What holds after `k` passes: the shape, the time steps, a 0/1 matrix,
      and the frame keyed by the first `|h| - k` hierarchy columns. */
  ghost predicate AfterPasses(st: State, t: Table, h: seq<string>, k: nat)
    requires k <= |h|
  {
    && Shaped(st) && st.frame.steps == t.steps && Binary(st.hmatrix)
    && forall c :: c in st.frame.columns <==> c in h[..|h| - k]
  }

  lemma StartAfterPasses(t: Table, h: seq<string>)
    requires HierarchyFrame(t, h)
    ensures AfterPasses(Start(t), t, h, 0)
  {
    assert h[..|h|] == h;
  }

  /** Pass `k` is defined on the state before it and keeps what holds. */
  lemma StepAfterPasses(prev: State, t: Table, h: seq<string>, k: nat)
    requires HierarchyFrame(t, h) && 0 < k < |h| && AfterPasses(prev, t, h, k - 1)
    ensures h[|h| - k] in prev.frame.columns && |KeyColumns(h, prev.frame.columns, h[|h| - k])| > 0
    ensures AfterPasses(Step(prev, h, h[|h| - k]), t, h, k)
  {
    LevelColumns(h, prev.frame.columns, |h| - k);
    var r := Step(prev, h, h[|h| - k]);
    assert r.frame.columns == KeyColumns(h, prev.frame.columns, h[|h| - k]);
  }

  /** The state after the first `k` passes of the level loop, which runs over
      `h[|h| - 1]`, `h[|h| - 2]`, ..., `h[1]`. After any number of passes,
      the hierarchy matrix times the stacked series is the stacked series. */
  function Rollup(t: Table, h: seq<string>, k: nat): (st: State)
    requires HierarchyFrame(t, h) && k < |h|
    ensures AfterPasses(st, t, h, k)
    ensures Coherent(st)
  {
    if k == 0 then
      StartAfterPasses(t, h);
      StartCoherent(t);
      Start(t)
    else
      var prev := Rollup(t, h, k - 1);
      StepAfterPasses(prev, t, h, k);
      StepCoherent(prev, h, h[|h| - k]);
      Step(prev, h, h[|h| - k])
  }

  /** Every row of `hm`, applied to the stacked series `ss[s]` of any time
      step, gives back that row's own series. */
  ghost predicate Reproduces(hm: seq<seq<real>>, ss: seq<seq<real>>) {
    && IsMatrix(hm, |hm|, |hm|) && IsMatrix(ss, |ss|, |hm|)
    && forall r, s :: 0 <= r < |hm| && 0 <= s < |ss| ==> Dot(hm[r], ss[s]) == ss[s][r]
  }

  /** The coherence of a state: each aggregate is the sum of its children
      one level down, and each leaf is itself. */
  ghost predicate Coherent(st: State) {
    Reproduces(st.hmatrix, st.series)
  }

  lemma StartCoherent(t: Table)
    requires WellFormed(t)
    ensures Coherent(Start(t))
  {
    var st := Start(t);
    forall r, s | 0 <= r < |st.hmatrix| && 0 <= s < |st.series|
      ensures Dot(st.hmatrix[r], st.series[s]) == st.series[s][r]
    {
      DotUnit(st.hmatrix[r], st.series[s], r);
    }
  }

  /** A new top row of the grown matrix reproduces its series when the
      membership row over the old series' first `w` entries does. */
  lemma GrowReproducesTop(hm: seq<seq<real>>, ss: seq<seq<real>>, M: seq<seq<real>>, w: nat,
                          ts: seq<seq<real>>, i: nat, s: nat)
    requires IsMatrix(hm, |hm|, |hm|) && IsMatrix(ss, |ss|, |hm|)
    requires IsMatrix(M, |M|, w) && w <= |hm| && IsMatrix(ts, |ss|, |M|)
    requires i < |M| && s < |ss|
    requires Dot(M[i], ss[s][..w]) == ts[s][i]
    ensures Dot(Grow(hm, M, w)[i], Prepend(ts, ss)[s]) == Prepend(ts, ss)[s][i]
  {
    var m := |M|;
    var n := |hm|;
    var row := M[i];
    var below := ss[s];
    assert Grow(hm, M, w)[i] == Zeros(m) + (row + Zeros(n - w));
    assert below == below[..w] + below[w..];
    assert Prepend(ts, ss)[s] == ts[s] + (below[..w] + below[w..]);
    DotConcat(Zeros(m), row + Zeros(n - w), ts[s], below[..w] + below[w..]);
    DotZeroLeft(Zeros(m), ts[s]);
    DotConcat(row, Zeros(n - w), below[..w], below[w..]);
    DotZeroLeft(Zeros(n - w), below[w..]);
  }

  /** A row carried over reads only the old series, which now sit after the
      new ones. */
  lemma GrowReproducesBottom(hm: seq<seq<real>>, ss: seq<seq<real>>, M: seq<seq<real>>, w: nat,
                             ts: seq<seq<real>>, i: nat, s: nat)
    requires IsMatrix(hm, |hm|, |hm|) && IsMatrix(ss, |ss|, |hm|)
    requires IsMatrix(M, |M|, w) && w <= |hm| && IsMatrix(ts, |ss|, |M|)
    requires Reproduces(hm, ss)
    requires |M| <= i < |M| + |hm| && s < |ss|
    ensures Dot(Grow(hm, M, w)[i], Prepend(ts, ss)[s]) == Prepend(ts, ss)[s][i]
  {
    var m := |M|;
    assert Grow(hm, M, w)[i] == Placed(m, hm[i - m], m + |hm|);
    assert Grow(hm, M, w)[i] == Zeros(m) + hm[i - m];
    assert Prepend(ts, ss)[s] == ts[s] + ss[s];
    DotConcat(Zeros(m), hm[i - m], ts[s], ss[s]);
    DotZeroLeft(Zeros(m), ts[s]);
  }

  /** Growing keeps the matrix reproducing the stacked series, provided the
      membership reproduces the new series from the first `w` old ones. */
  lemma GrowReproduces(hm: seq<seq<real>>, ss: seq<seq<real>>, M: seq<seq<real>>, w: nat, ts: seq<seq<real>>)
    requires IsMatrix(hm, |hm|, |hm|) && IsMatrix(ss, |ss|, |hm|)
    requires IsMatrix(M, |M|, w) && w <= |hm| && IsMatrix(ts, |ss|, |M|)
    requires Reproduces(hm, ss)
    requires forall i, s :: 0 <= i < |M| && 0 <= s < |ss| ==> Dot(M[i], ss[s][..w]) == ts[s][i]
    ensures IsMatrix(Prepend(ts, ss), |ss|, |M| + |hm|)
    ensures Reproduces(Grow(hm, M, w), Prepend(ts, ss))
  {
    var g := Grow(hm, M, w);
    var p := Prepend(ts, ss);
    assert IsMatrix(p, |ss|, |M| + |hm|);
    forall i, s | 0 <= i < |g| && 0 <= s < |p| ensures Dot(g[i], p[s]) == p[s][i] {
      if i < |M| {
        GrowReproducesTop(hm, ss, M, w, ts, i, s);
      } else {
        GrowReproducesBottom(hm, ss, M, w, ts, i, s);
      }
    }
  }

  /** One pass of the loop keeps the matrix and the series coherent. */
  lemma StepCoherent(st: State, h: seq<string>, col: string)
    requires Shaped(st) && col in st.frame.columns && |KeyColumns(h, st.frame.columns, col)| > 0
    requires Coherent(st)
    ensures Coherent(Step(st, h, col))
  {
    var kc := KeyColumns(h, st.frame.columns, col);
    var M := Membership(st.frame, kc);
    var next := Aggregate(st.frame, h, col);
    var ts := SeriesOf(next);
    var w := |st.frame.rows|;
    forall i, s | 0 <= i < |M| && 0 <= s < |st.series| ensures Dot(M[i], st.series[s][..w]) == ts[s][i] {
      LevelConsistent(st.frame, h, col, i, s);
    }
    GrowReproduces(st.hmatrix, st.series, M, w, ts);
  }

  /** `hmatrix_new`: a zeroed square matrix `|matrix|` larger, with `hm` in
      its bottom-right corner and `matrix` in the top rows, just right of the
      new columns. */
  method GrowMatrix(hm: array2<real>, matrix: array2<real>) returns (grown: array2<real>)
    requires hm.Length0 == hm.Length1 && matrix.Length1 <= hm.Length0
    ensures fresh(grown) && grown.Length0 == grown.Length1 == matrix.Length0 + hm.Length0
    ensures MatrixOf(grown) == Grow(MatrixOf(hm), MatrixOf(matrix), matrix.Length1)
  {
    var m := matrix.Length0;
    var w := matrix.Length1;
    var size := m + hm.Length0;
    ghost var below := MatrixOf(hm);
    ghost var block := MatrixOf(matrix);
    ghost var spec := Grow(below, block, w);
    grown := new real[size, size]((i, j) => 0.0);
    forall i, j | 0 <= i < hm.Length0 && 0 <= j < hm.Length1 {
      grown[m + i, m + j] := hm[i, j];
    }
    label carried:
    forall i, j | 0 <= i < m && 0 <= j < w {
      grown[i, m + j] := matrix[i, j];
    }
    assert forall i, j :: 0 <= i < size && 0 <= j < size && !(i < m && m <= j < m + w) ==>
      grown[i, j] == old@carried(grown[i, j]);
    assert forall i, j :: 0 <= i < size && 0 <= j < size ==>
      grown[i, j] == if i >= m && j >= m then below[i - m][j - m]
                     else if i < m && m <= j < m + w then block[i][j - m]
                     else 0.0;
    forall i, j | 0 <= i < size && 0 <= j < size ensures grown[i, j] == spec[i][j] {
      GrowAt(below, block, w, i, j);
    }
    MatrixExt(MatrixOf(grown), spec, size, size);
  }

  /** One pass of the `get_dataset` loop over `col`: aggregate the current
      frame, prepend the new series and grow the hierarchy matrix. */
  method RollupPass(frame: DataFrame, timeSeries: seq<seq<real>>, hmatrix: array2<real>,
                    h: seq<string>, col: string, ghost st: State)
    returns (grouped: DataFrame, timeSeries': seq<seq<real>>, hmatrix': array2<real>)
    requires Shaped(st) && col in st.frame.columns && |KeyColumns(h, st.frame.columns, col)| > 0
    requires frame.Valid() && frame.initialIndex.None? && frame.index == Positions(|frame.rows|)
    requires frame.Value() == st.frame && timeSeries == st.series
    requires hmatrix.Length0 == hmatrix.Length1 && MatrixOf(hmatrix) == st.hmatrix
    modifies frame
    ensures frame.Valid() && frame.Value() == old(frame.Value())
    ensures frame.index == old(frame.index) && frame.initialIndex.None?
    ensures fresh(grouped) && fresh(hmatrix')
    ensures grouped.Valid() && grouped.initialIndex.None? && grouped.index == Positions(|grouped.rows|)
    ensures grouped.Value() == Step(st, h, col).frame
    ensures timeSeries' == Step(st, h, col).series
    ensures hmatrix'.Length0 == hmatrix'.Length1 && MatrixOf(hmatrix') == Step(st, h, col).hmatrix
  {
    ghost var kc := KeyColumns(h, st.frame.columns, col);
    var ts, matrix;
    ts, matrix, grouped := GetAggregate(frame, h, col);
    timeSeries' := Prepend(ts, timeSeries);
    hmatrix' := GrowMatrix(hmatrix, matrix);
    assert MatrixOf(matrix) == Membership(st.frame, kc);
  }

  /** `get_dataset(sales_df)`: the stacked series `[time][series]` of every
      level, coarsest first, and the square hierarchy matrix, built by one
      pass per hierarchy column after the root, finest first. The caller's
      frame ends as it started in the columns modelled here; the constant
      `country_id` column that the code adds is not modelled. */
  method GetDataset(salesDf: DataFrame, h: seq<string>) returns (timeSeries: seq<seq<real>>, hmatrix: array2<real>)
    requires salesDf.Valid() && salesDf.initialIndex.None? && salesDf.index == Positions(|salesDf.rows|)
    requires HierarchyFrame(salesDf.Value(), h)
    modifies salesDf
    ensures salesDf.Valid() && salesDf.Value() == old(salesDf.Value())
    ensures salesDf.index == old(salesDf.index) && salesDf.initialIndex.None?
    ensures fresh(hmatrix)
    ensures timeSeries == Rollup(old(salesDf.Value()), h, |h| - 1).series
    ensures MatrixOf(hmatrix) == Rollup(old(salesDf.Value()), h, |h| - 1).hmatrix
  {
    var t := salesDf.Value();
    var n := |salesDf.rows|;
    timeSeries := SeriesOf(t);
    hmatrix := new real[n, n]((i, j) => if i == j then 1.0 else 0.0);
    MatrixExt(MatrixOf(hmatrix), Identity(n), n, n);
    assert Rollup(t, h, 0) == Start(t);
    var frame := salesDf;
    for k := 0 to |h| - 1
      invariant frame == salesDf || fresh(frame)
      invariant salesDf.Valid() && salesDf.Value() == t
      invariant salesDf.index == old(salesDf.index) && salesDf.initialIndex.None?
      invariant frame.Valid() && frame.initialIndex.None? && frame.index == Positions(|frame.rows|)
      invariant frame.Value() == Rollup(t, h, k).frame
      invariant timeSeries == Rollup(t, h, k).series
      invariant fresh(hmatrix) && hmatrix.Length0 == hmatrix.Length1
      invariant MatrixOf(hmatrix) == Rollup(t, h, k).hmatrix
    {
      ghost var st := Rollup(t, h, k);
      var col := h[|h| - 1 - k];
      LevelColumns(h, frame.columns, |h| - 1 - k);
      frame, timeSeries, hmatrix := RollupPass(frame, timeSeries, hmatrix, h, col, st);
      assert Rollup(t, h, k + 1) == Step(st, h, col);
    }
  }
}
