/** The release-note generator: building issue rows from a CSV export with repeated headers, and finding CVEs. */
module IssueReport {
  import opened Collections
  import opened Text

  datatype Cell = Cell(key: string, value: string)
  datatype Group = Group(key: string, values: seq<string>)
  type Row = map<string, string>

  /** Headers paired with the cells of one line, up to the shorter of the two. */
  function Zip(fields: seq<string>, line: seq<string>): seq<Cell> {
    var n := if |fields| <= |line| then |fields| else |line|;
    seq(n, i requires 0 <= i < n => Cell(fields[i], line[i]))
  }

  /** Adjacent cells with equal headers, grouped. */
  function Groups(cells: seq<Cell>): seq<Group> {
    if cells == [] then []
    else
      var n := |cells| - 1;
      var gs, c := Groups(cells[..n]), cells[n];
      if gs != [] && gs[|gs| - 1].key == c.key then
        gs[|gs| - 1 := Group(c.key, gs[|gs| - 1].values + [c.value])]
      else
        gs + [Group(c.key, [c.value])]
  }

  /** A dictionary keeps the last value given for a key. */
  function ToRow(gs: seq<Group>): Row {
    if gs == [] then map[]
    else ToRow(gs[..|gs| - 1])[gs[|gs| - 1].key := Join(gs[|gs| - 1].values, ",")]
  }

  function BuildRow(fields: seq<string>, line: seq<string>): Row {
    ToRow(Groups(Zip(fields, line)))
  }

  // ---- The row by its headers ----

  /** The values of the cells at the end that have header `k`. */
  function TrailingRun(cells: seq<Cell>, k: string): seq<string> {
    if cells == [] || cells[|cells| - 1].key != k then []
    else TrailingRun(cells[..|cells| - 1], k) + [cells[|cells| - 1].value]
  }

  /** The values of the last stretch of cells with header `k`. */
  function LastRun(cells: seq<Cell>, k: string): seq<string> {
    if cells == [] then []
    else if cells[|cells| - 1].key == k then TrailingRun(cells, k)
    else LastRun(cells[..|cells| - 1], k)
  }

  /** The values of all cells with header `k`. */
  function Values(cells: seq<Cell>, k: string): seq<string> {
    if cells == [] then []
    else Values(cells[..|cells| - 1], k) + if cells[|cells| - 1].key == k then [cells[|cells| - 1].value] else []
  }

  /** What the last group with header `k` holds; nothing if there is none. */
  function LastGroup(gs: seq<Group>, k: string): seq<string> {
    if gs == [] then []
    else if gs[|gs| - 1].key == k then gs[|gs| - 1].values
    else LastGroup(gs[..|gs| - 1], k)
  }

  ghost predicate Grouped(gs: seq<Group>, cells: seq<Cell>) {
    && (gs == [] <==> cells == [])
    && (gs != [] ==>
          var last := gs[|gs| - 1];
          last.key == cells[|cells| - 1].key && last.values == TrailingRun(cells, last.key))
    && (forall i :: 0 <= i < |gs| ==> gs[i].values != [])
  }

  lemma {:induction false} GroupsAreRuns(cells: seq<Cell>)
    ensures Grouped(Groups(cells), cells)
  {
    if cells != [] {
      GroupsAreRuns(cells[..|cells| - 1]);
    }
  }

  lemma {:induction false} LastGroupIsLastRun(cells: seq<Cell>, k: string)
    ensures LastGroup(Groups(cells), k) == LastRun(cells, k)
  {
    if cells != [] {
      var n := |cells| - 1;
      LastGroupIsLastRun(cells[..n], k);
      GroupsAreRuns(cells[..n]);
      GroupsAreRuns(cells);
      var before, gs := Groups(cells[..n]), Groups(cells);
      if |gs| == |before| {
        assert gs[..|gs| - 1] == before[..|gs| - 1];
      } else {
        assert gs[..|gs| - 1] == before;
      }
    }
  }

  lemma {:induction false} RowIsLastGroup(gs: seq<Group>, k: string)
    requires forall i :: 0 <= i < |gs| ==> gs[i].values != []
    ensures k in ToRow(gs) <==> LastGroup(gs, k) != []
    ensures k in ToRow(gs) ==> ToRow(gs)[k] == Join(LastGroup(gs, k), ",")
  {
    if gs != [] {
      RowIsLastGroup(gs[..|gs| - 1], k);
    }
  }

  /** A field of a built row is the comma-join of its last run of headers; without such a header it is missing. */
  lemma RowIsLastRun(fields: seq<string>, line: seq<string>, k: string)
    ensures k in BuildRow(fields, line) <==> LastRun(Zip(fields, line), k) != []
    ensures k in BuildRow(fields, line) ==> BuildRow(fields, line)[k] == Join(LastRun(Zip(fields, line), k), ",")
  {
    var cells := Zip(fields, line);
    GroupsAreRuns(cells);
    LastGroupIsLastRun(cells, k);
    RowIsLastGroup(Groups(cells), k);
  }

  // ---- The row by its columns ----

  /** How many columns a line fills. */
  function Width(fields: seq<string>, line: seq<string>): nat {
    if |fields| <= |line| then |fields| else |line|
  }

  /** Columns `lo` up to `hi` are the last stretch of headers `k` among the first `n`. */
  ghost predicate LastStretch(fields: seq<string>, n: nat, k: string, lo: nat, hi: nat) {
    && lo < hi <= n <= |fields|
    && (forall i :: lo <= i < hi ==> fields[i] == k)
    && (lo > 0 ==> fields[lo - 1] != k)
    && (forall i :: hi <= i < n ==> fields[i] != k)
  }

  lemma ZipPrefix(fields: seq<string>, line: seq<string>, n: nat)
    requires 0 < n <= Width(fields, line)
    ensures Zip(fields, line)[..n][..n - 1] == Zip(fields, line)[..n - 1]
    ensures Zip(fields, line)[n - 1] == Cell(fields[n - 1], line[n - 1])
  {
  }

  lemma {:induction false} TrailingIsSlice(fields: seq<string>, line: seq<string>, k: string, lo: nat, hi: nat)
    requires lo <= hi <= Width(fields, line) && (forall i :: lo <= i < hi ==> fields[i] == k)
    requires lo > 0 ==> fields[lo - 1] != k
    ensures TrailingRun(Zip(fields, line)[..hi], k) == line[lo..hi]
    decreases hi
  {
    if hi > 0 {
      ZipPrefix(fields, line, hi);
    }
    if lo < hi {
      TrailingIsSlice(fields, line, k, lo, hi - 1);
      assert line[lo..hi] == line[lo..hi - 1] + [line[hi - 1]];
    }
  }

  lemma {:induction false} LastRunIsSlice(fields: seq<string>, line: seq<string>, n: nat, k: string, lo: nat, hi: nat)
    requires n <= Width(fields, line) && LastStretch(fields, n, k, lo, hi)
    ensures LastRun(Zip(fields, line)[..n], k) == line[lo..hi]
    decreases n
  {
    ZipPrefix(fields, line, n);
    if hi < n {
      LastRunIsSlice(fields, line, n - 1, k, lo, hi);
    } else {
      TrailingIsSlice(fields, line, k, lo, hi);
    }
  }

  /** There is a last stretch exactly when there is such a header. */
  lemma {:induction false} FindStretch(fields: seq<string>, n: nat, k: string) returns (lo: nat, hi: nat)
    requires n <= |fields| && k in fields[..n]
    ensures LastStretch(fields, n, k, lo, hi)
    decreases n
  {
    assert fields[..n] == fields[..n - 1] + [fields[n - 1]];
    if fields[n - 1] != k {
      lo, hi := FindStretch(fields, n - 1, k);
    } else {
      lo, hi := n - 1, n;
      while lo > 0 && fields[lo - 1] == k
        invariant lo < hi && forall i :: lo <= i < hi ==> fields[i] == k
      {
        lo := lo - 1;
      }
    }
  }

  lemma {:induction false} NoRun(fields: seq<string>, line: seq<string>, n: nat, k: string)
    requires n <= Width(fields, line) && k !in fields[..n]
    ensures LastRun(Zip(fields, line)[..n], k) == []
  {
    if n > 0 {
      ZipPrefix(fields, line, n);
      assert fields[n - 1] == fields[..n][n - 1] && fields[..n - 1] == fields[..n][..n - 1];
      NoRun(fields, line, n - 1, k);
    }
  }

  /** The row of a line: it has a field exactly if the line reaches a column with that header, and its value is the
      comma-join of the cells under the last stretch of such columns. */
  lemma RowByColumns(fields: seq<string>, line: seq<string>, k: string)
    ensures k in BuildRow(fields, line) <==> exists i :: 0 <= i < |fields| && i < |line| && fields[i] == k
    ensures forall lo: nat, hi: nat :: LastStretch(fields, Width(fields, line), k, lo, hi) ==>
              k in BuildRow(fields, line) && BuildRow(fields, line)[k] == Join(line[lo..hi], ",")
  {
    var n := Width(fields, line);
    RowIsLastRun(fields, line, k);
    assert Zip(fields, line)[..n] == Zip(fields, line);
    if k in fields[..n] {
      var i :| 0 <= i < n && fields[..n][i] == k;
      assert fields[i] == k;
      var lo, hi := FindStretch(fields, n, k);
      LastRunIsSlice(fields, line, n, k, lo, hi);
    } else {
      NoRun(fields, line, n, k);
      forall i | 0 <= i < n ensures fields[i] != k {
        assert fields[i] == fields[..n][i];
      }
    }
    forall lo: nat, hi: nat | LastStretch(fields, n, k, lo, hi) ensures LastRun(Zip(fields, line), k) == line[lo..hi] {
      LastRunIsSlice(fields, line, n, k, lo, hi);
    }
  }

  /** A field with one column has the cell of that column. */
  lemma RowOfOneColumn(fields: seq<string>, line: seq<string>, k: string, i: nat)
    requires i < |fields| && i < |line| && fields[i] == k
    requires forall j :: 0 <= j < |fields| && j < |line| && fields[j] == k ==> j == i
    ensures k in BuildRow(fields, line) && BuildRow(fields, line)[k] == line[i]
  {
    RowByColumns(fields, line, k);
    assert LastStretch(fields, Width(fields, line), k, i, i + 1);
    assert line[i..i + 1] == [line[i]];
  }

  /** The cells under the last stretch of columns with header `k`; none without such a column. */
  function LastCells(fields: seq<string>, line: seq<string>, k: string): seq<string> {
    CellsUpTo(fields, line, Width(fields, line), k)
  }

  function CellsUpTo(fields: seq<string>, line: seq<string>, n: nat, k: string): seq<string>
    requires n <= |fields| && n <= |line|
  {
    if n == 0 then []
    else if fields[n - 1] != k then CellsUpTo(fields, line, n - 1, k)
    else if n > 1 && fields[n - 2] == k then CellsUpTo(fields, line, n - 1, k) + [line[n - 1]]
    else [line[n - 1]]
  }

  lemma {:induction false} LastCellsAreRun(fields: seq<string>, line: seq<string>, n: nat, k: string)
    requires n <= Width(fields, line)
    ensures LastRun(Zip(fields, line)[..n], k) == CellsUpTo(fields, line, n, k)
  {
    if n > 0 {
      ZipPrefix(fields, line, n);
      LastCellsAreRun(fields, line, n - 1, k);
      var cells := Zip(fields, line)[..n];
      assert cells[n - 1].key == fields[n - 1] && cells[n - 1].value == line[n - 1];
      if fields[n - 1] == k {
        assert LastRun(cells, k) == TrailingRun(cells[..n - 1], k) + [line[n - 1]];
        if n > 1 {
          assert cells[..n - 1][n - 2].key == fields[n - 2];
        }
      }
    }
  }

  lemma RunIsLastCells(fields: seq<string>, line: seq<string>, k: string)
    ensures LastRun(Zip(fields, line), k) == LastCells(fields, line, k)
  {
    LastCellsAreRun(fields, line, Width(fields, line), k);
    assert Zip(fields, line)[..Width(fields, line)] == Zip(fields, line);
  }

  /** The cells under all columns with header `k`, in order. */
  function Column(fields: seq<string>, line: seq<string>, n: nat, k: string): seq<string>
    requires n <= |fields| && n <= |line|
  {
    if n == 0 then [] else Column(fields, line, n - 1, k) + if fields[n - 1] == k then [line[n - 1]] else []
  }

  lemma {:induction false} ValuesAreColumn(fields: seq<string>, line: seq<string>, n: nat, k: string)
    requires n <= Width(fields, line)
    ensures Values(Zip(fields, line)[..n], k) == Column(fields, line, n, k)
  {
    if n > 0 {
      ZipPrefix(fields, line, n);
      ValuesAreColumn(fields, line, n - 1, k);
    }
  }

  lemma {:induction false} ColumnCells(fields: seq<string>, line: seq<string>, n: nat, k: string, j: nat)
    requires n <= |fields| && n <= |line| && j < |Column(fields, line, n, k)|
    ensures exists i :: 0 <= i < n && fields[i] == k && Column(fields, line, n, k)[j] == line[i]
  {
    if j < |Column(fields, line, n - 1, k)| {
      ColumnCells(fields, line, n - 1, k, j);
    } else {
      assert fields[n - 1] == k;
    }
  }

  /** Between two cells with header `k` there is no other header. */
  ghost predicate Contiguous(cells: seq<Cell>, k: string) {
    forall i, j, l :: 0 <= i < j < l < |cells| && cells[i].key == k && cells[l].key == k ==> cells[j].key == k
  }

  lemma {:induction false} NoValues(cells: seq<Cell>, k: string)
    requires forall i :: 0 <= i < |cells| ==> cells[i].key != k
    ensures Values(cells, k) == []
  {
    if cells != [] {
      NoValues(cells[..|cells| - 1], k);
    }
  }

  lemma {:induction false} TrailingIsAll(cells: seq<Cell>, k: string)
    requires Contiguous(cells, k) && cells != [] && cells[|cells| - 1].key == k
    ensures TrailingRun(cells, k) == Values(cells, k)
  {
    var n := |cells| - 1;
    if n > 0 && cells[n - 1].key == k {
      assert Contiguous(cells[..n], k);
      TrailingIsAll(cells[..n], k);
    } else {
      forall i | 0 <= i < n ensures cells[i].key != k {
        assert i == n - 1 || cells[n - 1].key != k;
      }
      NoValues(cells[..n], k);
      if n > 0 {
        assert cells[..n][n - 1].key != k;
      }
    }
  }

  lemma {:induction false} LastRunIsAll(cells: seq<Cell>, k: string)
    requires Contiguous(cells, k)
    ensures LastRun(cells, k) == Values(cells, k)
  {
    if cells != [] {
      var n := |cells| - 1;
      if cells[n].key == k {
        TrailingIsAll(cells, k);
      } else {
        assert Contiguous(cells[..n], k);
        LastRunIsAll(cells[..n], k);
      }
    }
  }

  // ---- CVEs ----

  datatype Cve = Cve(id: string, issue: Row)

  predicate IsCve(text: string) {
    |text| >= 4 && text[..4] == "CVE-"
  }

  /** The labels that name a CVE, in order. */
  function CveLabels(labels: seq<string>): seq<string> {
    if labels == [] then []
    else
      var n := |labels| - 1;
      CveLabels(labels[..n]) + if IsCve(labels[n]) then [labels[n]] else []
  }

  function Tagged(labels: seq<string>, issue: Row): seq<Cve> {
    if labels == [] then []
    else
      var n := |labels| - 1;
      Tagged(labels[..n], issue) + if IsCve(labels[n]) then [Cve(labels[n], issue)] else []
  }

  /** The labels of an issue; a missing or empty field has none. */
  function LabelsOf(issue: Row): seq<string> {
    if "Labels" in issue && issue["Labels"] != "" then Split(issue["Labels"], ",") else []
  }

  function AllCves(issues: seq<Row>): seq<Cve> {
    if issues == [] then []
    else
      var n := |issues| - 1;
      AllCves(issues[..n]) + Tagged(LabelsOf(issues[n]), issues[n])
  }

  method FindCves(issues: seq<Row>) returns (cves: seq<Cve>)
    ensures cves == AllCves(issues)
  {
    cves := [];
    for n := 0 to |issues|
      invariant cves == AllCves(issues[..n])
    {
      assert issues[..n + 1][..n] == issues[..n];
      var issue := issues[n];
      if "Labels" in issue && issue["Labels"] != "" {
        cves := AddCves(cves, Split(issue["Labels"], ","), issue);
      }
    }
    assert issues[..|issues|] == issues;
  }

  /** Append an entry for every label that names a CVE. */
  method AddCves(cves: seq<Cve>, labels: seq<string>, issue: Row) returns (more: seq<Cve>)
    ensures more == cves + Tagged(labels, issue)
  {
    more := cves;
    for i := 0 to |labels|
      invariant more == cves + Tagged(labels[..i], issue)
    {
      assert labels[..i + 1][..i] == labels[..i];
      if IsCve(labels[i]) {
        more := more + [Cve(labels[i], issue)];
      }
    }
    assert labels[..|labels|] == labels;
  }

  /** One entry for each id, with the issue. */
  function Entries(ids: seq<string>, issue: Row): seq<Cve> {
    seq(|ids|, i requires 0 <= i < |ids| => Cve(ids[i], issue))
  }

  lemma {:induction false} TaggedAreEntries(labels: seq<string>, issue: Row)
    ensures Tagged(labels, issue) == Entries(CveLabels(labels), issue)
  {
    if labels != [] {
      TaggedAreEntries(labels[..|labels| - 1], issue);
    }
  }

  lemma {:induction false} CveLabelsIff(labels: seq<string>, id: string)
    ensures id in CveLabels(labels) <==> id in labels && IsCve(id)
  {
    if labels != [] {
      var n := |labels| - 1;
      CveLabelsIff(labels[..n], id);
      assert labels == labels[..n] + [labels[n]];
    }
  }

  /** The issues that are found are exactly those with a label that starts with "CVE-", each with that label as id. */
  lemma {:induction false} CveFoundIff(issues: seq<Row>, c: Cve)
    ensures c in AllCves(issues) <==>
            c.issue in issues && c.id in LabelsOf(c.issue) && |c.id| >= 4 && c.id[..4] == "CVE-"
  {
    if issues != [] {
      var n := |issues| - 1;
      CveFoundIff(issues[..n], c);
      assert issues == issues[..n] + [issues[n]];
      TaggedAreEntries(LabelsOf(issues[n]), issues[n]);
      CveLabelsIff(LabelsOf(issues[n]), c.id);
      EntryIff(CveLabels(LabelsOf(issues[n])), issues[n], c);
    }
  }

  lemma EntryIff(ids: seq<string>, issue: Row, c: Cve)
    ensures c in Entries(ids, issue) <==> c.issue == issue && c.id in ids
  {
    if i :| 0 <= i < |ids| && ids[i] == c.id && c.issue == issue {
      assert Entries(ids, issue)[i] == c;
    }
  }

  /** The labels of a line: the cells under the last stretch of Labels columns, split at commas. */
  function LineLabels(fields: seq<string>, line: seq<string>): seq<string> {
    SplitEach(LastCells(fields, line, "Labels"), ",")
  }

  lemma NoCveInEmpty()
    ensures CveLabels([""]) == [] && SplitEach([""], ",") == [""]
  {
    assert [""][..0] == [] && CveLabels([]) == [];
    FindIsFirst("", ",");
    assert Split("", ",") == [""];
    assert [""][1..] == [] && SplitEach([], ",") == [];
  }

  lemma {:induction false} EmptyJoin(cells: seq<string>)
    requires cells != [] && Join(cells, ",") == ""
    ensures cells == [""]
  {
  }

  /** Building a row and splitting its labels again finds the CVEs of the line's own label cells. */
  lemma RowCves(fields: seq<string>, line: seq<string>)
    ensures CveLabels(LabelsOf(BuildRow(fields, line))) == CveLabels(LineLabels(fields, line))
  {
    var cells := LastCells(fields, line, "Labels");
    RowIsLastRun(fields, line, "Labels");
    RunIsLastCells(fields, line, "Labels");
    if cells != [] {
      if Join(cells, ",") == "" {
        EmptyJoin(cells);
        NoCveInEmpty();
      } else {
        SplitJoinEach(cells, ",");
      }
    }
  }

  /** When the Labels columns are adjacent and no label contains a comma, the row yields exactly the label cells that
      start with "CVE-", in order and with duplicates. */
  lemma RowCvesAreCells(fields: seq<string>, line: seq<string>)
    requires forall i, j, l :: 0 <= i < j < l < Width(fields, line) && fields[i] == fields[l] == "Labels" ==>
               fields[j] == "Labels"
    requires forall i :: 0 <= i < Width(fields, line) && fields[i] == "Labels" ==> !Contains(line[i], ",")
    ensures CveLabels(LabelsOf(BuildRow(fields, line)))
         == CveLabels(Column(fields, line, Width(fields, line), "Labels"))
  {
    var n, cells := Width(fields, line), Zip(fields, line);
    RowCves(fields, line);
    RunIsLastCells(fields, line, "Labels");
    assert Contiguous(cells, "Labels");
    LastRunIsAll(cells, "Labels");
    assert cells[..n] == cells;
    ValuesAreColumn(fields, line, n, "Labels");
    var column := Column(fields, line, n, "Labels");
    forall j | 0 <= j < |column| ensures !Contains(column[j], ",") {
      ColumnCells(fields, line, n, "Labels", j);
    }
    SplitEachFree(column, ",");
  }

  // ---- The whole export ----

  /** The built rows of the lines whose issue type is `kind`, in order. */
  function RowsOfType(fields: seq<string>, lines: seq<seq<string>>, kind: string): seq<Row> {
    if lines == [] then []
    else
      var n := |lines| - 1;
      var row := BuildRow(fields, lines[n]);
      RowsOfType(fields, lines[..n], kind)
      + if "Issue Type" in row && row["Issue Type"] == kind then [row] else []
  }

  datatype Issues = Issues(bugs: seq<Row>, newFeatures: seq<Row>, tasks: seq<Row>)

  /** Sort the issues by type. A line without an issue type is an error. */
  method ReadIssues(fields: seq<string>, lines: seq<seq<string>>) returns (r: Option<Issues>)
    ensures r.Some? <==> forall i :: 0 <= i < |lines| ==> "Issue Type" in BuildRow(fields, lines[i])
    ensures r.Some? ==> r.value == Issues(RowsOfType(fields, lines, "Bug"), RowsOfType(fields, lines, "New Feature"),
                                          RowsOfType(fields, lines, "Task"))
  {
    var bugs, newFeatures, tasks := [], [], [];
    for n := 0 to |lines|
      invariant bugs == RowsOfType(fields, lines[..n], "Bug")
      invariant newFeatures == RowsOfType(fields, lines[..n], "New Feature")
      invariant tasks == RowsOfType(fields, lines[..n], "Task")
      invariant forall i :: 0 <= i < n ==> "Issue Type" in BuildRow(fields, lines[i])
    {
      assert lines[..n + 1][..n] == lines[..n];
      var row := BuildRow(fields, lines[n]);
      if "Issue Type" !in row {
        return None;
      }
      if row["Issue Type"] == "Bug" {
        bugs := bugs + [row];
      } else if row["Issue Type"] == "New Feature" {
        newFeatures := newFeatures + [row];
      } else if row["Issue Type"] == "Task" {
        tasks := tasks + [row];
      }
    }
    assert lines[..|lines|] == lines;
    r := Some(Issues(bugs, newFeatures, tasks));
  }

  /** The CVEs of the lines of a type, read straight off the export: for each CVE label of a line its row. */
  function CvesOfType(fields: seq<string>, lines: seq<seq<string>>, kind: string): seq<Cve> {
    if lines == [] then []
    else
      var n := |lines| - 1;
      var kinds := LastCells(fields, lines[n], "Issue Type");
      CvesOfType(fields, lines[..n], kind)
      + if kinds != [] && Join(kinds, ",") == kind
        then Entries(CveLabels(LineLabels(fields, lines[n])), BuildRow(fields, lines[n])) else []
  }

  /** For every export, the CVEs found in the issues of a type are the CVE labels of that type's lines, in order, each
      with the row of its line. */
  lemma {:induction false} ReportedCves(fields: seq<string>, lines: seq<seq<string>>, kind: string)
    ensures AllCves(RowsOfType(fields, lines, kind)) == CvesOfType(fields, lines, kind)
  {
    if lines != [] {
      var n := |lines| - 1;
      var row := BuildRow(fields, lines[n]);
      var before, rows := RowsOfType(fields, lines[..n], kind), RowsOfType(fields, lines, kind);
      ReportedCves(fields, lines[..n], kind);
      RowIsLastRun(fields, lines[n], "Issue Type");
      RunIsLastCells(fields, lines[n], "Issue Type");
      if "Issue Type" in row && row["Issue Type"] == kind {
        assert rows == before + [row] && rows[..|rows| - 1] == before;
        RowCves(fields, lines[n]);
        TaggedAreEntries(LabelsOf(row), row);
      } else {
        assert rows == before;
      }
    }
  }
}
