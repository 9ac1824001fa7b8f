/** A table of the database: a name, distinct column titles and a set of
    rows. Adding a row that is already there changes nothing. */
module DbTable {

  import opened Results
  import opened DbLists

  /** A row: one value per column. */
  type Row = seq<string>

  datatype Table = Table(name: string, titles: seq<string>, rows: set<Row>)

  /** No title occurs twice. */
  predicate Distinct(xs: seq<string>)
  {
    forall i, j :: 0 <= i < j < |xs| ==> xs[i] != xs[j]
  }

  /** The title at position i occurs at some other position too. */
  predicate RepeatedAt(xs: seq<string>, i: int)
    requires 0 <= i < |xs|
  {
    exists j :: 0 <= j < |xs| && j != i && xs[j] == xs[i]
  }

  /** A title's first and last positions differ exactly when it occurs
      twice. */
  lemma FirstLastDiffer(xs: seq<string>, i: int)
    requires 0 <= i < |xs|
    ensures IndexOf(xs, xs[i]) != LastIndexOf(xs, xs[i]) <==> RepeatedAt(xs, i)
  {
    var f, l := IndexOf(xs, xs[i]), LastIndexOf(xs, xs[i]);
    assert f <= i <= l;
    if f == l {
      forall j | 0 <= j < |xs| && j != i
        ensures xs[j] != xs[i]
      {
      }
    } else if f != i {
      assert xs[f] == xs[i];
    } else {
      assert xs[l] == xs[i];
    }
  }

  /** The constructor's check, over the titles from position k on: is there
      one whose first and last positions differ? */
  function RepeatedFrom(titles: seq<string>, k: nat): (r: bool)
    requires k <= |titles|
    ensures r <==> exists i :: k <= i < |titles| && RepeatedAt(titles, i)
    decreases |titles| - k
  {
    if k == |titles| then false
    else
      FirstLastDiffer(titles, k);
      if IndexOf(titles, titles[k]) != LastIndexOf(titles, titles[k]) then true
      else RepeatedFrom(titles, k + 1)
  }

  /** A new empty table; repeated titles are an error. */
  function NewTable(name: string, titles: seq<string>): (r: Result<Table, string>)
    ensures r.Success? ==> r.value.name == name && r.value.titles == titles && Size(r.value) == 0
    ensures r.Failure? ==> r.error == "All columns in " + name + " must be unique."
  {
    if RepeatedFrom(titles, 0) then Failure("All columns in " + name + " must be unique.")
    else Success(Table(name, titles, {}))
  }

  function NumColumns(t: Table): nat
  {
    |t.titles|
  }

  function Name(t: Table): string
  {
    t.name
  }

  /** The title of column k. */
  function Title(t: Table, k: int): string
    requires 0 <= k < NumColumns(t)
  {
    t.titles[k]
  }

  /** The number of the column titled `title`, or -1 if there is none. */
  function ColumnIndex(t: Table, title: string): (k: int)
    ensures -1 <= k < NumColumns(t)
    ensures k == -1 <==> forall j :: 0 <= j < NumColumns(t) ==> Title(t, j) != title
    ensures k >= 0 ==> Title(t, k) == title
  {
    var k := IndexOf(t.titles, title);
    assert k >= 0 ==> Title(t, k) == title;
    k
  }

  function Size(t: Table): nat
  {
    |t.rows|
  }

  /** Add `row` unless an equal row is there; true when something was added. */
  function Add(t: Table, row: Row): (res: (bool, Table))
    ensures res.0 <==> row !in t.rows
    ensures row in res.1.rows && forall x :: x in res.1.rows ==> x == row || x in t.rows
    ensures t.rows <= res.1.rows
    ensures res.1.name == t.name && res.1.titles == t.titles
    ensures Size(res.1) == Size(t) + (if res.0 then 1 else 0)
  {
    var rows := t.rows + {row};
    assert |rows| == |t.rows| + (if row in t.rows then 0 else 1) by {
      if row in t.rows {
        assert rows == t.rows;
      } else {
        assert t.rows * {row} == {};
      }
    }
    (row !in t.rows, t.(rows := rows))
  }

  // ---------------------------------------------------------------------
  // Properties

  /** Building a table fails exactly when two titles are equal. */
  lemma NewTableFailsOnRepeats(name: string, titles: seq<string>)
    ensures NewTable(name, titles).Failure? <==> !Distinct(titles)
  {
    if !Distinct(titles) {
      var i, j :| 0 <= i < j < |titles| && titles[i] == titles[j];
      assert RepeatedAt(titles, i);
    }
  }

  /** With distinct titles, the column index of a title and the title of a
      column index undo each other. */
  lemma TitleIndexRoundTrip(t: Table, k: int, title: string)
    requires Distinct(t.titles)
    ensures 0 <= k < NumColumns(t) ==> ColumnIndex(t, Title(t, k)) == k
    ensures ColumnIndex(t, title) >= 0 ==> Title(t, ColumnIndex(t, title)) == title
  {
  }

  /** Adding the same row a second time changes nothing and returns false. */
  lemma AddIdempotent(t: Table, row: Row)
    ensures var t' := Add(t, row).1;
      Add(t', row) == (false, t')
  {
  }

  /** The table of the basic tests: its name, titles and column indexes. */
  lemma BasicTableExamples()
    ensures var r := NewTable("Some Table", ["Title 1", "Title 2", "Title 3"]);
      && r.Success?
      && Name(r.value) == "Some Table"
      && Title(r.value, 0) == "Title 1" && Title(r.value, 1) == "Title 2" && Title(r.value, 2) == "Title 3"
      && ColumnIndex(r.value, "Title 1") == 0 && ColumnIndex(r.value, "Title 3") == 2
      && ColumnIndex(r.value, "DNE") == -1
      && Size(r.value) == 0
  {
    var titles := ["Title 1", "Title 2", "Title 3"];
    assert Distinct(titles);
    NewTableFailsOnRepeats("Some Table", titles);
    var t := NewTable("Some Table", titles).value;
    assert "DNE" !in titles;
  }

  /** Repeated titles in the basic tests are refused. */
  lemma BasicRepeatedTitles()
    ensures NewTable("Some Other Table", ["Title 1", "Title 2", "Title 2", "Title 3"]).Failure?
  {
    var bad := ["Title 1", "Title 2", "Title 2", "Title 3"];
    assert bad[1] == bad[2];
    NewTableFailsOnRepeats("Some Other Table", bad);
  }

  /** Adding rows in the basic tests: a second add of the same row is
      refused and leaves the size alone. */
  lemma BasicAddExamples(t: Table)
    requires Size(t) == 0
    ensures var (added, t1) := Add(t, ["a", "b", "c"]);
      var (added2, t2) := Add(t1, ["a", "b", "c"]);
      var (_, t3) := Add(t2, ["1", "2", "3"]);
      added && Size(t1) == 1 && !added2 && Size(t2) == 1 && Size(t3) == 2
  {
    assert t.rows == {};
    assert ["a", "b", "c"] != ["1", "2", "3"] by {
      assert ["a", "b", "c"][0] != ["1", "2", "3"][0];
    }
  }
}
