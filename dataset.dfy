/**
 * The scraped dataset: a dictionary of nine parallel columns, one list per field,
 * that append_scraped_data extends in place, one value per column per recipe.
 */
module Dataset {
  import opened Wrappers
  import opened Extract

  /** A value stored in a column: a string, an integer, a list of strings, or Python's None. */
  datatype Cell = TextCell(s: string) | IntCell(n: int) | ListCell(items: seq<string>) | NoneCell

  /** The nine dictionary keys of the table, "title" to "category", as an enumeration. */
  datatype Column = Title | Rating | Complexity | Products | Description | Image | TimesCooked | Fav | Category

  /** The columns of the table, in the order main creates them. */
  const ColumnNames: seq<Column> :=
    [Title, Rating, Complexity, Products, Description, Image, TimesCooked, Fav, Category]

  /** Every key is one of the nine columns. */
  lemma AllColumns()
    ensures forall k: Column :: k in ColumnNames
  {
    forall k: Column
      ensures k in ColumnNames
    {
      match k
      case Title => assert ColumnNames[0] == k;
      case Rating => assert ColumnNames[1] == k;
      case Complexity => assert ColumnNames[2] == k;
      case Products => assert ColumnNames[3] == k;
      case Description => assert ColumnNames[4] == k;
      case Image => assert ColumnNames[5] == k;
      case TimesCooked => assert ColumnNames[6] == k;
      case Fav => assert ColumnNames[7] == k;
      case Category => assert ColumnNames[8] == k;
    }
  }

  /** The value scrape_recipe stores under key k for the recipe r. */
  function CellOf(r: Recipe, k: Column): Cell {
    match k
    case Title => TextCell(r.title)
    case Rating => IntCell(r.rating)
    case Complexity => IntCell(r.complexity)
    case Products => ListCell(r.products)
    case Description => TextCell(r.description)
    case Image => (match r.image case Some(s) => TextCell(s) case None => NoneCell)
    case TimesCooked => IntCell(r.timesCooked)
    case Fav => IntCell(r.fav)
    case Category => TextCell(r.category)
  }

  /** The dictionary scrape_recipe returns for one recipe: one value under each of the nine keys. */
  function ToRow(r: Recipe): (row: map<Column, Cell>)
    ensures forall k: Column :: k in row && row[k] == CellOf(r, k)
  {
    AllColumns();
    map k | k in ColumnNames :: CellOf(r, k)
  }

  /** The string-or-None held by an image cell; None when the cell is of another kind. */
  function ImageCell(c: Cell): Option<Option<string>> {
    match c
    case TextCell(s) => Some(Some(s))
    case NoneCell => Some(None)
    case _ => None
  }

  /** Reads one row of the table back as a recipe; None when a column is missing or ill-typed. */
  function FromRow(row: map<Column, Cell>): Option<Recipe> {
    if && Title in row && row[Title].TextCell?
       && Rating in row && row[Rating].IntCell?
       && Complexity in row && row[Complexity].IntCell?
       && Products in row && row[Products].ListCell?
       && Description in row && row[Description].TextCell?
       && Image in row && ImageCell(row[Image]).Some?
       && TimesCooked in row && row[TimesCooked].IntCell?
       && Fav in row && row[Fav].IntCell?
       && Category in row && row[Category].TextCell?
    then
      Some(Recipe(row[Title].s, row[Rating].n, row[Complexity].n, row[Products].items,
                  row[Description].s, ImageCell(row[Image]).value, row[TimesCooked].n,
                  row[Fav].n, row[Category].s))
    else None
  }

  /** Column k of a table that holds the recipes rs, one row each, in order. */
  function ColumnOf(k: Column, rs: seq<Recipe>): (col: seq<Cell>)
    ensures |col| == |rs|
    ensures forall i :: 0 <= i < |rs| ==> col[i] == CellOf(rs[i], k)
  {
    if rs == [] then [] else ColumnOf(k, rs[..|rs| - 1]) + [CellOf(rs[|rs| - 1], k)]
  }

  /** The column of a + b is the column of a followed by that of b. */
  lemma ColumnOfAppend(k: Column, a: seq<Recipe>, b: seq<Recipe>)
    ensures ColumnOf(k, a + b) == ColumnOf(k, a) + ColumnOf(k, b)
  {
    assert forall i :: 0 <= i < |a| ==> (a + b)[i] == a[i];
    assert forall i :: |a| <= i < |a + b| ==> (a + b)[i] == b[i - |a|];
  }

  /** A column extended by the rows of a and then by those of b is extended by the rows of a + b. */
  lemma ColumnExtendedTwice(k: Column, front: seq<Cell>, a: seq<Recipe>, b: seq<Recipe>)
    ensures (front + ColumnOf(k, a)) + ColumnOf(k, b) == front + ColumnOf(k, a + b)
  {
    var colA, colB := ColumnOf(k, a), ColumnOf(k, b);
    ColumnOfAppend(k, a, b);
    assert (front + colA) + colB == front + (colA + colB);
  }

  /** Appending the rows of a and then those of b appends the rows of a + b. */
  lemma ColumnsExtended(start: map<Column, seq<Cell>>, mid: map<Column, seq<Cell>>, end: map<Column, seq<Cell>>,
                        a: seq<Recipe>, b: seq<Recipe>)
    requires mid.Keys == start.Keys && end.Keys == start.Keys
    requires forall k :: k in mid ==> mid[k] == start[k] + ColumnOf(k, a)
    requires forall k :: k in end ==> end[k] == mid[k] + ColumnOf(k, b)
    ensures forall k :: k in end ==> end[k] == start[k] + ColumnOf(k, a + b)
  {
    forall k | k in end
      ensures end[k] == start[k] + ColumnOf(k, a + b)
    {
      ColumnExtendedTwice(k, start[k], a, b);
    }
  }

  /** Row i of a dictionary of columns: each column's i-th value, under the column's name. */
  function RowAt(cols: map<Column, seq<Cell>>, i: nat): map<Column, Cell> {
    map k | k in cols && i < |cols[k]| :: cols[k][i]
  }

  /** Reading row i of a table whose columns hold rs gives back the recipe rs[i]. */
  lemma RowsReadBack(cols: map<Column, seq<Cell>>, rs: seq<Recipe>, i: nat)
    requires forall k: Column :: k in cols && cols[k] == ColumnOf(k, rs)
    requires i < |rs|
    ensures FromRow(RowAt(cols, i)) == Some(rs[i])
  {
    var row := RowAt(cols, i);
    forall k: Column
      ensures k in row && row[k] == CellOf(rs[i], k)
    {
      assert |cols[k]| == |rs|;
    }
    RowRoundTrip(row, rs[i]);
  }

  /** A row holding a recipe's nine values reads back as that recipe. */
  lemma RowRoundTrip(row: map<Column, Cell>, r: Recipe)
    requires forall k: Column :: k in row && row[k] == CellOf(r, k)
    ensures FromRow(row) == Some(r)
  {
    assert Title in row && row[Title] == CellOf(r, Title);
    assert Rating in row && row[Rating] == CellOf(r, Rating);
    assert Complexity in row && row[Complexity] == CellOf(r, Complexity);
    assert Products in row && row[Products] == CellOf(r, Products);
    assert Description in row && row[Description] == CellOf(r, Description);
    assert Image in row && row[Image] == CellOf(r, Image);
    assert TimesCooked in row && row[TimesCooked] == CellOf(r, TimesCooked);
    assert Fav in row && row[Fav] == CellOf(r, Fav);
    assert Category in row && row[Category] == CellOf(r, Category);
  }

  /** The position of the first key that row lacks, or |keys| when it has them all. */
  function FirstMissing(keys: seq<Column>, row: map<Column, Cell>): (m: nat)
    ensures m <= |keys|
    ensures forall j :: 0 <= j < m ==> keys[j] in row
    ensures m < |keys| ==> keys[m] !in row
  {
    if keys == [] || keys[0] !in row then 0 else 1 + FirstMissing(keys[1..], row)
  }

  /** The keys are pairwise distinct. */
  ghost predicate Distinct(keys: seq<Column>) {
    forall i, j :: 0 <= i < j < |keys| ==> keys[i] != keys[j]
  }

  /** cols is base with row's value appended to the columns of the first i keys, and no other change. */
  ghost predicate Extended(base: map<Column, seq<Cell>>, cols: map<Column, seq<Cell>>, keys: seq<Column>,
                           row: map<Column, Cell>, i: nat)
  {
    && i <= |keys|
    && cols.Keys == base.Keys
    && (forall j :: 0 <= j < i ==> keys[j] in row)
    && (forall j :: 0 <= j < |keys| ==>
          (keys[j] in base && cols[keys[j]] == (if j < i then base[keys[j]] + [row[keys[j]]] else base[keys[j]])))
  }

  lemma ExtendOneMore(base: map<Column, seq<Cell>>, cols: map<Column, seq<Cell>>, keys: seq<Column>,
                      row: map<Column, Cell>, i: nat)
    requires Distinct(keys) && Extended(base, cols, keys, row, i)
    requires i < |keys| && keys[i] in row
    ensures Extended(base, cols[keys[i] := cols[keys[i]] + [row[keys[i]]]], keys, row, i + 1)
  {
    var next := cols[keys[i] := cols[keys[i]] + [row[keys[i]]]];
    forall j | 0 <= j < |keys|
      ensures next[keys[j]] == if j < i + 1 then base[keys[j]] + [row[keys[j]]] else base[keys[j]]
    {
      if j != i {
        assert keys[j] != keys[i];
      }
    }
  }

  /** Once every key has been visited, every column of the dictionary has been extended. */
  lemma ExtendedEveryKey(base: map<Column, seq<Cell>>, cols: map<Column, seq<Cell>>, keys: seq<Column>,
                         row: map<Column, Cell>)
    requires Extended(base, cols, keys, row, |keys|)
    requires forall k :: k in base <==> k in keys
    ensures forall k :: k in cols ==> k in row && cols[k] == base[k] + [row[k]]
  {
    forall k | k in cols
      ensures k in row && cols[k] == base[k] + [row[k]]
    {
      var j :| 0 <= j < |keys| && keys[j] == k;
    }
  }

  /** The loop stops at the first missing key, or after the last key. */
  lemma FirstMissingIs(keys: seq<Column>, row: map<Column, Cell>, i: nat)
    requires i <= FirstMissing(keys, row) && i <= |keys|
    requires i == |keys| || keys[i] !in row
    ensures i == FirstMissing(keys, row)
    ensures (i == |keys|) <==> forall k :: k in keys ==> k in row
  {
  }

  /** The dictionary of columns; its keys keep their insertion order, as a Python dict does. */
  class ColumnTable {
    var order: seq<Column>
    var columns: map<Column, seq<Cell>>

    /** The keys in order are exactly the dictionary's keys, each once. */
    ghost predicate Valid()
      reads this
    {
      && (forall k :: k in columns <==> k in order)
      && Distinct(order)
    }

    /** Every column holds n values: the table has n rows. */
    predicate Rectangular(n: nat)
      reads this
    {
      forall k :: k in columns ==> |columns[k]| == n
    }

    /** The nine empty columns main starts from. */
    constructor ()
      ensures Valid() && order == ColumnNames
      ensures Rectangular(0)
    {
      AllColumns();
      order := ColumnNames;
      columns := map k | k in ColumnNames :: [];
    }

    /**
     * append_scraped_data: for each key, in dictionary order, appends row[key] to that
     * column. A key the row lacks raises KeyError (ok is false); the columns before it
     * have already been extended and the rest are untouched.
     */
    method Append(row: map<Column, Cell>) returns (ok: bool)
      requires Valid()
      modifies this
      ensures Valid() && order == old(order) && columns.Keys == old(columns).Keys
      ensures ok <==> forall k :: k in order ==> k in row
      ensures ok ==> forall k :: k in columns ==> columns[k] == old(columns)[k] + [row[k]]
      ensures !ok ==> forall j :: 0 <= j < |order| ==>
        columns[order[j]] == if j < FirstMissing(order, row) then old(columns)[order[j]] + [row[order[j]]]
                             else old(columns)[order[j]]
    {
      var keys, base := order, columns;
      var cols := base;
      var i := 0;
      while i < |keys| && keys[i] in row
        invariant 0 <= i <= FirstMissing(keys, row)
        invariant Extended(base, cols, keys, row, i)
        invariant unchanged(this)
      {
        ExtendOneMore(base, cols, keys, row, i);
        cols := cols[keys[i] := cols[keys[i]] + [row[keys[i]]]];
        i := i + 1;
      }
      // A key missing from the row raises KeyError here, after the earlier columns were extended.
      FirstMissingIs(keys, row, i);
      ok := i == |keys|;
      if ok {
        ExtendedEveryKey(base, cols, keys, row);
      }
      columns := cols;
    }
  }
}
