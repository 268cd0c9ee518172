/**
 * `csvbuilder` of databasegenerator.py: read every structure file of a
 * folder listing and, for each structure with fewer than `nary` species,
 * write one csv row holding the value of every column function; the row of
 * column names goes out once, just before the first data row. Reading a
 * file and each column function may raise, and the first exception ends the
 * build with whatever lines were written before it. The csv writer is the
 * sequence of lines written; reading a file is a parameter.
 */
module TableBuilder {
  import opened Wrappers
  import opened Descriptors

  /** A column function: its `func_name`, and its value on a structure or the exception it raises. */
  datatype Column<!E, V> = Column(name: string, eval: Structure<E> -> Result<V>)

  /** One csv line: the column names, or the values of one structure. */
  datatype Line<V> = Header(names: seq<string>) | Values(values: seq<V>)

  /** `[f.func_name for f in column_functions]`. */
  function Names<E, V>(columns: seq<Column<E, V>>): (r: seq<string>)
    ensures |r| == |columns| && forall j :: 0 <= j < |columns| ==> r[j] == columns[j].name
  {
    seq(|columns|, j requires 0 <= j < |columns| => columns[j].name)
  }

  /**
   * `[f(a) for f in column_functions]`: the column functions are called in
   * order and the first that raises ends the list with its exception.
   */
  function RowOf<E, V>(columns: seq<Column<E, V>>, a: Structure<E>): Result<seq<V>> {
    if columns == [] then Ok([])
    else
      match columns[0].eval(a)
      case Err(e) => Err(e)
      case Ok(v) =>
        match RowOf(columns[1..], a)
        case Err(e) => Err(e)
        case Ok(vs) => Ok([v] + vs)
  }

  /**
   * A row is computed exactly when no column raises, and then holds every
   * column's value in column order; otherwise it fails with the exception of
   * the first column that raises.
   */
  lemma {:induction false} RowOfColumns<E, V>(columns: seq<Column<E, V>>, a: Structure<E>)
    ensures var r := RowOf(columns, a);
      && (r.Ok? <==> forall j :: 0 <= j < |columns| ==> columns[j].eval(a).Ok?)
      && (r.Ok? ==> |r.value| == |columns| && forall j :: 0 <= j < |columns| ==> r.value[j] == columns[j].eval(a).value)
      && (r.Err? ==>
            exists j :: 0 <= j < |columns| && columns[j].eval(a) == Err(r.error)
                        && forall l :: 0 <= l < j ==> columns[l].eval(a).Ok?)
  {
    if columns != [] {
      var rest := columns[1..];
      RowOfColumns(rest, a);
      assert forall j :: 1 <= j < |columns| ==> columns[j] == rest[j - 1];
      if columns[0].eval(a).Ok? && RowOf(rest, a).Err? {
        var e := RowOf(rest, a).error;
        var j :| 0 <= j < |rest| && rest[j].eval(a) == Err(e)
                 && forall l :: 0 <= l < j ==> rest[l].eval(a).Ok?;
        assert columns[j + 1].eval(a) == Err(e);
      }
    }
  }

  /** `numberOfSpecies(a) < nary`. */
  predicate Qualifies<E>(a: Structure<E>, nary: int) {
    NumberOfSpecies(a.composition) < nary
  }

  /** The structures of the listing that get a row, in listing order. */
  function Qualifying<E>(structures: seq<Structure<E>>, nary: int): (r: seq<Structure<E>>)
    ensures |r| <= |structures|
    ensures forall i :: 0 <= i < |r| ==> Qualifies(r[i], nary) && r[i] in structures
  {
    if |structures| == 0 then []
    else
      var a := structures[|structures| - 1];
      var p := Qualifying(structures[..|structures| - 1], nary);
      assert forall i :: 0 <= i < |p| ==> p[i] in structures;
      p + if Qualifies(a, nary) then [a] else []
  }

  /** Every column can be computed on every structure that gets a row. */
  predicate Computes<E, V>(structures: seq<Structure<E>>, columns: seq<Column<E, V>>, nary: int) {
    forall i :: 0 <= i < |structures| && Qualifies(structures[i], nary) ==> RowOf(columns, structures[i]).Ok?
  }

  /**
   * What the folder's csv holds when nothing raises: nothing when no
   * structure qualifies, otherwise the column names and then one row per
   * qualifying structure.
   */
  function Table<E, V>(structures: seq<Structure<E>>, columns: seq<Column<E, V>>, nary: int): seq<Line<V>>
    requires Computes(structures, columns, nary)
  {
    var q := Qualifying(structures, nary);
    if |q| == 0 then []
    else [Header(Names(columns))] + seq(|q|, i requires 0 <= i < |q| => Values(RowOf(columns, q[i]).value))
  }

  /** What a build leaves behind: the lines written, and the exception that ended it, if any. */
  datatype Outcome<V> = Outcome(lines: seq<Line<V>>, error: Option<PyError>)

  /**
   * One structure file read (or the exception `read_structure` raised) and
   * handled after `lines` were written: no line if it does not qualify;
   * otherwise the column names first if nothing was written yet, then its
   * row. When the row raises, the names stay written.
   */
  function Step<E, V>(lines: seq<Line<V>>, file: Result<Structure<E>>, columns: seq<Column<E, V>>, nary: int): Outcome<V> {
    match file
    case Err(e) => Outcome(lines, Some(e))
    case Ok(a) =>
      if !Qualifies(a, nary) then Outcome(lines, None)
      else
        var before := if |lines| > 0 then lines else lines + [Header(Names(columns))];
        match RowOf(columns, a)
        case Err(e) => Outcome(before, Some(e))
        case Ok(row) => Outcome(before + [Values(row)], None)
  }

  /** The files of the listing handled one after another until the first exception. */
  function Build<E, V>(listing: seq<string>, read: string -> Result<Structure<E>>, columns: seq<Column<E, V>>, nary: int): Outcome<V> {
    if |listing| == 0 then Outcome([], None)
    else
      var o := Build(listing[..|listing| - 1], read, columns, nary);
      if o.error.Some? then o else Step(o.lines, read(listing[|listing| - 1]), columns, nary)
  }

  /** A file that reads without error and whose row, if it gets one, computes. */
  predicate Fine<E, V>(file: Result<Structure<E>>, columns: seq<Column<E, V>>, nary: int) {
    file.Ok? && (Qualifies(file.value, nary) ==> RowOf(columns, file.value).Ok?)
  }

  /** Every file of the listing is fine. */
  predicate Clean<E, V>(listing: seq<string>, read: string -> Result<Structure<E>>, columns: seq<Column<E, V>>, nary: int) {
    forall i :: 0 <= i < |listing| ==> Fine(read(listing[i]), columns, nary)
  }

  /** `pm.read_structure(os.path.join(target_dir, name))` for every name, when none raises. */
  function Structures<E>(listing: seq<string>, read: string -> Result<Structure<E>>): (r: seq<Structure<E>>)
    requires forall i :: 0 <= i < |listing| ==> read(listing[i]).Ok?
    ensures |r| == |listing| && forall i :: 0 <= i < |listing| ==> Ok(r[i]) == read(listing[i])
  {
    if |listing| == 0 then []
    else Structures(listing[..|listing| - 1], read) + [read(listing[|listing| - 1]).value]
  }

  /**
   * `csvbuilder(target_dir, output, column_functions, nary)`, with the file
   * listing as `listing`, the lines handed to the csv writer as `written`
   * and the exception that escapes it, if any, as `failure`. (The source's
   * default `nary` is 10: up to nine species.)
   */
  method CsvBuilder<E, V>(listing: seq<string>, read: string -> Result<Structure<E>>, columns: seq<Column<E, V>>, nary: int)
      returns (written: seq<Line<V>>, failure: Option<PyError>)
    ensures Outcome(written, failure) == Build(listing, read, columns, nary)
    ensures failure.None? <==> Clean(listing, read, columns, nary)
    ensures failure.None? ==> written == Table(Structures(listing, read), columns, nary)
  {
    var nextRow := 0;
    written, failure := [], None;
    var i := 0;
    while i < |listing| && failure.None?
      invariant 0 <= i <= |listing|
      invariant Outcome(written, failure) == Build(listing[..i], read, columns, nary)
      invariant failure.None? ==> nextRow == |written|
    {
      assert listing[..i + 1][..i] == listing[..i];
      var file := read(listing[i]);
      if file.Err? {
        failure := Some(file.error);
      } else {
        var a := file.value;
        if nextRow > 0 && NumberOfSpecies(a.composition) < nary {
          var row := RowOf(columns, a);
          if row.Err? {
            failure := Some(row.error);
          } else {
            written := written + [Values(row.value)];
            nextRow := nextRow + 1;
          }
        } else if NumberOfSpecies(a.composition) < nary {
          var colnames := Names(columns);
          written := written + [Header(colnames)];
          var row := RowOf(columns, a);
          if row.Err? {
            failure := Some(row.error);
          } else {
            written := written + [Values(row.value)];
            nextRow := nextRow + 2;
          }
        }
      }
      i := i + 1;
    }
    BuildStops(listing, read, columns, nary, i);
    assert listing[..|listing|] == listing;
    BuildSucceeds(listing, read, columns, nary);
    if failure.None? {
      BuildClean(listing, read, columns, nary);
    }
  }

  // ---------------------------------------------------------------------------
  // How a build ends
  // ---------------------------------------------------------------------------

  /** After the first exception nothing more happens. */
  lemma {:induction false} BuildStops<E, V>(listing: seq<string>, read: string -> Result<Structure<E>>, columns: seq<Column<E, V>>, nary: int, i: nat)
    requires i <= |listing|
    requires i < |listing| ==> Build(listing[..i], read, columns, nary).error.Some?
    ensures Build(listing, read, columns, nary) == Build(listing[..i], read, columns, nary)
    decreases |listing| - i
  {
    if i < |listing| {
      var p := listing[..|listing| - 1];
      assert p[..i] == listing[..i];
      BuildStops(p, read, columns, nary, i);
    } else {
      assert listing[..i] == listing;
    }
  }

  /** The build ends without an exception exactly when every file is fine. */
  lemma {:induction false} BuildSucceeds<E, V>(listing: seq<string>, read: string -> Result<Structure<E>>, columns: seq<Column<E, V>>, nary: int)
    ensures Build(listing, read, columns, nary).error.None? <==> Clean(listing, read, columns, nary)
  {
    if |listing| > 0 {
      var p := listing[..|listing| - 1];
      BuildSucceeds(p, read, columns, nary);
      assert forall i :: 0 <= i < |p| ==> p[i] == listing[i];
      var o := Build(p, read, columns, nary);
      if o.error.None? {
        var file := read(listing[|listing| - 1]);
        assert Build(listing, read, columns, nary) == Step(o.lines, file, columns, nary);
      } else {
        assert !Clean(p, read, columns, nary);
      }
    }
  }

  /** One more structure adds no line if it does not qualify, two lines if it is the first that does, one otherwise. */
  lemma TableSnoc<E, V>(structures: seq<Structure<E>>, a: Structure<E>, columns: seq<Column<E, V>>, nary: int)
    requires Computes(structures, columns, nary)
    requires Qualifies(a, nary) ==> RowOf(columns, a).Ok?
    ensures Computes(structures + [a], columns, nary)
    ensures Table(structures + [a], columns, nary)
            == Table(structures, columns, nary)
               + if !Qualifies(a, nary) then []
                 else if |Table(structures, columns, nary)| == 0 then [Header(Names(columns)), Values(RowOf(columns, a).value)]
                 else [Values(RowOf(columns, a).value)]
  {
    var ss := structures + [a];
    ComputesSnoc(structures, a, columns, nary);
    assert ss[..|ss| - 1] == structures;
    var q := Qualifying(structures, nary);
    var q' := Qualifying(ss, nary);
    assert q' == q + if Qualifies(a, nary) then [a] else [];
    if Qualifies(a, nary) && |q| > 0 {
      var rows := seq(|q|, i requires 0 <= i < |q| => Values(RowOf(columns, q[i]).value));
      var rows' := seq(|q'|, i requires 0 <= i < |q'| => Values(RowOf(columns, q'[i]).value));
      assert rows' == rows + [Values(RowOf(columns, a).value)];
    } else if Qualifies(a, nary) {
      assert q' == [a];
    }
  }

  lemma ComputesSnoc<E, V>(structures: seq<Structure<E>>, a: Structure<E>, columns: seq<Column<E, V>>, nary: int)
    requires Computes(structures, columns, nary)
    requires Qualifies(a, nary) ==> RowOf(columns, a).Ok?
    ensures Computes(structures + [a], columns, nary)
  {
    var ss := structures + [a];
    assert forall i :: 0 <= i < |structures| ==> structures[i] == ss[i];
    assert ss[|structures|] == a;
  }

  /** Without an exception, the lines written are the table of the structures read. */
  lemma {:induction false} BuildClean<E, V>(listing: seq<string>, read: string -> Result<Structure<E>>, columns: seq<Column<E, V>>, nary: int)
    requires Clean(listing, read, columns, nary)
    ensures Computes(Structures(listing, read), columns, nary)
    ensures Build(listing, read, columns, nary) == Outcome(Table(Structures(listing, read), columns, nary), None)
  {
    var ss := Structures(listing, read);
    CleanComputes(listing, read, columns, nary);
    if |listing| > 0 {
      var p := listing[..|listing| - 1];
      assert forall i :: 0 <= i < |p| ==> p[i] == listing[i];
      BuildClean(p, read, columns, nary);
      var a := read(listing[|listing| - 1]).value;
      assert Fine(read(listing[|listing| - 1]), columns, nary);
      assert ss == Structures(p, read) + [a];
      TableSnoc(Structures(p, read), a, columns, nary);
    }
  }

  /** When every file is fine, every row of the table can be computed. */
  lemma CleanComputes<E, V>(listing: seq<string>, read: string -> Result<Structure<E>>, columns: seq<Column<E, V>>, nary: int)
    requires Clean(listing, read, columns, nary)
    ensures Computes(Structures(listing, read), columns, nary)
  {
    var ss := Structures(listing, read);
    forall i | 0 <= i < |ss| && Qualifies(ss[i], nary)
      ensures RowOf(columns, ss[i]).Ok?
    {
      assert Fine(read(listing[i]), columns, nary);
    }
  }

  /**
   * The first file that is not fine ends the build: the lines are the table
   * of the files before it, plus the column names when its own row was the
   * first and raised (the names are written before the row is computed).
   */
  lemma FirstFailure<E, V>(listing: seq<string>, read: string -> Result<Structure<E>>, columns: seq<Column<E, V>>, nary: int, j: nat)
    requires j < |listing|
    requires Clean(listing[..j], read, columns, nary)
    requires !Fine(read(listing[j]), columns, nary)
    ensures Computes(Structures(listing[..j], read), columns, nary)
    ensures var t := Table(Structures(listing[..j], read), columns, nary);
            Build(listing, read, columns, nary)
            == match read(listing[j])
               case Err(e) => Outcome(t, Some(e))
               case Ok(a) => Outcome(if |t| == 0 then [Header(Names(columns))] else t, Some(RowOf(columns, a).error))
  {
    var p := listing[..j];
    BuildClean(p, read, columns, nary);
    var t := Table(Structures(p, read), columns, nary);
    var p1 := listing[..j + 1];
    assert p1[..j] == p && p1[j] == listing[j];
    var o := Build(p1, read, columns, nary);
    assert o == Step(t, read(listing[j]), columns, nary);
    assert o.error.Some?;
    BuildStops(listing, read, columns, nary, j + 1);
  }

  /**
   * A single qualifying structure whose first column raises (say
   * `electronegativityRange` of a structure without sites): only the column
   * names are written before the exception escapes.
   */
  lemma HeaderWithoutRow<E, V>(name: string, read: string -> Result<Structure<E>>, columns: seq<Column<E, V>>, nary: int, e: PyError)
    requires read(name).Ok? && Qualifies(read(name).value, nary)
    requires |columns| > 0 && columns[0].eval(read(name).value) == Err(e)
    ensures Build([name], read, columns, nary) == Outcome([Header(Names(columns))], Some(e))
  {
    assert [name][..0] == [];
  }

  // ---------------------------------------------------------------------------
  // What the csv looks like
  // ---------------------------------------------------------------------------

  /** A structure gets a row exactly when it is in the listing and qualifies. */
  lemma {:induction false} QualifyingMembers<E>(structures: seq<Structure<E>>, nary: int, a: Structure<E>)
    ensures a in Qualifying(structures, nary) <==> a in structures && Qualifies(a, nary)
  {
    if |structures| > 0 {
      var p := structures[..|structures| - 1];
      QualifyingMembers(p, nary, a);
      assert structures == p + [structures[|structures| - 1]];
    }
  }

  /** When every structure qualifies, every one gets a row, in listing order. */
  lemma {:induction false} QualifyingAll<E>(structures: seq<Structure<E>>, nary: int)
    requires forall i :: 0 <= i < |structures| ==> Qualifies(structures[i], nary)
    ensures Qualifying(structures, nary) == structures
  {
    if |structures| > 0 {
      var p := structures[..|structures| - 1];
      QualifyingAll(p, nary);
      assert structures == p + [structures[|structures| - 1]];
    }
  }

  /** Nothing is written when no structure qualifies. */
  lemma {:induction false} EmptyTable<E, V>(structures: seq<Structure<E>>, columns: seq<Column<E, V>>, nary: int)
    requires forall i :: 0 <= i < |structures| ==> !Qualifies(structures[i], nary)
    ensures Computes(structures, columns, nary)
    ensures Table(structures, columns, nary) == []
  {
    if |Qualifying(structures, nary)| > 0 {
      var a := Qualifying(structures, nary)[0];
      QualifyingMembers(structures, nary, a);
      assert false;
    }
  }

  /**
   * The header line is the first line and no other; every line after it is
   * a data row as long as the header, one per qualifying structure, in
   * listing order.
   */
  lemma TableShape<E, V>(structures: seq<Structure<E>>, columns: seq<Column<E, V>>, nary: int)
    requires Computes(structures, columns, nary)
    ensures var t, q := Table(structures, columns, nary), Qualifying(structures, nary);
      && |t| == (if |q| == 0 then 0 else |q| + 1)
      && (forall i :: 0 <= i < |t| ==> (t[i].Header? <==> i == 0))
      && (|t| > 0 ==> t[0].names == Names(columns))
      && (forall i :: 0 < i < |t| ==> |t[i].values| == |columns|)
      && (forall i :: 0 < i < |t| ==> Ok(t[i].values) == RowOf(columns, q[i - 1]))
  {
    var t, q := Table(structures, columns, nary), Qualifying(structures, nary);
    if |q| > 0 {
      var rows := seq(|q|, i requires 0 <= i < |q| => Values(RowOf(columns, q[i]).value));
      assert t == [Header(Names(columns))] + rows;
      assert forall i :: 0 < i < |t| ==> t[i] == rows[i - 1];
      forall i | 0 <= i < |q|
        ensures |RowOf(columns, q[i]).value| == |columns|
      {
        RowOfColumns(columns, q[i]);
      }
    }
  }

  /** A structure with `nary` species or more adds no line. */
  lemma TooManySpecies<E, V>(structures: seq<Structure<E>>, a: Structure<E>, columns: seq<Column<E, V>>, nary: int)
    requires Computes(structures, columns, nary)
    requires NumberOfSpecies(a.composition) >= nary
    ensures Computes(structures + [a], columns, nary)
    ensures Table(structures + [a], columns, nary) == Table(structures, columns, nary)
  {
    TableSnoc(structures, a, columns, nary);
  }

  /** Once the header is out, a qualifying structure adds exactly its own row. */
  lemma RowAfterHeader<E, V>(structures: seq<Structure<E>>, a: Structure<E>, columns: seq<Column<E, V>>, nary: int)
    requires Computes(structures, columns, nary)
    requires Qualifies(a, nary) && RowOf(columns, a).Ok? && |Table(structures, columns, nary)| > 0
    ensures Computes(structures + [a], columns, nary)
    ensures Table(structures + [a], columns, nary) == Table(structures, columns, nary) + [Values(RowOf(columns, a).value)]
  {
    TableSnoc(structures, a, columns, nary);
  }
}
