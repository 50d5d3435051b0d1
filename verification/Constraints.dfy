/** The text of a constraint error parsed into its parts. */
module Constraints {
  import opened Common
  import opened Splitting

  datatype StorageClass = Null | Integer | Real | Text | Blob

  datatype Details = Details(table: Option<string>, columns: seq<string>, indexName: Option<string>,
                             constraintName: Option<string>, source: Option<StorageClass>,
                             target: Option<StorageClass>)

  const NONE := Details(None, [], None, None, None, None)

  function StorageClassOf(s: string): Option<StorageClass> {
    if s == "INT" || s == "INTEGER" then Some(Integer)
    else if s == "REAL" then Some(Real)
    else if s == "TEXT" then Some(Text)
    else if s == "BLOB" then Some(Blob)
    else if s == "NULL" then Some(Null)
    else None
  }

  // Extended result codes.
  const CODE_CHECK := 275
  const CODE_NOT_NULL := 1299
  const CODE_PRIMARY_KEY := 1555
  const CODE_UNIQUE := 2067
  const CODE_DATATYPE := 3091

  const UNIQUE := "UNIQUE constraint failed: "
  const PRIMARY_KEY := "PRIMARY KEY constraint failed: "
  const NOT_NULL := "NOT NULL constraint failed: "
  const CHECK := "CHECK constraint failed: "
  const STORE := "cannot store "
  const INDEX := "index '"
  const VALUE_IN := " value in "
  const COLUMN := " column "

  function StripPrefix(s: string, prefix: string): Option<string> {
    if prefix <= s then Some(s[|prefix|..]) else None
  }

  /** The column of a part, and the table in front of it when there is a dot. */
  function ColumnOf(part: string): string {
    match SplitOnce(part, ".")
    case Some(cut) => cut.1
    case None => part
  }

  function ColumnsOf(parts: seq<string>): (columns: seq<string>)
    ensures |columns| == |parts|
    ensures forall i :: 0 <= i < |parts| ==> columns[i] == ColumnOf(parts[i])
  {
    seq(|parts|, i requires 0 <= i < |parts| => ColumnOf(parts[i]))
  }

  /** The table of the first part that names one. */
  function TableOf(parts: seq<string>): Option<string> {
    if parts == [] then None
    else match SplitOnce(parts[0], ".")
      case Some(cut) => Some(cut.0)
      case None => TableOf(parts[1..])
  }

  lemma {:induction false} TableOfSnoc(parts: seq<string>, part: string)
    ensures TableOf(parts + [part]) ==
            if TableOf(parts).Some? then TableOf(parts)
            else match SplitOnce(part, ".") case Some(cut) => Some(cut.0) case None => None
  {
    if parts == [] {
      assert (parts + [part])[1..] == [];
    } else {
      TableOfSnoc(parts[1..], part);
      assert (parts + [part])[1..] == parts[1..] + [part];
    }
  }

  function TableColumns(rest: string): Details {
    NONE.(table := TableOf(Split(rest, COMMA)), columns := ColumnsOf(Split(rest, COMMA)))
  }

  method ParseTableColumns(rest: string) returns (details: Details)
    ensures details == TableColumns(rest)
  {
    var table: Option<string> := None;
    var columns: seq<string> := [];
    var parts := Split(rest, COMMA);
    for n := 0 to |parts|
      invariant table == TableOf(parts[..n])
      invariant columns == ColumnsOf(parts[..n])
    {
      TableOfSnoc(parts[..n], parts[n]);
      assert parts[..n + 1] == parts[..n] + [parts[n]];
      match SplitOnce(parts[n], ".") {
        case Some(cut) =>
          if table.None? { table := Some(cut.0); }
          columns := columns + [cut.1];
        case None =>
          columns := columns + [parts[n]];
      }
    }
    assert parts[..|parts|] == parts;
    details := NONE.(table := table, columns := columns);
  }

  predicate IndexForm(rest: string) {
    && INDEX <= rest
    && |rest| > |INDEX|
    && rest[|rest| - 1] == '\''
  }

  function ParseUnique(message: string): Details {
    match StripPrefix(message, UNIQUE)
    case None => NONE
    case Some(rest) =>
      if IndexForm(rest) then NONE.(indexName := Some(rest[|INDEX|..|rest| - 1])) else TableColumns(rest)
  }

  function ParsePrimaryKey(message: string): Details {
    match StripPrefix(message, PRIMARY_KEY)
    case None => NONE
    case Some(rest) => TableColumns(rest)
  }

  function ParseNotNull(message: string): Details {
    match StripPrefix(message, NOT_NULL)
    case None => NONE
    case Some(rest) => TableColumns(rest)
  }

  function ParseCheck(message: string): Details {
    match StripPrefix(message, CHECK)
    case None => NONE
    case Some(rest) => NONE.(constraintName := Some(rest))
  }

  function ParseDatatype(message: string): Details {
    match StripPrefix(message, STORE)
    case None => NONE
    case Some(rest) =>
      match SplitOnce(rest, VALUE_IN)
      case None => NONE
      case Some(src) =>
        match SplitOnce(src.1, COLUMN)
        case None => NONE
        case Some(tgt) =>
          var place := SplitOnce(tgt.1, ".");
          NONE.(table := if place.Some? then Some(place.value.0) else None,
                columns := [ColumnOf(tgt.1)],
                source := StorageClassOf(src.0),
                target := StorageClassOf(tgt.0))
  }

  function ParseDetails(code: int, message: string): Details {
    if code == CODE_UNIQUE then ParseUnique(message)
    else if code == CODE_PRIMARY_KEY then
      var d := ParsePrimaryKey(message);
      if d == NONE then ParseUnique(message) else d
    else if code == CODE_NOT_NULL then ParseNotNull(message)
    else if code == CODE_CHECK then ParseCheck(message)
    else if code == CODE_DATATYPE then ParseDatatype(message)
    else NONE
  }

  // What SQLite prints.

  function Qualified(table: string, columns: seq<string>): (parts: seq<string>)
    ensures |parts| == |columns|
    ensures forall i :: 0 <= i < |columns| ==> parts[i] == table + "." + columns[i]
  {
    seq(|columns|, i requires 0 <= i < |columns| => table + "." + columns[i])
  }

  function Listed(table: string, columns: seq<string>): string {
    Join(Qualified(table, columns), COMMA)
  }

  /** Names the message format can carry: a dot ends the table, and ", " ends a column. */
  ghost predicate Clean(table: string, columns: seq<string>) {
    && '.' !in table
    && !Occurs(table, COMMA)
    && forall i :: 0 <= i < |columns| ==> !Occurs(columns[i], COMMA)
  }

  ghost predicate Carries(d: Details, table: string, columns: seq<string>) {
    d == NONE.(table := Some(table), columns := columns)
  }

  lemma OccursApart(x: string, y: string)
    ensures Occurs(x + "." + y, COMMA) <==> Occurs(x, COMMA) || Occurs(y, COMMA)
  {
    var s := x + "." + y;
    if i: nat :| i <= |s| && COMMA <= s[i..] {
      assert s[i] == ',' && s[i + 1] == ' ';
      if i < |x| {
        assert COMMA <= x[i..];
      } else {
        assert COMMA <= y[i - |x| - 1..];
      }
    }
    if i: nat :| i <= |x| && COMMA <= x[i..] {
      assert x[i] == ',' && x[i + 1] == ' ';
      assert COMMA <= s[i..];
    }
    if i: nat :| i <= |y| && COMMA <= y[i..] {
      assert y[i] == ',' && y[i + 1] == ' ';
      assert COMMA <= s[i + |x| + 1..];
    }
  }

  /** The part in front of the first dot is the table exactly when the table has no dot of its own. */
  lemma DottedTable(table: string, column: string)
    ensures SplitOnce(table + "." + column, ".").Some?
    ensures SplitOnce(table + "." + column, ".").value.0 == table <==> '.' !in table
    ensures '.' !in table ==> SplitOnce(table + "." + column, ".").value == (table, column)
  {
    var s := table + "." + column;
    SplitOnceIsFirst(s, ".");
    assert "." <= s[|table|..];
    if '.' !in table {
      SplitOnceBehind(table, ".", column);
    } else {
      var i :| 0 <= i < |table| && table[i] == '.';
      assert "." <= s[i..];
    }
  }

  /** The round trip, both ways: a rendered list parses back to its table and columns exactly when the names
      are clean. */
  lemma ListedParsesBack(table: string, columns: seq<string>)
    requires columns != []
    ensures Carries(TableColumns(Listed(table, columns)), table, columns) <==> Clean(table, columns)
  {
    var parts := Qualified(table, columns);
    var got := Split(Join(parts, COMMA), COMMA);
    SplitJoin(parts);
    forall i | 0 <= i < |columns|
      ensures Occurs(parts[i], COMMA) <==> Occurs(table, COMMA) || Occurs(columns[i], COMMA)
    {
      OccursApart(table, columns[i]);
    }
    forall i | 0 <= i < |columns|
      ensures SplitOnce(parts[i], ".").Some?
      ensures SplitOnce(parts[i], ".").value.0 == table <==> '.' !in table
      ensures '.' !in table ==> SplitOnce(parts[i], ".").value == (table, columns[i])
    {
      DottedTable(table, columns[i]);
    }
    assert !Occurs(parts[0], COMMA) || |got| != |parts|;
    if Clean(table, columns) {
      assert got == parts;
      assert ColumnsOf(got) == columns;
    }
  }

  lemma Stripped(prefix: string, rest: string)
    ensures StripPrefix(prefix + rest, prefix) == Some(rest)
  {
  }

  /** UNIQUE: exact on every message SQLite can print for a table and its columns. It fails exactly for the
      unclean names and for a table whose rendering reads as an index message. */
  lemma UniqueParsesBack(table: string, columns: seq<string>)
    requires columns != []
    ensures Carries(ParseDetails(CODE_UNIQUE, UNIQUE + Listed(table, columns)), table, columns) <==>
            Clean(table, columns) && !IndexForm(Listed(table, columns))
  {
    Stripped(UNIQUE, Listed(table, columns));
    ListedParsesBack(table, columns);
  }

  /** When a clean rendering reads as an index message: the table starts with that text and the last column
      ends in a quote. */
  lemma IndexFormIff(table: string, columns: seq<string>)
    requires columns != [] && Clean(table, columns)
    ensures IndexForm(Listed(table, columns)) <==>
            INDEX <= table && columns[|columns| - 1] != [] &&
            columns[|columns| - 1][|columns[|columns| - 1]| - 1] == '\''
  {
    ListedStart(table, columns);
    ListedEnd(table, columns);
    var s := Listed(table, columns);
    if INDEX <= s {
      assert s[..|table|] == table;
      assert s[|table|] == '.';
      assert '.' !in INDEX && forall i :: 0 <= i < |INDEX| ==> s[i] == INDEX[i];
      assert INDEX <= table;
    }
  }

  lemma {:induction false} ListedStart(table: string, columns: seq<string>)
    requires columns != []
    ensures table + "." <= Listed(table, columns)
  {
    var parts := Qualified(table, columns);
    assert parts[0] == table + "." + columns[0];
  }

  lemma {:induction false} ListedEnd(table: string, columns: seq<string>)
    requires columns != []
    ensures var last := columns[|columns| - 1];
            && |Listed(table, columns)| > |last|
            && Listed(table, columns)[|Listed(table, columns)| - |last| - 1..] == "." + last
  {
    var parts := Qualified(table, columns);
    if |columns| > 1 {
      ListedEnd(table, columns[1..]);
      assert parts[1..] == Qualified(table, columns[1..]);
    }
  }

  /** NOT NULL has no index form: clean names are enough, and necessary. */
  lemma NotNullParsesBack(table: string, columns: seq<string>)
    requires columns != []
    ensures Carries(ParseDetails(CODE_NOT_NULL, NOT_NULL + Listed(table, columns)), table, columns) <==> Clean(table, columns)
  {
    Stripped(NOT_NULL, Listed(table, columns));
    ListedParsesBack(table, columns);
  }

  /** A PRIMARY KEY violation is reported under either heading. A message with its own heading is never read
      as UNIQUE, so it parses back exactly when its names are clean; any other message is read as UNIQUE. */
  lemma PrimaryKeyParsesBack(table: string, columns: seq<string>)
    requires columns != []
    ensures Carries(ParseDetails(CODE_PRIMARY_KEY, PRIMARY_KEY + Listed(table, columns)), table, columns) <==> Clean(table, columns)
  {
    Stripped(PRIMARY_KEY, Listed(table, columns));
    ListedParsesBack(table, columns);
  }

  lemma PrimaryKeyFallsBack(message: string)
    ensures ParseDetails(CODE_PRIMARY_KEY, message) ==
            if PRIMARY_KEY <= message then ParsePrimaryKey(message) else ParseDetails(CODE_UNIQUE, message)
  {
    if PRIMARY_KEY <= message {
      assert ParsePrimaryKey(message).columns != [];
    }
  }

  /** An index message gives the name back whatever it contains, and nothing else. */
  lemma IndexParsesBack(name: string)
    ensures ParseDetails(CODE_UNIQUE, UNIQUE + INDEX + name + "'") == NONE.(indexName := Some(name))
  {
    var rest := INDEX + name + "'";
    assert UNIQUE + INDEX + name + "'" == UNIQUE + rest;
    Stripped(UNIQUE, rest);
    assert rest[|INDEX|..|rest| - 1] == name;
  }

  lemma {:induction false} NoTable(parts: seq<string>)
    requires forall i :: 0 <= i < |parts| ==> '.' !in parts[i]
    ensures TableOf(parts) == None
  {
    if parts != [] {
      NoCut(parts[0], ".");
      NoTable(parts[1..]);
    }
  }

  /** Columns listed without a table come back as they are, with the table unknown. */
  lemma UnqualifiedParsesBack(columns: seq<string>)
    requires columns != []
    requires forall i :: 0 <= i < |columns| ==> '.' !in columns[i] && !Occurs(columns[i], COMMA)
    ensures TableColumns(Join(columns, COMMA)) == NONE.(columns := columns)
  {
    SplitJoin(columns);
    NoTable(columns);
    forall i | 0 <= i < |columns| ensures ColumnOf(columns[i]) == columns[i] { NoCut(columns[i], "."); }
    assert ColumnsOf(columns) == columns;
  }

  /** Of several tables the first one named counts, and later ones are dropped; their columns stay. */
  lemma FirstTableCounts(bare: seq<string>, table: string, column: string, rest: seq<string>)
    requires forall i :: 0 <= i < |bare| ==> '.' !in bare[i] && !Occurs(bare[i], COMMA)
    requires '.' !in table && !Occurs(table, COMMA) && !Occurs(column, COMMA)
    requires forall i :: 0 <= i < |rest| ==> !Occurs(rest[i], COMMA)
    ensures var d := TableColumns(Join(bare + [table + "." + column] + rest, COMMA));
            && d.table == Some(table) && |d.columns| == |bare| + 1 + |rest|
            && d.columns[..|bare|] == bare && d.columns[|bare|] == column
  {
    var parts := bare + [table + "." + column] + rest;
    OccursApart(table, column);
    assert forall i :: 0 <= i < |parts| ==> parts[i] == if i < |bare| then bare[i] else if i == |bare| then table + "." + column else rest[i - |bare| - 1];
    SplitJoin(parts);
    DottedTable(table, column);
    forall i | 0 <= i < |bare| ensures ColumnOf(parts[i]) == bare[i] { NoCut(bare[i], "."); }
    TableBehind(bare, table + "." + column, rest);
  }

  lemma {:induction false} TableBehind(bare: seq<string>, part: string, rest: seq<string>)
    requires forall i :: 0 <= i < |bare| ==> '.' !in bare[i]
    requires SplitOnce(part, ".").Some?
    ensures TableOf(bare + [part] + rest) == Some(SplitOnce(part, ".").value.0)
  {
    var parts := bare + [part] + rest;
    if bare == [] {
      assert parts[0] == part;
    } else {
      NoCut(bare[0], ".");
      TableBehind(bare[1..], part, rest);
      assert parts[0] == bare[0];
      assert parts[1..] == bare[1..] + [part] + rest;
    }
  }

  /** A CHECK message is its name behind the heading, verbatim, and nothing else reads as that name. */
  lemma CheckIff(message: string, name: string)
    ensures ParseDetails(CODE_CHECK, message) == NONE.(constraintName := Some(name)) <==> message == CHECK + name
  {
    if CHECK <= message { assert message == CHECK + message[|CHECK|..]; }
    Stripped(CHECK, name);
  }

  /** The six storage-class words SQLite prints, and no others. */
  lemma StorageClassIff(word: string)
    ensures StorageClassOf(word) == Some(Integer) <==> word in ["INT", "INTEGER"]
    ensures StorageClassOf(word) == Some(Real) <==> word in ["REAL"]
    ensures StorageClassOf(word) == Some(Text) <==> word in ["TEXT"]
    ensures StorageClassOf(word) == Some(Blob) <==> word in ["BLOB"]
    ensures StorageClassOf(word) == Some(Null) <==> word in ["NULL"]
    ensures StorageClassOf(word) == None <==> word !in ["INT", "INTEGER", "REAL", "TEXT", "BLOB", "NULL"]
  {
    assert |"INT"| == 3 && |"INTEGER"| == 7;
    assert "REAL"[0] == 'R' && "TEXT"[0] == 'T' && "BLOB"[0] == 'B' && "NULL"[0] == 'N';
  }

  function StoreMessage(src: string, tgt: string, place: string): string {
    STORE + (src + VALUE_IN + (tgt + COLUMN + place))
  }

  lemma StoreIsCut(src: string, tgt: string, place: string)
    requires ' ' !in src && ' ' !in tgt
    ensures ParseDatatype(StoreMessage(src, tgt, place)) ==
            NONE.(table := TableOf([place]), columns := [ColumnOf(place)],
                  source := StorageClassOf(src), target := StorageClassOf(tgt))
  {
    Stripped(STORE, src + VALUE_IN + (tgt + COLUMN + place));
    SplitOnceBehind(src, VALUE_IN, tgt + COLUMN + place);
    SplitOnceBehind(tgt, COLUMN, place);
  }

  /** A DATATYPE message: the two type words are read whatever the table and column contain, and the table and
      column come back exactly when the table has no dot. */
  lemma DatatypeParsesBack(src: string, tgt: string, table: string, column: string)
    requires ' ' !in src && ' ' !in tgt
    ensures var d := ParseDetails(CODE_DATATYPE, StoreMessage(src, tgt, table + "." + column));
            && d.source == StorageClassOf(src) && d.target == StorageClassOf(tgt)
            && d.indexName.None? && d.constraintName.None? && |d.columns| == 1
            && (d.table == Some(table) && d.columns == [column] <==> '.' !in table)
  {
    StoreIsCut(src, tgt, table + "." + column);
    DottedTable(table, column);
  }

  /** A column without a dot leaves the table unknown. */
  lemma DatatypeUnqualified(src: string, tgt: string, column: string)
    requires ' ' !in src && ' ' !in tgt && '.' !in column
    ensures ParseDetails(CODE_DATATYPE, StoreMessage(src, tgt, column)) ==
            NONE.(columns := [column], source := StorageClassOf(src), target := StorageClassOf(tgt))
  {
    StoreIsCut(src, tgt, column);
    NoCut(column, ".");
  }

  /** When anything at all is read from a message. */
  ghost predicate Recognised(code: int, message: string) {
    if code == CODE_UNIQUE then UNIQUE <= message
    else if code == CODE_PRIMARY_KEY then PRIMARY_KEY <= message || UNIQUE <= message
    else if code == CODE_NOT_NULL then NOT_NULL <= message
    else if code == CODE_CHECK then CHECK <= message
    else code == CODE_DATATYPE && exists src, tgt, place :: IsStore(message, src, tgt, place)
  }

  ghost predicate IsStore(message: string, src: string, tgt: string, place: string) {
    message == StoreMessage(src, tgt, place)
  }

  /** Nothing is read exactly when the message does not have the shape its code calls for. */
  lemma NothingIff(code: int, message: string)
    ensures ParseDetails(code, message) == NONE <==> !Recognised(code, message)
  {
    if code == CODE_DATATYPE {
      if src, tgt, place :| IsStore(message, src, tgt, place) {
        StoreIsRead(src, tgt, place);
      } else {
        UnreadIsNoStore(message);
      }
    }
  }

  lemma StoreIsRead(src: string, tgt: string, place: string)
    ensures ParseDatatype(StoreMessage(src, tgt, place)) != NONE
  {
    Stripped(STORE, src + VALUE_IN + (tgt + COLUMN + place));
    CutTwice(src, VALUE_IN, tgt, COLUMN, place);
  }

  lemma UnreadIsNoStore(message: string)
    requires forall src, tgt, place :: !IsStore(message, src, tgt, place)
    ensures ParseDatatype(message) == NONE
  {
    if STORE <= message {
      var rest := message[|STORE|..];
      SplitOnceIsFirst(rest, VALUE_IN);
      if SplitOnce(rest, VALUE_IN).Some? {
        var (src, behind) := SplitOnce(rest, VALUE_IN).value;
        SplitOnceIsFirst(behind, COLUMN);
        if SplitOnce(behind, COLUMN).Some? {
          var (tgt, place) := SplitOnce(behind, COLUMN).value;
          assert IsStore(message, src, tgt, place);
        }
      }
    }
  }
}
