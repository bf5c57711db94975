/**
 * The reader of a ca65 debug-symbol file. Every line of the form
 * `type key=value,key=value,...` becomes a record of its type, filed under
 * its `id`; the `sym` records then fill the label, constant and address
 * tables, and the `scope` records the table of scope sizes. The file itself
 * is an input: the reader is given its path and its contents.
 */
module SymbolFile {
  import opened Wrappers
  import opened Numerals
  import opened JsObjects
  import opened Text

  /** A record: its fields by name, `id` removed. */
  type Record = map<string, string>

  /** The records of one type: their ids in the order first seen, and each id's record. */
  datatype Table = Table(ids: seq<string>, records: map<string, Record>)

  /** The ids listed are exactly the ids that have a record. */
  ghost predicate TableValid(t: Table) {
    forall id :: id in t.ids <==> id in t.records
  }

  /** A line terminator: a character the `.` of a regular expression does not match. */
  predicate IsLineTerminator(c: char) {
    c == '\n' || c == '\r' || c as int == 0x2028 || c as int == 0x2029
  }

  /**
   * `trimQuotes`: s without its surrounding double quotes when it is a quote,
   * at least one character that is not a line terminator, and a quote;
   * otherwise s itself.
   */
  function TrimQuotes(s: string): string {
    if |s| >= 3 && s[0] == '"' && s[|s| - 1] == '"'
      && (forall i :: 1 <= i < |s| - 1 ==> !IsLineTerminator(s[i]))
    then s[1..|s| - 1]
    else s
  }

  /** Quoting a non-empty single-line text and trimming the quotes gives back the text. */
  lemma TrimQuotesQuoted(text: string)
    requires |text| > 0 && forall i :: 0 <= i < |text| ==> !IsLineTerminator(text[i])
    ensures TrimQuotes("\"" + text + "\"") == text
  {
    var quoted := "\"" + text + "\"";
    assert forall i :: 1 <= i < |quoted| - 1 ==> quoted[i] == text[i - 1];
    assert quoted[1..|quoted| - 1] == text;
  }

  /** TrimQuotes changes s only by removing a quote from each end. */
  lemma TrimQuotesChanges(s: string)
    ensures TrimQuotes(s) == s || (|s| >= 3 && s == "\"" + TrimQuotes(s) + "\"")
  {
    if TrimQuotes(s) != s {
      assert s == [s[0]] + s[1..|s| - 1] + [s[|s| - 1]];
    }
  }

  /** A field of a record as a string: the text `undefined` when the record lacks it. */
  function Field(r: Record, key: string): string {
    if key in r then r[key] else "undefined"
  }

  predicate IsComma(c: char) {
    c == ','
  }

  predicate IsEquals(c: char) {
    c == '='
  }

  /** The field an element `key=value` defines, when it splits at `=` into exactly two parts. */
  function Definition(element: string): Option<(string, string)> {
    var parts := Split(element, IsEquals);
    if |parts| == 2 then Some((parts[0], parts[1])) else None
  }

  /** The record that the comma-separated elements of text define. */
  function RecordOf(text: string): Record {
    PutAll(Collect(Split(text, IsComma), Definition))
  }

  /**
   * A record has a field exactly when some element holds exactly one `=` with
   * the field's name before it; the field holds what follows the `=` in the
   * last such element.
   */
  lemma RecordFields(text: string, key: string)
    ensures var elements := Split(text, IsComma); var j := LastWith(elements, Definition, key);
      (key in RecordOf(text) <==> j >= 0)
      && (j >= 0 ==> SeparatorCount(elements[j], IsEquals) == 1
                     && Split(elements[j], IsEquals)[0] == key
                     && RecordOf(text)[key] == Split(elements[j], IsEquals)[1])
  {
    var elements := Split(text, IsComma);
    CollectLastWins(elements, Definition, key);
    var j := LastWith(elements, Definition, key);
    if j >= 0 {
      SplitPieces(elements[j], IsEquals);
    }
  }

  /** A record of some type filed under some id. */
  datatype Entry = Entry(kind: string, id: string, data: Record)

  /**
   * The record a line defines: a line that splits at white space into exactly
   * a type and a list of fields, one of which is `id`.
   */
  function LineEntry(line: string): Option<Entry> {
    var elements := Split(line, IsJsWhitespace);
    if |elements| != 2 then None
    else
      var data := RecordOf(elements[1]);
      if "id" in data then Some(Entry(elements[0], data["id"], data - {"id"})) else None
  }

  /**
   * Only a line with exactly one white-space character defines a record, its
   * type before that character and its fields after it; the record keeps
   * every field but `id`.
   */
  lemma LineEntryShape(line: string)
    ensures var e := LineEntry(line); var elements := Split(line, IsJsWhitespace);
      (e.Some? ==> SeparatorCount(line, IsJsWhitespace) == 1 && e.value.kind == elements[0]
                   && "id" !in e.value.data
                   && forall k :: k in e.value.data <==> k in RecordOf(elements[1]) && k != "id")
      && (SeparatorCount(line, IsJsWhitespace) != 1 ==> e.None?)
  {
    SplitPieces(line, IsJsWhitespace);
  }

  /** The record each line defines, if any. */
  function LineEntries(lines: seq<string>): (entries: seq<Option<Entry>>)
    ensures |entries| == |lines|
  {
    seq(|lines|, i requires 0 <= i < |lines| => LineEntry(lines[i]))
  }

  /** The id and record that an entry files under the given type, if any. */
  function EntryOf(kind: string, e: Option<Entry>): Option<(string, Record)> {
    if e.Some? && e.value.kind == kind then Some((e.value.id, e.value.data)) else None
  }

  /** The pair collector of one type: function EntryOf with the type fixed. */
  function EntriesOf(kind: string): Option<Entry> -> Option<(string, Record)> {
    e => EntryOf(kind, e)
  }

  /** The table that filing the pairs in order builds. */
  function TableOf(pairs: seq<(string, Record)>): (t: Table)
    ensures TableValid(t)
  {
    Table(KeysInOrder(pairs), PutAll(pairs))
  }

  /** The table after filing one more record: a new id goes last, a known one keeps its place. */
  function Store(t: Table, id: string, data: Record): Table {
    Table(if id in t.records then t.ids else t.ids + [id], t.records[id := data])
  }

  /** The parse after one more entry: its record filed under its type and id, a new type starting empty. */
  function FileEntry(parsed: map<string, Table>, e: Option<Entry>): map<string, Table> {
    if e.None? then parsed
    else
      var t := if e.value.kind in parsed then parsed[e.value.kind] else Table([], map[]);
      parsed[e.value.kind := Store(t, e.value.id, e.value.data)]
  }

  /** The parse of a run of entries, filed one by one. */
  function FileAll(entries: seq<Option<Entry>>): map<string, Table> {
    if |entries| == 0 then map[] else FileEntry(FileAll(entries[..|entries| - 1]), entries[|entries| - 1])
  }

  /** Filing one more of the entries. */
  lemma FileAllNext(entries: seq<Option<Entry>>, i: int)
    requires 0 <= i < |entries|
    ensures FileAll(entries[..i + 1]) == FileEntry(FileAll(entries[..i]), entries[i])
  {
    assert entries[..i + 1][..i] == entries[..i];
  }

  /** The records of the file's lines, by type. */
  function Parsed(lines: seq<string>): map<string, Table> {
    FileAll(LineEntries(lines))
  }

  /** Every table of the parse lists exactly the ids it holds. */
  ghost predicate ParsedValid(parsed: map<string, Table>) {
    forall kind :: kind in parsed ==> TableValid(parsed[kind])
  }

  /** Filing a record into the table of some pairs gives the table of one more pair. */
  lemma StoreTableOf(pairs: seq<(string, Record)>, id: string, data: Record)
    ensures Store(TableOf(pairs), id, data) == TableOf(pairs + [(id, data)])
  {
    PutAllAppend(pairs, id, data);
    KeysInOrderAppend(pairs, id, data);
  }

  /**
   * Under each type, the parse holds the table of exactly the records that
   * the entries define of that type, in order; a type is present exactly
   * when some entry defines a record of it.
   */
  lemma {:induction false} FileAllByKind(entries: seq<Option<Entry>>, kind: string)
    ensures kind in FileAll(entries) <==> exists j :: 0 <= j < |entries| && EntryOf(kind, entries[j]).Some?
    ensures kind in FileAll(entries) ==> FileAll(entries)[kind] == TableOf(Collect(entries, EntriesOf(kind)))
    ensures kind !in FileAll(entries) ==> Collect(entries, EntriesOf(kind)) == []
    decreases |entries|
  {
    if |entries| > 0 {
      var prefix, e := entries[..|entries| - 1], entries[|entries| - 1];
      FileAllByKind(prefix, kind);
      CollectAppend(prefix, e, EntriesOf(kind));
      assert entries == prefix + [e];
      assert forall j :: 0 <= j < |prefix| ==> entries[j] == prefix[j];
      var pair := EntryOf(kind, e);
      assert FileAll(entries) == FileEntry(FileAll(prefix), e);
      if pair.Some? {
        var pairs := Collect(prefix, EntriesOf(kind));
        StoreTableOf(pairs, pair.value.0, pair.value.1);
        assert Collect(entries, EntriesOf(kind)) == pairs + [pair.value];
        assert kind !in FileAll(prefix) ==> Table([], map[]) == TableOf(pairs);
        assert EntryOf(kind, entries[|entries| - 1]).Some?;
      } else {
        assert Collect(entries, EntriesOf(kind)) == Collect(prefix, EntriesOf(kind));
        assert kind in FileAll(entries) <==> kind in FileAll(prefix);
        assert kind in FileAll(prefix) ==> FileAll(entries)[kind] == FileAll(prefix)[kind];
        assert (exists j :: 0 <= j < |entries| && EntryOf(kind, entries[j]).Some?)
          ==> exists j :: 0 <= j < |prefix| && EntryOf(kind, prefix[j]).Some?;
      }
    }
  }

  /**
   * The parse files a record under a type and an id exactly when some line
   * defines a record of that type with that id, and keeps the record of the
   * last such line; the type is present exactly when some line defines a
   * record of it.
   */
  lemma ParsedRecords(lines: seq<string>, kind: string, id: string)
    ensures kind in Parsed(lines) <==> exists j :: 0 <= j < |lines| && LineEntry(lines[j]).Some? && LineEntry(lines[j]).value.kind == kind
    ensures var j := LastWith(LineEntries(lines), EntriesOf(kind), id);
      kind in Parsed(lines) ==>
        (id in Parsed(lines)[kind].records <==> j >= 0)
        && (j >= 0 ==> LineEntry(lines[j]) == Some(Entry(kind, id, Parsed(lines)[kind].records[id])))
  {
    var entries := LineEntries(lines);
    FileAllByKind(entries, kind);
    CollectLastWins(entries, EntriesOf(kind), id);
    assert forall j :: 0 <= j < |lines| ==> entries[j] == LineEntry(lines[j]);
  }

  /** Every table of the parse lists exactly the ids it holds. */
  lemma ParsedTablesValid(lines: seq<string>)
    ensures ParsedValid(Parsed(lines))
  {
    forall kind | kind in Parsed(lines)
      ensures TableValid(Parsed(lines)[kind])
    {
      FileAllByKind(LineEntries(lines), kind);
    }
  }

  /** The ids a table enumerates are its ids, each once. */
  lemma EnumeratedIds(t: Table)
    requires TableValid(t)
    ensures |Enumerate(t.ids, Id)| == |t.ids|
    ensures forall i :: 0 <= i < |Enumerate(t.ids, Id)| ==> Enumerate(t.ids, Id)[i] in t.records
  {
    var order := Enumerate(t.ids, Id);
    EnumerateOrder(t.ids, Id);
    forall i | 0 <= i < |order|
      ensures order[i] in t.records
    {
      assert order[i] in multiset(t.ids);
    }
    assert |order| == |multiset(order)| == |t.ids|;
  }

  /** The records of a table in the order `for ... in` visits their ids. */
  function Records(t: Table): (records: seq<Record>)
    requires TableValid(t)
    ensures |records| == |t.ids|
  {
    var order := Enumerate(t.ids, Id);
    EnumeratedIds(t);
    seq(|order|, i requires 0 <= i < |order| => t.records[order[i]])
  }

  /** The records of one type, or none when the file has no record of it. */
  function RecordsOfKind(parsed: map<string, Table>, kind: string): seq<Record>
    requires ParsedValid(parsed)
  {
    if kind in parsed then Records(parsed[kind]) else []
  }

  /** Every record has a `name` field; reading the name of one that has none raises a TypeError. */
  predicate AllNamed(records: seq<Record>) {
    forall i :: 0 <= i < |records| ==> "name" in records[i]
  }

  /** One more named record keeps a prefix of records all named. */
  lemma AllNamedNext(records: seq<Record>, i: int)
    requires 0 <= i < |records| && AllNamed(records[..i]) && "name" in records[i]
    ensures AllNamed(records[..i + 1])
  {
    assert forall j :: 0 <= j < i ==> records[..i + 1][j] == records[..i][j];
  }

  /** The name of a symbol: its `name` field without quotes. */
  function SymbolName(r: Record): string
    requires "name" in r
  {
    TrimQuotes(r["name"])
  }

  /** The value of a symbol: its `val` field read as hexadecimal. */
  function SymbolValue(r: Record): JsNumber {
    ParseInt(Field(r, "val"), 16)
  }

  /** The label a `lab` symbol defines: its name at its value. */
  function LabelOf(r: Record): Option<(JsNumber, string)> {
    if "name" in r && Field(r, "type") == "lab" then Some((SymbolValue(r), SymbolName(r))) else None
  }

  /** The address a `lab` symbol defines: its value under its name. */
  function AddressOf(r: Record): Option<(string, JsNumber)> {
    if "name" in r && Field(r, "type") == "lab" then Some((SymbolName(r), SymbolValue(r))) else None
  }

  /** The constant an `equ` symbol defines: its name at its value. */
  function ConstantOf(r: Record): Option<(JsNumber, string)> {
    if "name" in r && Field(r, "type") == "equ" then Some((SymbolValue(r), SymbolName(r))) else None
  }

  /** The size a scope defines: its `size` field read as decimal, under its name. */
  function ScopeOf(r: Record): Option<(string, JsNumber)> {
    if "name" in r then Some((TrimQuotes(r["name"]), ParseInt(Field(r, "size"), 10))) else None
  }

  /** The label, constant and address tables, and the order in which values first got labels. */
  datatype SymbolTables = SymbolTables(
    labels: map<JsNumber, string>, labelOrder: seq<JsNumber>,
    constants: map<JsNumber, string>, addresses: map<string, JsNumber>)

  /**
   * The tables after one more named symbol: a `lab` symbol labels its value
   * and gives its name that address, an `equ` symbol names its value as a
   * constant, and any other type changes nothing.
   */
  function AssignSymbol(t: SymbolTables, symbol: Record): SymbolTables
    requires "name" in symbol
  {
    var name := SymbolName(symbol);
    var value := SymbolValue(symbol);
    var kind := Field(symbol, "type");
    if kind == "lab" then
      t.(labels := t.labels[value := name],
         labelOrder := if value in t.labels then t.labelOrder else t.labelOrder + [value],
         addresses := t.addresses[name := value])
    else if kind == "equ" then t.(constants := t.constants[value := name])
    else t
  }

  /** The tables after the named symbols, one by one, from empty tables. */
  function AssignAll(symbols: seq<Record>): SymbolTables
    requires AllNamed(symbols)
  {
    if |symbols| == 0 then SymbolTables(map[], [], map[], map[])
    else AssignSymbol(AssignAll(symbols[..|symbols| - 1]), symbols[|symbols| - 1])
  }

  /** The tables the pairs that the symbols define fill, each assigned in order. */
  function CollectedTables(symbols: seq<Record>): SymbolTables {
    SymbolTables(
      PutAll(Collect(symbols, LabelOf)), KeysInOrder(Collect(symbols, LabelOf)),
      PutAll(Collect(symbols, ConstantOf)), PutAll(Collect(symbols, AddressOf)))
  }

  /** Assigning one more named symbol adds the pairs it defines. */
  lemma AssignSymbolCollects(done: seq<Record>, symbol: Record)
    requires "name" in symbol
    ensures AssignSymbol(CollectedTables(done), symbol) == CollectedTables(done + [symbol])
  {
    var name, value := SymbolName(symbol), SymbolValue(symbol);
    var kind := Field(symbol, "type");
    if kind == "lab" {
      CollectPut(done, symbol, LabelOf, value, name);
      CollectPut(done, symbol, AddressOf, name, value);
      CollectSkip(done, symbol, ConstantOf);
    } else if kind == "equ" {
      CollectSkip(done, symbol, LabelOf);
      CollectSkip(done, symbol, AddressOf);
      CollectPut(done, symbol, ConstantOf, value, name);
    } else {
      CollectSkip(done, symbol, LabelOf);
      CollectSkip(done, symbol, AddressOf);
      CollectSkip(done, symbol, ConstantOf);
    }
  }

  /**
   * Assigning the symbols one by one fills each table with the pairs the
   * symbols define of it, assigned in order.
   */
  lemma {:induction false} AssignAllCollects(symbols: seq<Record>)
    requires AllNamed(symbols)
    ensures AssignAll(symbols) == CollectedTables(symbols)
    decreases |symbols|
  {
    if |symbols| > 0 {
      var done, symbol := symbols[..|symbols| - 1], symbols[|symbols| - 1];
      assert symbols == done + [symbol];
      AssignAllCollects(done);
      AssignSymbolCollects(done, symbol);
    }
  }

  /**
   * The tables the symbols fill: a value has a label exactly when some `lab`
   * symbol has that value, and the label is the name of the last of them;
   * likewise for constants and `equ` symbols, and for addresses, under the
   * names of `lab` symbols. Symbols of other types fill nothing.
   */
  lemma LastSymbolWins(records: seq<Record>, value: JsNumber, name: string)
    ensures var j := LastWith(records, LabelOf, value);
      (value in PutAll(Collect(records, LabelOf)) <==> j >= 0)
      && (j >= 0 ==> Field(records[j], "type") == "lab" && SymbolValue(records[j]) == value
                     && PutAll(Collect(records, LabelOf))[value] == SymbolName(records[j]))
    ensures var j := LastWith(records, ConstantOf, value);
      (value in PutAll(Collect(records, ConstantOf)) <==> j >= 0)
      && (j >= 0 ==> Field(records[j], "type") == "equ" && SymbolValue(records[j]) == value
                     && PutAll(Collect(records, ConstantOf))[value] == SymbolName(records[j]))
    ensures var j := LastWith(records, AddressOf, name);
      (name in PutAll(Collect(records, AddressOf)) <==> j >= 0)
      && (j >= 0 ==> Field(records[j], "type") == "lab" && SymbolName(records[j]) == name
                     && PutAll(Collect(records, AddressOf))[name] == SymbolValue(records[j]))
  {
    CollectLastWins(records, LabelOf, value);
    CollectLastWins(records, ConstantOf, value);
    CollectLastWins(records, AddressOf, name);
  }

  /**
   * A scope name has a size exactly when some scope has that name without
   * quotes, and the size is the last such scope's `size` read as decimal.
   */
  lemma ScopeSizes(records: seq<Record>, name: string)
    ensures var j := LastWith(records, ScopeOf, name);
      (name in PutAll(Collect(records, ScopeOf)) <==> j >= 0)
      && (j >= 0 ==> "name" in records[j] && TrimQuotes(records[j]["name"]) == name
                     && PutAll(Collect(records, ScopeOf))[name] == ParseInt(Field(records[j], "size"), 10))
  {
    CollectLastWins(records, ScopeOf, name);
  }

  /** Assigning one more of the symbols. */
  lemma AssignAllNext(symbols: seq<Record>, i: int)
    requires 0 <= i < |symbols| && AllNamed(symbols[..i]) && "name" in symbols[i]
    ensures AllNamed(symbols[..i + 1])
    ensures AssignAll(symbols[..i + 1]) == AssignSymbol(AssignAll(symbols[..i]), symbols[i])
  {
    assert symbols[..i + 1][..i] == symbols[..i];
  }

  /** The symbol tables of a debug-symbol file. */
  class Symbols {
    /** The records of the file, by type. */
    var parsed: map<string, Table>
    /** Label names by value. */
    var labels: map<JsNumber, string>
    /** The values that have labels, in the order their labels were first assigned. */
    var labelOrder: seq<JsNumber>
    /** Constant names by value. */
    var constants: map<JsNumber, string>
    /** Scope sizes by name. */
    var scopes: map<string, JsNumber>
    /** Label values by name. */
    var addresses: map<string, JsNumber>

    /** The tables of no file: all empty. */
    constructor ()
      ensures parsed == map[] && labels == map[] && labelOrder == [] && constants == map[]
      ensures scopes == map[] && addresses == map[]
    {
      parsed := map[];
      labels := map[];
      labelOrder := [];
      constants := map[];
      scopes := map[];
      addresses := map[];
    }

    /** Files the record of one line, if it defines one. */
    method FileLine(line: string)
      modifies `parsed
      ensures parsed == FileEntry(old(parsed), LineEntry(line))
    {
      var lineElements := Split(line, IsJsWhitespace);
      if |lineElements| == 2 {
        var kind := lineElements[0];
        var data := ParseRecord(lineElements[1]);
        if "id" in data {
          if kind !in parsed {
            parsed := parsed[kind := Table([], map[])];
          }
          var id := data["id"];
          data := data - {"id"};
          parsed := parsed[kind := Store(parsed[kind], id, data)];
        }
      }
    }

    /** Files the record of every line of the contents, by type and id. */
    method Parse(contents: string)
      requires parsed == map[]
      modifies `parsed
      ensures parsed == Parsed(Lines(contents))
    {
      var lines := Lines(contents);
      ghost var entries := LineEntries(lines);
      var i := 0;
      assert lines[..0] == [];
      while i < |lines|
        invariant 0 <= i <= |lines|
        invariant parsed == FileAll(entries[..i])
      {
        FileLine(lines[i]);
        FileAllNext(entries, i);
        i := i + 1;
      }
      assert entries[..i] == entries;
    }

    /** Assigns the symbols' labels, constants and addresses; false when a symbol has no name. */
    method AssignSymbols() returns (ok: bool)
      requires ParsedValid(parsed)
      requires labels == map[] && labelOrder == [] && constants == map[] && addresses == map[]
      modifies this
      ensures parsed == old(parsed) && scopes == old(scopes)
      ensures var symbols := RecordsOfKind(parsed, "sym");
        ok == AllNamed(symbols)
        && (ok ==> SymbolTables(labels, labelOrder, constants, addresses) == AssignAll(symbols))
    {
      ok := AssignEachSymbol(RecordsOfKind(parsed, "sym"));
    }

    /** One step of the loop of AssignSymbols: the tables after one more named symbol. */
    method AssignSymbolOf(symbol: Record)
      requires "name" in symbol
      modifies `labels, `labelOrder, `constants, `addresses
      ensures SymbolTables(labels, labelOrder, constants, addresses)
        == AssignSymbol(old(SymbolTables(labels, labelOrder, constants, addresses)), symbol)
    {
        var name := TrimQuotes(symbol["name"]);
        var parsedNumber := ParseInt(Field(symbol, "val"), 16);
        var kind := Field(symbol, "type");
        if kind == "lab" {
          labelOrder := if parsedNumber in labels then labelOrder else labelOrder + [parsedNumber];
          labels := labels[parsedNumber := name];
          addresses := addresses[name := parsedNumber];
        } else if kind == "equ" {
          constants := constants[parsedNumber := name];
        }
    }

    /** The loop of AssignSymbols over the symbols in the order they are visited. */
    method AssignEachSymbol(symbols: seq<Record>) returns (ok: bool)
      requires labels == map[] && labelOrder == [] && constants == map[] && addresses == map[]
      modifies `labels, `labelOrder, `constants, `addresses
      ensures ok == AllNamed(symbols)
      ensures ok ==> SymbolTables(labels, labelOrder, constants, addresses) == AssignAll(symbols)
    {
      var i := 0;
      ok := true;
      while i < |symbols|
        invariant 0 <= i <= |symbols|
        invariant AllNamed(symbols[..i])
        invariant SymbolTables(labels, labelOrder, constants, addresses) == AssignAll(symbols[..i])
      {
        var symbol := symbols[i];
        if "name" !in symbol {
          ok := false;
          return;
        }
        AssignSymbolOf(symbol);
        AssignAllNext(symbols, i);
        i := i + 1;
      }
      assert symbols[..i] == symbols;
    }

    /** Assigns every scope's size under its name; false when a scope has no name. */
    method AssignScopes() returns (ok: bool)
      requires ParsedValid(parsed)
      requires scopes == map[]
      modifies this
      ensures parsed == old(parsed) && labels == old(labels) && labelOrder == old(labelOrder)
      ensures constants == old(constants) && addresses == old(addresses)
      ensures var records := RecordsOfKind(parsed, "scope");
        ok == AllNamed(records) && (ok ==> scopes == PutAll(Collect(records, ScopeOf)))
    {
      ok := AssignEachScope(RecordsOfKind(parsed, "scope"));
    }

    /** The loop of AssignScopes over the scopes in the order they are visited. */
    method AssignEachScope(parsedScopes: seq<Record>) returns (ok: bool)
      requires scopes == map[]
      modifies `scopes
      ensures ok == AllNamed(parsedScopes) && (ok ==> scopes == PutAll(Collect(parsedScopes, ScopeOf)))
    {
      var i := 0;
      ok := true;
      while i < |parsedScopes|
        invariant 0 <= i <= |parsedScopes|
        invariant AllNamed(parsedScopes[..i])
        invariant scopes == PutAll(Collect(parsedScopes[..i], ScopeOf))
      {
        var parsedScope := parsedScopes[i];
        if "name" !in parsedScope {
          ok := false;
          return;
        }
        var name := TrimQuotes(parsedScope["name"]);
        var size := ParseInt(Field(parsedScope, "size"), 10);
        scopes := scopes[name := size];
        CollectNextPut(parsedScopes, i, ScopeOf, name, size);
        AllNamedNext(parsedScopes, i);
        i := i + 1;
      }
      assert parsedScopes[..i] == parsedScopes;
    }
  }

  /** The record that the comma-separated elements of text define, built element by element. */
  method ParseRecord(text: string) returns (data: Record)
    ensures data == RecordOf(text)
  {
    var dataElements := Split(text, IsComma);
    data := map[];
    var j := 0;
    assert dataElements[..0] == [];
    while j < |dataElements|
      invariant 0 <= j <= |dataElements|
      invariant data == PutAll(Collect(dataElements[..j], Definition))
    {
      var definition := Split(dataElements[j], IsEquals);
      if |definition| == 2 {
        data := data[definition[0] := definition[1]];
        CollectNextPut(dataElements, j, Definition, definition[0], definition[1]);
      } else {
        CollectNextSkip(dataElements, j, Definition);
      }
      j := j + 1;
    }
    assert dataElements[..j] == dataElements;
  }

  /**
   * The symbol tables of the file at `path`, whose contents are given: with
   * an empty path, all tables are empty; otherwise the file's symbols and
   * scopes fill them, and a symbol or scope without a name makes the
   * construction fail.
   */
  method Load(path: string, contents: string) returns (r: Option<Symbols>)
    ensures |path| == 0 ==> r.Some? && r.value.labels == map[] && r.value.constants == map[]
                            && r.value.scopes == map[] && r.value.addresses == map[]
                            && r.value.labelOrder == [] && r.value.parsed == map[]
    ensures |path| > 0 ==>
      var parsed := Parsed(Lines(contents));
      ParsedValid(parsed)
      && (r.Some? <==> AllNamed(RecordsOfKind(parsed, "sym")) && AllNamed(RecordsOfKind(parsed, "scope")))
      && (r.Some? ==>
            var symbols := RecordsOfKind(parsed, "sym");
            r.value.parsed == parsed
            && r.value.labels == PutAll(Collect(symbols, LabelOf))
            && r.value.labelOrder == KeysInOrder(Collect(symbols, LabelOf))
            && r.value.constants == PutAll(Collect(symbols, ConstantOf))
            && r.value.addresses == PutAll(Collect(symbols, AddressOf))
            && r.value.scopes == PutAll(Collect(RecordsOfKind(parsed, "scope"), ScopeOf)))
    ensures r.Some? ==> fresh(r.value)
  {
    var s := new Symbols();
    if |path| > 0 {
      s.Parse(contents);
      ParsedTablesValid(Lines(contents));
      var ok := s.AssignSymbols();
      if !ok {
        return None;
      }
      AssignAllCollects(RecordsOfKind(s.parsed, "sym"));
      ok := s.AssignScopes();
      if !ok {
        return None;
      }
    }
    r := Some(s);
  }
}
