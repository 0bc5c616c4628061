/**
 * Row derivation for one annotated document: the publication date taken from
 * the DOI (`try_parse_dt`), the disease x variable rows of `to_rows` and
 * `to_rows_es`, their deduplication through `hashabledict`, and the
 * tab-separated line a row is written as.
 */
module Rows {
  import opened Wrappers
  import opened JsonData
  import opened Utils
  import Strings
  import Dates

  /** The external date parser: a date, or nothing when it cannot read the text. */
  type Parser = string -> Option<Dates.ValidDate>

  /** `next(iter(doi.split("/")[1:]), None)`: the second "/"-component, if any. */
  function DateComponent(doi: string): (r: Option<string>)
    ensures r.Some? <==> '/' in doi
    ensures r.Some? ==> '/' !in r.value
  {
    var parts := Strings.Split(doi, '/');
    Strings.SplitHasSeveralParts(doi, '/');
    if |parts| >= 2 then Some(parts[1]) else None
  }

  /** The component is the text between the first and the second "/". */
  lemma DateComponentOf(a: string, b: string, tail: string)
    requires '/' !in a && '/' !in b
    ensures DateComponent(a + "/" + b) == Some(b)
    ensures DateComponent(a + "/" + b + "/" + tail) == Some(b)
  {
    DateComponentOfPair(a, b);
    DateComponentOfTriple(a, b, tail);
  }

  lemma DateComponentOfPair(a: string, b: string)
    requires '/' !in a && '/' !in b
    ensures DateComponent(a + "/" + b) == Some(b)
  {
    Strings.SplitNoSep(b, '/');
    Strings.SplitCons(a, '/', b);
    assert Strings.Split(a + "/" + b, '/') == [a, b];
  }

  lemma DateComponentOfTriple(a: string, b: string, tail: string)
    requires '/' !in a && '/' !in b
    ensures DateComponent(a + "/" + b + "/" + tail) == Some(b)
  {
    var rest := b + ['/'] + tail;
    assert a + "/" + b + "/" + tail == a + ['/'] + rest;
    Strings.SplitCons(a, '/', rest);
    Strings.SplitCons(b, '/', tail);
    assert Strings.Split(a + ['/'] + rest, '/')[1] == b;
  }

  /**
   * The text handed to the date parser: the second "/"-component with
   * everything from its last "." cut off, or nothing when that component
   * is missing or empty.
   */
  function DateToken(doi: string): (r: Option<string>)
    ensures DateComponent(doi).None? || DateComponent(doi) == Some("") ==> r.None?
    ensures r.Some? ==> DateComponent(doi).Some? && DateComponent(doi).value != "" &&
                        r.value == Strings.BeforeLast(DateComponent(doi).value, '.')
  {
    match DateComponent(doi)
    case None => None
    case Some(c) => if c == "" then None else Some(Strings.BeforeLast(c, '.'))
  }

  /**
   * `try_parse_dt(doi)`: the ISO date the parser reads from the DOI's token,
   * or "" when there is no token or the parser reads nothing. It never fails.
   */
  function TryParseDt(doi: string, parse: Parser): (r: string)
    ensures r == "" <==> DateToken(doi).None? || parse(DateToken(doi).value).None?
    ensures r != "" ==> r == Dates.IsoDate(parse(DateToken(doi).value).value)
  {
    match DateToken(doi)
    case None => ""
    case Some(token) =>
      match parse(token)
      case None => ""
      case Some(d) => Dates.IsoDate(d)
  }

  /** A non-empty result names exactly the date the parser returned for the token. */
  lemma TryParseDtRoundTrip(doi: string, parse: Parser)
    requires TryParseDt(doi, parse) != ""
    ensures Dates.ParseIsoDate(TryParseDt(doi, parse)) == parse(DateToken(doi).value)
  {
    Dates.IsoDateRoundTrip(parse(DateToken(doi).value).value);
  }

  /**
   * For `prefix/date.serial`, the parser gets `date`: the second component
   * up to its last ".".
   */
  lemma DateTokenOf(prefix: string, date: string, serial: string)
    requires '/' !in prefix && '/' !in date && '/' !in serial && '.' !in serial
    ensures DateToken(prefix + "/" + date + "." + serial) == Some(date)
  {
    var component := date + "." + serial;
    assert '/' !in component;
    DateComponentOf(prefix, component, "");
    assert prefix + "/" + date + "." + serial == prefix + "/" + component;
    Strings.BeforeLastOf(date, '.', serial);
    assert date + ['.'] + serial == component;
  }

  /**
   * For `prefix/token` with no "." in the token, the parser gets the whole
   * second component.
   */
  lemma DateTokenWithoutDot(prefix: string, component: string)
    requires '/' !in prefix && '/' !in component && '.' !in component && component != ""
    ensures DateToken(prefix + "/" + component) == Some(component)
  {
    DateComponentOf(prefix, component, "");
  }

  /**
   * `try_parse_dt` of `prefix/date.serial` (as in "10.1101/2020.03.06.20031955"):
   * the ISO form of what the parser reads from `date`, or "".
   */
  lemma TryParseDtOf(prefix: string, date: string, serial: string, parse: Parser)
    requires '/' !in prefix && '/' !in date && '/' !in serial && '.' !in serial
    ensures TryParseDt(prefix + "/" + date + "." + serial, parse) ==
            match parse(date) case None => "" case Some(d) => Dates.IsoDate(d)
  {
    DateTokenOf(prefix, date, serial);
  }

  /** One variable match of the annotator: pattern id, span, its numeric tokens, its sentence. */
  datatype VariableMatch = VariableMatch(matchedOn: string, text: string, numbers: seq<string>, sentence: string)

  /** One disease match of the annotator. */
  datatype DiseaseMatch = DiseaseMatch(matchedOn: string, text: string, sentence: string)

  /** The `extracted` structure the page processor attaches to a document. */
  datatype Extracted = Extracted(variables: seq<VariableMatch>, diseases: seq<DiseaseMatch>)

  /**
   * An output row, the `hashabledict` built by to_rows: one field per key.
   * `gddid` is None in the rows of to_rows_es, whose dicts lack that key.
   * Two rows are equal exactly when the dicts hold the same keys with the
   * same values.
   */
  datatype Row = Row(disease: string, gddid: Option<Json>, url: Json, doi: string, year: Json,
                     dt: string, variable: string, estimate: string, sentence: string)

  /** The keys of a row's dict. */
  function RowKeys(r: Row): (keys: set<string>)
    ensures "disease" in keys && "sentence" in keys
    ensures "gddid" in keys <==> r.gddid.Some?
  {
    {"disease", "url", "doi", "year", "dt", "variable", "estimate", "sentence"} +
    (if r.gddid.Some? then {"gddid"} else {})
  }

  /** `row.get(k, "")`. */
  function RowGet(r: Row, k: string): (v: Json)
    ensures k !in RowKeys(r) ==> v == JStr("")
  {
    match k
    case "disease" => JStr(r.disease)
    case "gddid" => if r.gddid.Some? then r.gddid.value else JStr("")
    case "url" => r.url
    case "doi" => JStr(r.doi)
    case "year" => r.year
    case "dt" => JStr(r.dt)
    case "variable" => JStr(r.variable)
    case "estimate" => JStr(r.estimate)
    case "sentence" => JStr(r.sentence)
    case _ => JStr("")
  }

  /** The document-level fields every row of a document shares. */
  datatype Common = Common(url: Json, gddid: Option<Json>, doi: string, year: Json, dt: string)

  function EncodeVariable(v: VariableMatch): Json
  {
    JObj(map["matched_on" := JStr(v.matchedOn), "match" := JStr(v.text),
             "n" := JList(seq(|v.numbers|, i requires 0 <= i < |v.numbers| => JStr(v.numbers[i]))),
             "sent" := JStr(v.sentence)])
  }

  function EncodeDisease(d: DiseaseMatch): Json
  {
    JObj(map["matched_on" := JStr(d.matchedOn), "match" := JStr(d.text), "sent" := JStr(d.sentence)])
  }

  /** The document after `o["extracted"] = {...}`. */
  function WithExtracted(o: map<string, Json>, ex: Extracted): (m: Json)
    ensures m.JObj? && Truthy(m) && "extracted" in m.fields
  {
    var vs := JList(seq(|ex.variables|, i requires 0 <= i < |ex.variables| => EncodeVariable(ex.variables[i])));
    var ds := JList(seq(|ex.diseases|, i requires 0 <= i < |ex.diseases| => EncodeDisease(ex.diseases[i])));
    var fields := o["extracted" := JObj(map["variables" := vs, "diseases" := ds])];
    assert "extracted" in fields;
    assert fields != map[];
    JObj(fields)
  }

  /**
   * The document-level fields every row shares, read in the order the
   * source reads them: the first link's url, the gddid (to_rows only), the
   * first identifier's id as the DOI, the year and the date from the DOI.
   */
  function CommonFields(o: map<string, Json>, ex: Extracted, parse: Parser, withGddid: bool): (r: Result<Common, Exc>)
    ensures r.Ok? ==> (r.value.gddid.Some? <==> withGddid)
    ensures r.Ok? ==> r.value.dt == TryParseDt(r.value.doi, parse)
  {
    var m := WithExtracted(o, ex);
    var links :- DeepGet(m, Keys(["bibjson", "link"]), JNull);
    var link :- First(links);
    var url :- Field(link, "url");
    var gddid :- if withGddid then DeepGet(m, Keys(["bibjson", "_gddid"]), JNull) else Ok(JNull);
    var ids :- DeepGet(m, Keys(["bibjson", "identifier"]), JNull);
    var id :- First(ids);
    var doi :- Field(id, "id");
    var year :- DeepGet(m, Keys(["bibjson", "year"]), JStr(""));
    if !doi.JStr? then Err(AttributeError)
    else Ok(Common(url, if withGddid then Some(gddid) else None, doi.s, year, TryParseDt(doi.s, parse)))
  }

  /** `next(iter(v.get("n", [])), "")`: the first numeric token, or "". */
  function Estimate(v: VariableMatch): (e: string)
    ensures v.numbers == [] ==> e == ""
    ensures v.numbers != [] ==> e == v.numbers[0]
  {
    if |v.numbers| > 0 then v.numbers[0] else ""
  }

  /** The row for one disease and one variable match. */
  function MakeRow(common: Common, d: string, v: VariableMatch): (r: Row)
    ensures r.disease == d && r.variable == v.matchedOn
    ensures r.estimate == Estimate(v) && r.sentence == v.sentence
    ensures r.url == common.url && r.gddid == common.gddid && r.doi == common.doi
    ensures r.year == common.year && r.dt == common.dt
  {
    Row(d, common.gddid, common.url, common.doi, common.year, common.dt, v.matchedOn, Estimate(v), v.sentence)
  }

  predicate NoDuplicates<T(==)>(s: seq<T>)
  {
    forall i, j :: 0 <= i < j < |s| ==> s[i] != s[j]
  }

  /** The distinct `matched_on` ids of the disease matches. */
  function DiseaseNames(ds: seq<DiseaseMatch>): set<string>
  {
    set d | d in ds :: d.matchedOn
  }

  /** `set(... matched_on ...)`, iterated in first-occurrence order. */
  function DistinctNames(ds: seq<DiseaseMatch>): (r: seq<string>)
    ensures NoDuplicates(r)
    ensures forall x :: x in r <==> x in DiseaseNames(ds)
  {
    if ds == [] then []
    else
      var prefix := ds[..|ds| - 1];
      var r := DistinctNames(prefix);
      assert ds == prefix + [ds[|ds| - 1]];
      if ds[|ds| - 1].matchedOn in r then r else r + [ds[|ds| - 1].matchedOn]
  }

  /** The inner loop of to_rows: one row per variable match, in order. */
  function RowsOf(common: Common, d: string, vs: seq<VariableMatch>): (r: seq<Row>)
    ensures |r| == |vs|
    ensures forall k :: 0 <= k < |vs| ==> r[k] == MakeRow(common, d, vs[k])
  {
    if vs == [] then [] else RowsOf(common, d, vs[..|vs| - 1]) + [MakeRow(common, d, vs[|vs| - 1])]
  }

  /** The nested loops of to_rows: every disease with every variable match. */
  function Product(common: Common, ds: seq<string>, vs: seq<VariableMatch>): (r: seq<Row>)
    ensures vs == [] ==> r == []
  {
    if ds == [] then [] else Product(common, ds[..|ds| - 1], vs) + RowsOf(common, ds[|ds| - 1], vs)
  }

  /** The product holds one row per disease and variable match. */
  lemma {:induction false} ProductLength(common: Common, ds: seq<string>, vs: seq<VariableMatch>)
    ensures |Product(common, ds, vs)| == |ds| * |vs|
  {
    if ds != [] {
      ProductLength(common, ds[..|ds| - 1], vs);
      assert |ds| * |vs| == (|ds| - 1) * |vs| + |vs|;
    }
  }

  /** Each variable match gives its row for disease d. */
  lemma RowsOfHas(common: Common, d: string, vs: seq<VariableMatch>, v: VariableMatch)
    requires v in vs
    ensures MakeRow(common, d, v) in RowsOf(common, d, vs)
  {
    var k :| 0 <= k < |vs| && vs[k] == v;
    assert RowsOf(common, d, vs)[k] == MakeRow(common, d, v);
  }

  /** Every listed disease with every variable match is a row of the product. */
  lemma {:induction false} ProductHas(common: Common, ds: seq<string>, vs: seq<VariableMatch>, d: string, v: VariableMatch)
    requires d in ds && v in vs
    ensures MakeRow(common, d, v) in Product(common, ds, vs)
  {
    var prefix := ds[..|ds| - 1];
    var last := ds[|ds| - 1];
    if d == last {
      RowsOfHas(common, d, vs, v);
    } else {
      assert ds == prefix + [last];
      assert d in prefix;
      ProductHas(common, prefix, vs, d, v);
    }
  }

  /** Every row of the product is made of one listed disease and one variable match. */
  lemma {:induction false} ProductOnly(common: Common, ds: seq<string>, vs: seq<VariableMatch>, r: Row)
    requires r in Product(common, ds, vs)
    ensures exists d, v :: d in ds && v in vs && r == MakeRow(common, d, v)
  {
    var prefix := ds[..|ds| - 1];
    var last := ds[|ds| - 1];
    var rowsLast := RowsOf(common, last, vs);
    assert ds == prefix + [last];
    assert Product(common, ds, vs) == Product(common, prefix, vs) + rowsLast;
    if r in rowsLast {
      var k :| 0 <= k < |rowsLast| && rowsLast[k] == r;
      assert last in ds && vs[k] in vs && r == MakeRow(common, last, vs[k]);
    } else {
      ProductOnly(common, prefix, vs, r);
      var d, v :| d in prefix && v in vs && r == MakeRow(common, d, v);
      assert d in ds;
    }
  }

  /** A row is in the product exactly when it is made of one listed disease and one variable match. */
  lemma ProductMembers(common: Common, ds: seq<string>, vs: seq<VariableMatch>, r: Row)
    ensures r in Product(common, ds, vs) <==> exists d, v :: d in ds && v in vs && r == MakeRow(common, d, v)
  {
    if r in Product(common, ds, vs) {
      ProductOnly(common, ds, vs, r);
    }
    if exists d, v :: d in ds && v in vs && r == MakeRow(common, d, v) {
      var d, v :| d in ds && v in vs && r == MakeRow(common, d, v);
      ProductHas(common, ds, vs, d, v);
    }
  }

  /** `hash(hashabledict)`: the hash of the row's key set only. */
  function HashKey(r: Row): (k: set<string>)
    ensures forall r2: Row :: r2.gddid.Some? == r.gddid.Some? ==> RowKeys(r2) == k
  {
    RowKeys(r)
  }

  /**
   * Adding a row to a Python set: it is already there when some stored row
   * has the same hash and compares equal.
   */
  function SetAdd(table: seq<Row>, r: Row): (t: seq<Row>)
    ensures forall x :: x in t <==> x in table || x == r
    ensures NoDuplicates(table) ==> NoDuplicates(t)
  {
    if exists i :: 0 <= i < |table| && HashKey(table[i]) == HashKey(r) && table[i] == r
    then table else table + [r]
  }

  /** Because equal rows have equal key sets, the hash test decides nothing: membership is full equality. */
  lemma SetAddByEquality(table: seq<Row>, r: Row)
    ensures SetAdd(table, r) == if r in table then table else table + [r]
  {
    if r in table {
      var i :| 0 <= i < |table| && table[i] == r;
      assert HashKey(table[i]) == HashKey(r);
    }
  }

  /** `list(set(rows))`: each distinct row once (kept in first-occurrence order). */
  function Dedupe(rows: seq<Row>): (r: seq<Row>)
    ensures NoDuplicates(r)
    ensures forall x :: x in r <==> x in rows
    ensures |r| <= |rows|
  {
    if rows == [] then []
    else
      var prefix := rows[..|rows| - 1];
      var last := rows[|rows| - 1];
      assert rows == prefix + [last];
      SetAddByEquality(Dedupe(prefix), last);
      SetAdd(Dedupe(prefix), last)
  }

  /** Rows that share their keys but differ in a value are both kept. */
  lemma DedupeKeepsSameKeyRows(r1: Row, r2: Row)
    requires HashKey(r1) == HashKey(r2) && r1 != r2
    ensures Dedupe([r1, r2]) == [r1, r2]
  {
    assert [r1, r2][..1] == [r1];
    assert [r1][..0] == [];
    SetAddByEquality([], r1);
    SetAddByEquality([r1], r2);
  }

  /** What `to_rows` (withGddid) or `to_rows_es` returns for a document. */
  function RowsFor(o: map<string, Json>, ex: Extracted, parse: Parser, withGddid: bool): (r: Result<seq<Row>, Exc>)
    ensures r.Ok? <==> CommonFields(o, ex, parse, withGddid).Ok?
    ensures r.Err? ==> r.error == CommonFields(o, ex, parse, withGddid).error
    ensures r.Ok? ==> NoDuplicates(r.value)
  {
    var common :- CommonFields(o, ex, parse, withGddid);
    Ok(Dedupe(Product(common, DistinctNames(ex.diseases), ex.variables)))
  }

  /** The number of distinct elements of a duplicate-free sequence is its length. */
  lemma {:induction false} DistinctCount<T>(s: seq<T>)
    requires NoDuplicates(s)
    ensures |set x | x in s| == |s|
  {
    if s != [] {
      var prefix := s[..|s| - 1];
      assert s == prefix + [s[|s| - 1]];
      DistinctCount(prefix);
      assert (set x | x in s) == (set x | x in prefix) + {s[|s| - 1]};
    }
  }

  /**
   * The rows of a document: each is made of one distinct disease id and
   * one variable match over the shared document fields, and every such
   * combination is present.
   */
  lemma RowsForMembers(o: map<string, Json>, ex: Extracted, parse: Parser, withGddid: bool, r: Row)
    requires RowsFor(o, ex, parse, withGddid).Ok?
    ensures CommonFields(o, ex, parse, withGddid).Ok?
    ensures r in RowsFor(o, ex, parse, withGddid).value <==>
            exists d, v :: d in DiseaseNames(ex.diseases) && v in ex.variables &&
                           r == MakeRow(CommonFields(o, ex, parse, withGddid).value, d, v)
  {
    var common := CommonFields(o, ex, parse, withGddid).value;
    var names := DistinctNames(ex.diseases);
    ProductMembers(common, names, ex.variables, r);
  }

  /**
   * No two rows of a document are equal, and there are at most
   * |distinct diseases| x |variables| of them.
   */
  lemma RowsForBound(o: map<string, Json>, ex: Extracted, parse: Parser, withGddid: bool)
    requires RowsFor(o, ex, parse, withGddid).Ok?
    ensures NoDuplicates(RowsFor(o, ex, parse, withGddid).value)
    ensures |RowsFor(o, ex, parse, withGddid).value| <= |DiseaseNames(ex.diseases)| * |ex.variables|
  {
    var names := DistinctNames(ex.diseases);
    DistinctCount(names);
    assert (set x | x in names) == DiseaseNames(ex.diseases);
    var common := CommonFields(o, ex, parse, withGddid).value;
    ProductLength(common, names, ex.variables);
  }

  /** A document without disease matches or without variable matches has no rows. */
  lemma RowsForEmpty(o: map<string, Json>, ex: Extracted, parse: Parser, withGddid: bool)
    requires RowsFor(o, ex, parse, withGddid).Ok?
    requires ex.diseases == [] || ex.variables == []
    ensures RowsFor(o, ex, parse, withGddid).value == []
  {
    var common := CommonFields(o, ex, parse, withGddid).value;
    var names := DistinctNames(ex.diseases);
    ProductLength(common, names, ex.variables);
    if ex.diseases == [] {
      assert names == [];
    }
    assert Product(common, names, ex.variables) == [];
  }

  /**
   * `to_rows(m)`: the shared fields, then the nested loops over distinct
   * diseases and variable matches appending one row each, then dedup.
   */
  method ToRows(o: map<string, Json>, ex: Extracted, parse: Parser) returns (r: Result<seq<Row>, Exc>)
    ensures r == RowsFor(o, ex, parse, true)
  {
    var common :- CommonFields(o, ex, parse, true);
    var rows := CrossRows(common, DistinctNames(ex.diseases), ex.variables);
    r := Ok(Dedupe(rows));
  }

  /** `to_rows_es(m)`: as to_rows, without the gddid field. */
  method ToRowsEs(o: map<string, Json>, ex: Extracted, parse: Parser) returns (r: Result<seq<Row>, Exc>)
    ensures r == RowsFor(o, ex, parse, false)
  {
    var common :- CommonFields(o, ex, parse, false);
    var rows := CrossRows(common, DistinctNames(ex.diseases), ex.variables);
    r := Ok(Dedupe(rows));
  }

  /** The nested `for` loops of to_rows, appending one row per disease and variable match. */
  method CrossRows(common: Common, diseases: seq<string>, variables: seq<VariableMatch>) returns (rows: seq<Row>)
    ensures rows == Product(common, diseases, variables)
  {
    rows := [];
    for i := 0 to |diseases|
      invariant rows == Product(common, diseases[..i], variables)
    {
      rows := AppendRows(rows, common, diseases[i], variables);
      assert diseases[..i + 1][..i] == diseases[..i] && diseases[..i + 1][i] == diseases[i];
    }
    assert diseases[..|diseases|] == diseases;
  }

  /** The inner loop: `rows.append(...)` for each variable match of one disease. */
  method AppendRows(rows: seq<Row>, common: Common, d: string, variables: seq<VariableMatch>)
    returns (rows': seq<Row>)
    ensures rows' == rows + RowsOf(common, d, variables)
  {
    rows' := rows;
    for k := 0 to |variables|
      invariant rows' == rows + RowsOf(common, d, variables[..k])
    {
      assert variables[..k + 1][..k] == variables[..k] && variables[..k + 1][k] == variables[k];
      rows' := rows' + [MakeRow(common, d, variables[k])];
    }
    assert variables[..|variables|] == variables;
  }

  /** The values of a row in column order (`row.get(k, "")`); `"\t".join` needs them to be strings. */
  function ColumnValues(row: Row, columns: seq<string>): (r: Result<seq<string>, Exc>)
    ensures r.Ok? <==> forall i :: 0 <= i < |columns| ==> RowGet(row, columns[i]).JStr?
    ensures r.Ok? ==> |r.value| == |columns| &&
                      forall i :: 0 <= i < |columns| ==> r.value[i] == RowGet(row, columns[i]).s
    ensures r.Err? ==> r.error == TypeError
  {
    if columns == [] then Ok([])
    else
      var v := RowGet(row, columns[0]);
      if !v.JStr? then Err(TypeError)
      else
        var rest :- ColumnValues(row, columns[1..]);
        Ok([v.s] + rest)
  }

  /** The tab-separated line for one row, ending in a newline. */
  function CsvLine(row: Row, columns: seq<string>): (r: Result<string, Exc>)
    ensures r.Ok? <==> ColumnValues(row, columns).Ok?
    ensures r.Ok? ==> |r.value| > 0 && r.value[|r.value| - 1] == '\n'
  {
    var values :- ColumnValues(row, columns);
    Ok(Strings.Join(values, '\t') + "\n")
  }

  /**
   * Reading a line back: without its newline and split on tabs it gives the
   * row's values in column order, when no value holds a tab.
   */
  lemma CsvLineFields(row: Row, columns: seq<string>)
    requires |columns| > 0
    requires CsvLine(row, columns).Ok?
    requires forall i :: 0 <= i < |columns| ==> '\t' !in RowGet(row, columns[i]).s
    ensures var line := CsvLine(row, columns).value;
            var parts := Strings.Split(line[..|line| - 1], '\t');
            && |parts| == |columns|
            && forall i :: 0 <= i < |columns| ==> parts[i] == RowGet(row, columns[i]).s
  {
    var values := ColumnValues(row, columns).value;
    var line := CsvLine(row, columns).value;
    assert line[..|line| - 1] == Strings.Join(values, '\t');
    Strings.SplitJoin(values, '\t');
  }
}
