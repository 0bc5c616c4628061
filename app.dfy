/**
 * The page processors the search passes each fetched page to (the two
 * `process_page_result` closures, built by `context_result` and
 * `context_result_es`), the output sink they append lines to, and the CSV
 * header written when the output is opened.
 *
 * The dotted paths of the source are written as their key lists here
 * ("bibjson.title" as ["bibjson", "title"]); Utils.DeepGetOneKey and
 * Utils.DeepGetTwoKeys show the two forms look up the same value.
 */
module App {
  import opened Wrappers
  import opened JsonData
  import opened Utils
  import Strings
  import opened Rows
  import Sequences

  /** The external annotator: the variable and disease matchers run over one text. */
  datatype Annotator = Annotator(variables: string -> seq<VariableMatch>, diseases: string -> seq<DiseaseMatch>)

  /**
   * What a page processor is built with: the output mode, the columns, the
   * annotator, the date parser and the JSON serialiser used when the
   * output is not CSV.
   */
  datatype Settings = Settings(csv: bool, columns: seq<string>, annotate: Annotator, parse: Parser,
                               dumps: Row -> string)

  /** The columns of the CSV output, in order. */
  const Header: seq<string> := ["disease", "gddid", "url", "doi", "year", "dt", "variable", "estimate", "sentence"]

  /**
   * `"\t".join(header) + "\n"`: a line ending in a newline that splits at
   * tabs into exactly the column names, in order.
   */
  function HeaderLine(): (line: string)
    ensures |line| > 0 && line[|line| - 1] == '\n'
    ensures Strings.Split(line[..|line| - 1], '\t') == Header
  {
    HeaderSplitJoin();
    var line := Strings.Join(Header, '\t') + "\n";
    assert line[..|line| - 1] == Strings.Join(Header, '\t');
    line
  }

  /** No column name holds a tab. */
  lemma HeaderNoTabs()
    ensures forall i :: 0 <= i < |Header| ==> '\t' !in Header[i]
  {
  }

  /** Splitting the joined names at tabs gives them back. */
  lemma HeaderSplitJoin()
    ensures Strings.Split(Strings.Join(Header, '\t'), '\t') == Header
  {
    HeaderNoTabs();
    Strings.SplitJoin(Header, '\t');
  }

  /** The output file: every `write` call appends one piece of text. */
  class Sink {
    var writes: seq<string>

    constructor ()
      ensures writes == []
    {
      writes := [];
    }

    method Write(text: string)
      modifies this
      ensures writes == old(writes) + [text]
    {
      writes := writes + [text];
    }
  }

  /** Opening the output truncates it; in CSV mode the header is written once, first. */
  method OpenOutput(csv: bool) returns (sink: Sink)
    ensures fresh(sink)
    ensures sink.writes == if csv then [HeaderLine()] else []
  {
    sink := new Sink();
    if csv {
      sink.Write(HeaderLine());
    }
  }

  /** The text written for one row: its CSV line, or its JSON and a newline. */
  function RowLine(row: Row, s: Settings): (r: Result<string, Exc>)
    ensures s.csv ==> r == CsvLine(row, s.columns)
    ensures !s.csv ==> r == Ok(s.dumps(row) + "\n")
  {
    if s.csv then CsvLine(row, s.columns) else Ok(s.dumps(row) + "\n")
  }

  /** What processing wrote and, if it raised, the exception. */
  datatype Emitted = Emitted(writes: seq<string>, error: Option<Exc>)

  /** Writing rows one line each, stopping at the first row whose line cannot be formed. */
  function LinesOf(rows: seq<Row>, s: Settings): (e: Emitted)
    ensures |e.writes| <= |rows|
    ensures e.error.None? <==> forall i :: 0 <= i < |rows| ==> RowLine(rows[i], s).Ok?
  {
    if rows == [] then Emitted([], None)
    else match RowLine(rows[0], s)
      case Err(x) => Emitted([], Some(x))
      case Ok(line) =>
        var rest := LinesOf(rows[1..], s);
        assert forall i :: 1 <= i < |rows| ==> rows[i] == rows[1..][i - 1];
        Emitted([line] + rest.writes, rest.error)
  }

  /**
   * When row k is the first whose line cannot be formed, the rows before it
   * have been written, one line each in row order, and row k's exception is
   * raised.
   */
  lemma LinesOfStops(rows: seq<Row>, s: Settings, k: nat)
    requires k < |rows| && RowLine(rows[k], s).Err?
    requires forall i :: 0 <= i < k ==> RowLine(rows[i], s).Ok?
    ensures LinesOf(rows, s).error == Some(RowLine(rows[k], s).error)
    ensures |LinesOf(rows, s).writes| == k
    ensures forall i :: 0 <= i < k ==> LinesOf(rows, s).writes[i] == RowLine(rows[i], s).value
  {
    LinesOfStopsError(rows, s, k);
    LinesOfStopsWrites(rows, s, k);
  }

  lemma {:induction false} LinesOfStopsError(rows: seq<Row>, s: Settings, k: nat)
    requires k < |rows| && RowLine(rows[k], s).Err?
    requires forall i :: 0 <= i < k ==> RowLine(rows[i], s).Ok?
    ensures LinesOf(rows, s).error == Some(RowLine(rows[k], s).error)
  {
    if k > 0 {
      var rest := rows[1..];
      assert forall i :: 0 <= i < k - 1 ==> rest[i] == rows[i + 1];
      assert rest[k - 1] == rows[k];
      LinesOfStopsError(rest, s, k - 1);
      assert LinesOf(rows, s).error == LinesOf(rest, s).error;
    }
  }

  lemma {:induction false} LinesOfStopsWrites(rows: seq<Row>, s: Settings, k: nat)
    requires k < |rows| && RowLine(rows[k], s).Err?
    requires forall i :: 0 <= i < k ==> RowLine(rows[i], s).Ok?
    ensures |LinesOf(rows, s).writes| == k
    ensures forall i :: 0 <= i < k ==> LinesOf(rows, s).writes[i] == RowLine(rows[i], s).value
  {
    if k == 0 {
      assert LinesOf(rows, s).writes == [];
    } else {
      var rest := rows[1..];
      assert forall i :: 0 <= i < k - 1 ==> rest[i] == rows[i + 1];
      assert rest[k - 1] == rows[k];
      LinesOfStopsWrites(rest, s, k - 1);
      var w := LinesOf(rest, s).writes;
      assert LinesOf(rows, s).writes == [RowLine(rows[0], s).value] + w;
    }
  }

  /** When no row fails, there is exactly one complete line per row, in row order. */
  lemma {:induction false} LinesOfComplete(rows: seq<Row>, s: Settings)
    requires LinesOf(rows, s).error.None?
    ensures |LinesOf(rows, s).writes| == |rows|
    ensures forall i :: 0 <= i < |rows| ==> LinesOf(rows, s).writes[i] == RowLine(rows[i], s).value
  {
    if rows != [] {
      LinesOfComplete(rows[1..], s);
    }
  }

  /** `for row in rows: f.write(...)`. */
  method WriteRows(rows: seq<Row>, s: Settings, sink: Sink) returns (err: Option<Exc>)
    modifies sink
    ensures sink.writes == old(sink.writes) + LinesOf(rows, s).writes
    ensures err == LinesOf(rows, s).error
  {
    for i := 0 to |rows|
      invariant sink.writes + LinesOf(rows[i..], s).writes == old(sink.writes) + LinesOf(rows, s).writes
      invariant LinesOf(rows[i..], s).error == LinesOf(rows, s).error
    {
      assert rows[i..][0] == rows[i] && rows[i..][1..] == rows[i + 1..];
      var line := RowLine(rows[i], s);
      if line.Err? {
        return Some(line.error);
      }
      ghost var before := sink.writes;
      sink.Write(line.value);
      Sequences.AppendAssoc(before, [line.value], LinesOf(rows[i + 1..], s).writes);
    }
    return None;
  }

  /** The objects of a page: `page.get("objects")`, iterated. */
  function PageObjects(page: Json): (r: Result<seq<Json>, Exc>)
    ensures page.JObj? && "objects" in page.fields && page.fields["objects"].JList? ==>
            r == Ok(page.fields["objects"].items)
    ensures page.JObj? && "objects" !in page.fields ==> r == Err(TypeError)
  {
    if !page.JObj? then Err(AttributeError) else Elements(Get(page.fields, "objects"))
  }

  /** `[child.get("content", "") for child in children]`. */
  function ChildContents(children: seq<Json>): (r: Result<seq<Json>, Exc>)
    ensures r.Ok? <==> forall i :: 0 <= i < |children| ==> children[i].JObj?
    ensures r.Ok? ==> |r.value| == |children|
    ensures r.Ok? ==> forall i :: 0 <= i < |children| ==> r.value[i] == GetOr(children[i].fields, "content", JStr(""))
  {
    if children == [] then Ok([])
    else if !children[0].JObj? then Err(AttributeError)
    else
      var rest :- ChildContents(children[1..]);
      assert forall i :: 1 <= i < |children| ==> children[i] == children[1..][i - 1];
      Ok([GetOr(children[0].fields, "content", JStr(""))] + rest)
  }

  /** The texts context_result scans (content, summary, each child's content) and the title. */
  datatype Texts = Texts(texts: seq<Json>, title: Json)

  function DocumentTexts(o: Json): (r: Result<Texts, Exc>)
    ensures r.Ok? <==>
              && DeepGet(o, Keys(["context_content"]), JStr("")).Ok?
              && DeepGet(o, Keys(["context_summary"]), JStr("")).Ok?
              && DeepGet(o, Keys(["context_keywords"]), JStr("")).Ok?
              && DeepGet(o, Keys(["bibjson", "title"]), JStr("")).Ok?
              && DeepGet(o, Keys(["bibjson", "journal"]), JStr("")).Ok?
              && o.JObj?
              && Elements(GetOr(o.fields, "children", JList([]))).Ok?
              && ChildContents(Elements(GetOr(o.fields, "children", JList([]))).value).Ok?
    ensures r.Ok? ==>
              && |r.value.texts| >= 2
              && r.value.texts[0] == DeepGet(o, Keys(["context_content"]), JStr("")).value
              && r.value.texts[1] == DeepGet(o, Keys(["context_summary"]), JStr("")).value
              && r.value.texts[2..] == ChildContents(Elements(GetOr(o.fields, "children", JList([]))).value).value
              && r.value.title == DeepGet(o, Keys(["bibjson", "title"]), JStr("")).value
  {
    var content :- DeepGet(o, Keys(["context_content"]), JStr(""));
    var summary :- DeepGet(o, Keys(["context_summary"]), JStr(""));
    var keywords :- DeepGet(o, Keys(["context_keywords"]), JStr(""));
    var title :- DeepGet(o, Keys(["bibjson", "title"]), JStr(""));
    var journal :- DeepGet(o, Keys(["bibjson", "journal"]), JStr(""));
    if !o.JObj? then Err(AttributeError)
    else
      var children :- Elements(GetOr(o.fields, "children", JList([])));
      var childTexts :- ChildContents(children);
      Ok(Texts([content, summary] + childTexts, title))
  }

  /**
   * The `for txt in [...]` loop of context_result: empty texts are skipped;
   * each other text adds its variable matches, and its disease matches
   * followed by the title's disease matches.
   */
  function Annotate(texts: seq<Json>, title: Json, a: Annotator, acc: Extracted): (r: Result<Extracted, Exc>)
    ensures r.Ok? ==> acc.variables <= r.value.variables && acc.diseases <= r.value.diseases
    ensures r.Err? ==> r.error == TypeError
    ensures r.Err? <==> exists i :: 0 <= i < |texts| && Truthy(texts[i]) && (!texts[i].JStr? || !title.JStr?)
    decreases |texts|
  {
    if texts == [] then Ok(acc)
    else
      assert forall i :: 1 <= i < |texts| ==> texts[i] == texts[1..][i - 1];
      if !Truthy(texts[0]) then Annotate(texts[1..], title, a, acc)
      else if !texts[0].JStr? || !title.JStr? then Err(TypeError)
      else
        var txt := texts[0].s;
        Annotate(texts[1..], title, a,
                 Extracted(acc.variables + a.variables(txt), acc.diseases + a.diseases(txt) + a.diseases(title.s)))
  }

  /** One non-empty text adds its variable matches, and its disease matches followed by the title's. */
  lemma AnnotateOne(txt: string, title: string, a: Annotator, acc: Extracted)
    requires txt != ""
    ensures Annotate([JStr(txt)], JStr(title), a, acc) ==
            Ok(Extracted(acc.variables + a.variables(txt), acc.diseases + a.diseases(txt) + a.diseases(title)))
  {
    assert [JStr(txt)][1..] == [];
  }

  /** The loop over `texts + [t]` is the loop over `texts`, then one more text. */
  lemma {:induction false} AnnotateAppend(texts: seq<Json>, t: Json, title: Json, a: Annotator, acc: Extracted)
    ensures Annotate(texts, title, a, acc).Err? ==>
              Annotate(texts + [t], title, a, acc) == Annotate(texts, title, a, acc)
    ensures Annotate(texts, title, a, acc).Ok? ==>
              Annotate(texts + [t], title, a, acc) == Annotate([t], title, a, Annotate(texts, title, a, acc).value)
    decreases |texts|
  {
    if texts == [] {
      assert texts + [t] == [t];
    } else {
      assert (texts + [t])[0] == texts[0];
      assert (texts + [t])[1..] == texts[1..] + [t];
      if Truthy(texts[0]) && texts[0].JStr? && title.JStr? {
        var txt := texts[0].s;
        AnnotateAppend(texts[1..], t, title, a,
                       Extracted(acc.variables + a.variables(txt), acc.diseases + a.diseases(txt) + a.diseases(title.s)));
      } else if !Truthy(texts[0]) {
        AnnotateAppend(texts[1..], t, title, a, acc);
      }
    }
  }

  /** The texts that are not skipped. */
  function NonEmpty(texts: seq<Json>): (r: seq<Json>)
    ensures forall x :: x in r <==> x in texts && Truthy(x)
    ensures |r| <= |texts|
  {
    if texts == [] then []
    else if Truthy(texts[0]) then [texts[0]] + NonEmpty(texts[1..])
    else NonEmpty(texts[1..])
  }

  /** Only the non-empty texts matter: the same matches come from them alone. */
  lemma {:induction false} AnnotateSkipsEmpty(texts: seq<Json>, title: Json, a: Annotator, acc: Extracted)
    ensures Annotate(texts, title, a, acc) == Annotate(NonEmpty(texts), title, a, acc)
  {
    if texts != [] {
      if Truthy(texts[0]) {
        if texts[0].JStr? && title.JStr? {
          var txt := texts[0].s;
          AnnotateSkipsEmpty(texts[1..], title, a,
                             Extracted(acc.variables + a.variables(txt), acc.diseases + a.diseases(txt) + a.diseases(title.s)));
          assert ([texts[0]] + NonEmpty(texts[1..]))[1..] == NonEmpty(texts[1..]);
        }
      } else {
        AnnotateSkipsEmpty(texts[1..], title, a, acc);
      }
    }
  }

  /** The texts' matches when only empty texts are given: none. */
  lemma {:induction false} AnnotateAllEmpty(texts: seq<Json>, title: Json, a: Annotator, acc: Extracted)
    requires forall i :: 0 <= i < |texts| ==> !Truthy(texts[i])
    ensures Annotate(texts, title, a, acc) == Ok(acc)
  {
    if texts != [] {
      AnnotateAllEmpty(texts[1..], title, a, acc);
    }
  }

  /** The rows context_result writes for a document: only when it has variable and disease matches. */
  function ContextRows(o: Json, s: Settings): (r: Result<seq<Row>, Exc>)
    ensures r.Ok? && r.value != [] ==>
              && DocumentTexts(o).Ok?
              && var t := DocumentTexts(o).value;
                 var ex := Annotate(t.texts, t.title, s.annotate, Extracted([], []));
                 ex.Ok? && ex.value.variables != [] && ex.value.diseases != []
    ensures DocumentTexts(o).Ok? ==>
              var t := DocumentTexts(o).value;
              var ex := Annotate(t.texts, t.title, s.annotate, Extracted([], []));
              && (ex.Err? ==> r == Err(ex.error))
              && (ex.Ok? && ex.value.variables != [] && ex.value.diseases != [] ==>
                    r == RowsFor(o.fields, ex.value, s.parse, true))
    ensures DocumentTexts(o).Err? ==> r == Err(DocumentTexts(o).error)
  {
    var t :- DocumentTexts(o);
    var ex :- Annotate(t.texts, t.title, s.annotate, Extracted([], []));
    if ex.variables != [] && ex.diseases != [] then RowsFor(o.fields, ex, s.parse, true) else Ok([])
  }

  /** What processing one document, or a run of documents, writes and counts, and what it raised. */
  datatype Outcome = Outcome(writes: seq<string>, hits: nat, error: Option<Exc>)

  /** context_result never counts: a document's hits are always zero. */
  function ContextDocument(o: Json, s: Settings): (r: Outcome)
    ensures r.hits == 0
  {
    match ContextRows(o, s)
    case Err(x) => Outcome([], 0, Some(x))
    case Ok(rows) =>
      var e := LinesOf(rows, s);
      Outcome(e.writes, 0, e.error)
  }

  /**
   * A document whose texts give variable and disease matches writes one line
   * per row of `to_rows`, in row order, counts nothing and raises nothing,
   * when every line can be formed.
   */
  lemma ContextDocumentWrites(o: Json, s: Settings, rows: seq<Row>)
    requires DocumentTexts(o).Ok?
    requires var t := DocumentTexts(o).value;
             var ex := Annotate(t.texts, t.title, s.annotate, Extracted([], []));
             && ex.Ok? && ex.value.variables != [] && ex.value.diseases != []
             && RowsFor(o.fields, ex.value, s.parse, true) == Ok(rows)
    requires forall j :: 0 <= j < |rows| ==> RowLine(rows[j], s).Ok?
    ensures ContextDocument(o, s).hits == 0 && ContextDocument(o, s).error.None?
    ensures |ContextDocument(o, s).writes| == |rows|
    ensures forall j :: 0 <= j < |rows| ==> ContextDocument(o, s).writes[j] == RowLine(rows[j], s).value
  {
    assert ContextRows(o, s) == Ok(rows);
    LinesOfComplete(rows, s);
  }

  /** A document whose texts give no variable match, or no disease match, writes nothing. */
  lemma ContextDocumentGate(o: Json, s: Settings)
    requires DocumentTexts(o).Ok?
    requires var t := DocumentTexts(o).value;
             var ex := Annotate(t.texts, t.title, s.annotate, Extracted([], []));
             ex.Ok? && (ex.value.variables == [] || ex.value.diseases == [])
    ensures ContextDocument(o, s) == Outcome([], 0, None)
  {
  }

  /**
   * The `for o in result.get("objects")` loop of both processors, from
   * object i on: the documents' writes in order, their hits summed, stopping
   * at the first document that raises.
   */
  function Chain(objects: seq<Json>, i: nat, doc: Json -> Outcome): (r: Outcome)
    ensures r.error.None? <==> forall j :: i <= j < |objects| ==> doc(objects[j]).error.None?
    decreases |objects| - i
  {
    if i >= |objects| then Outcome([], 0, None)
    else
      var d := doc(objects[i]);
      if d.error.Some? then d
      else
        var rest := Chain(objects, i + 1, doc);
        Outcome(d.writes + rest.writes, d.hits + rest.hits, rest.error)
  }

  /** Without errors, the hits of a run of documents are the number of documents that count. */
  lemma {:induction false} ChainHits(objects: seq<Json>, i: nat, doc: Json -> Outcome)
    requires forall j :: i <= j < |objects| ==> doc(objects[j]).hits <= 1
    requires Chain(objects, i, doc).error.None?
    ensures Chain(objects, i, doc).hits == |set j | i <= j < |objects| && doc(objects[j]).hits == 1|
    decreases |objects| - i
  {
    if i < |objects| {
      ChainHits(objects, i + 1, doc);
      var later := set j | i + 1 <= j < |objects| && doc(objects[j]).hits == 1;
      var all := set j | i <= j < |objects| && doc(objects[j]).hits == 1;
      if doc(objects[i]).hits == 1 {
        assert all == later + {i};
      } else {
        assert all == later;
      }
    }
  }

  /** Documents that each write nothing and raise nothing write nothing together. */
  lemma {:induction false} ChainSilent(objects: seq<Json>, i: nat, doc: Json -> Outcome)
    requires forall j :: i <= j < |objects| ==> doc(objects[j]) == Outcome([], 0, None)
    ensures Chain(objects, i, doc) == Outcome([], 0, None)
    decreases |objects| - i
  {
    if i < |objects| {
      ChainSilent(objects, i + 1, doc);
    }
  }

  /** With no errors, the writes of a run of documents are each document's writes, in order. */
  lemma {:induction false} ChainWrites(objects: seq<Json>, i: nat, doc: Json -> Outcome)
    requires Chain(objects, i, doc).error.None?
    ensures forall j :: i <= j < |objects| ==> doc(objects[j]).error.None?
    ensures Chain(objects, i, doc).writes == Flatten(objects, i, doc)
    decreases |objects| - i
  {
    if i < |objects| {
      ChainWrites(objects, i + 1, doc);
    }
  }

  /** The writes of documents i.., concatenated. */
  function Flatten(objects: seq<Json>, i: nat, doc: Json -> Outcome): seq<string>
    decreases |objects| - i
  {
    if i >= |objects| then [] else doc(objects[i]).writes + Flatten(objects, i + 1, doc)
  }

  /** context_result's per-document step, as a value the page loop applies. */
  function ContextStep(s: Settings): Json -> Outcome
  {
    o => ContextDocument(o, s)
  }

  /** `process_page_result` of context_result on a page; it never touches the counter. */
  function ContextPage(page: Json, s: Settings): (r: Outcome)
    ensures r.hits == 0
  {
    match PageObjects(page)
    case Err(x) => Outcome([], 0, Some(x))
    case Ok(objects) =>
      ChainNoHits(objects, 0, ContextStep(s));
      Chain(objects, 0, ContextStep(s))
  }

  /** Documents that never count make a run that never counts. */
  lemma {:induction false} ChainNoHits(objects: seq<Json>, i: nat, doc: Json -> Outcome)
    requires forall o :: doc(o).hits == 0
    ensures Chain(objects, i, doc).hits == 0
    decreases |objects| - i
  {
    if i < |objects| {
      ChainNoHits(objects, i + 1, doc);
    }
  }

  /**
   * `process_page_result` of context_result: for each object, gather the
   * matches of its non-empty texts, and when there are both variable and
   * disease matches write its rows. The counter is never touched.
   */
  method ProcessPage(page: Json, s: Settings, sink: Sink) returns (err: Option<Exc>)
    modifies sink
    ensures sink.writes == old(sink.writes) + ContextPage(page, s).writes
    ensures err == ContextPage(page, s).error
  {
    var objects := PageObjects(page);
    if objects.Err? {
      return Some(objects.error);
    }
    var objs := objects.value;
    var doc := ContextStep(s);
    for i := 0 to |objs|
      invariant sink.writes + Chain(objs, i, doc).writes == old(sink.writes) + Chain(objs, 0, doc).writes
      invariant Chain(objs, i, doc).error == Chain(objs, 0, doc).error
    {
      ghost var before := sink.writes;
      err := ProcessDocument(objs[i], s, sink);
      if err.Some? {
        return;
      }
      Sequences.AppendAssoc(before, doc(objs[i]).writes, Chain(objs, i + 1, doc).writes);
    }
    return None;
  }

  /** One document of context_result. */
  method ProcessDocument(o: Json, s: Settings, sink: Sink) returns (err: Option<Exc>)
    modifies sink
    ensures sink.writes == old(sink.writes) + ContextDocument(o, s).writes
    ensures err == ContextDocument(o, s).error
  {
    var t := DocumentTexts(o);
    if t.Err? {
      return Some(t.error);
    }
    var texts, title := t.value.texts, t.value.title;
    var variables: seq<VariableMatch> := [];
    var diseases: seq<DiseaseMatch> := [];
    for j := 0 to |texts|
      invariant Annotate(texts, title, s.annotate, Extracted([], [])) ==
                Annotate(texts[j..], title, s.annotate, Extracted(variables, diseases))
    {
      assert texts[j..][1..] == texts[j + 1..];
      var txt := texts[j];
      if Truthy(txt) {
        if !txt.JStr? || !title.JStr? {
          return Some(TypeError);
        }
        variables := variables + s.annotate.variables(txt.s);
        diseases := diseases + s.annotate.diseases(txt.s) + s.annotate.diseases(title.s);
      }
    }
    assert texts[|texts|..] == [];
    if variables != [] && diseases != [] {
      var rows := ToRows(o.fields, Extracted(variables, diseases), s.parse);
      if rows.Err? {
        return Some(rows.error);
      }
      err := WriteRows(rows.value, s, sink);
    } else {
      err := None;
    }
  }

  /**
   * A document of context_result_es: its content is annotated; with at least
   * one variable match the title's disease matches are added, the counter
   * counts the document, and its rows (from to_rows) are written.
   */
  function EsDocument(o: Json, s: Settings): (r: Outcome)
    ensures r.hits <= 1
    ensures o.JObj? && DeepGet(o, Keys(["object", "content"]), JNull).Ok? &&
            DeepGet(o, Keys(["bibjson", "title"]), JNull).Ok? &&
            DeepGet(o, Keys(["object", "content"]), JNull).value.JStr? &&
            s.annotate.variables(DeepGet(o, Keys(["object", "content"]), JNull).value.s) == [] ==>
              r == Outcome([], 0, None)
    ensures o.JObj? && DeepGet(o, Keys(["object", "content"]), JNull).Ok? &&
            DeepGet(o, Keys(["bibjson", "title"]), JNull).Ok? &&
            DeepGet(o, Keys(["object", "content"]), JNull).value.JStr? &&
            DeepGet(o, Keys(["bibjson", "title"]), JNull).value.JStr? ==>
              var txt := DeepGet(o, Keys(["object", "content"]), JNull).value.s;
              var title := DeepGet(o, Keys(["bibjson", "title"]), JNull).value.s;
              var ex := Extracted(s.annotate.variables(txt), s.annotate.diseases(txt) + s.annotate.diseases(title));
              var rows := RowsFor(o.fields, ex, s.parse, true);
              && (ex.variables != [] && rows.Err? ==> r == Outcome([], 1, Some(rows.error)))
              && (ex.variables != [] && rows.Ok? ==>
                    r == Outcome(LinesOf(rows.value, s).writes, 1, LinesOf(rows.value, s).error))
  {
    match DeepGet(o, Keys(["object", "content"]), JNull)
    case Err(x) => Outcome([], 0, Some(x))
    case Ok(txt) =>
      match DeepGet(o, Keys(["bibjson", "title"]), JNull)
      case Err(x) => Outcome([], 0, Some(x))
      case Ok(title) =>
        if !txt.JStr? || !o.JObj? then Outcome([], 0, Some(TypeError))
        else
          var variables := s.annotate.variables(txt.s);
          if variables == [] then Outcome([], 0, None)
          else if !title.JStr? then Outcome([], 0, Some(TypeError))
          else
            var ex := Extracted(variables, s.annotate.diseases(txt.s) + s.annotate.diseases(title.s));
            match RowsFor(o.fields, ex, s.parse, true)
            case Err(x) => Outcome([], 1, Some(x))
            case Ok(rows) =>
              var e := LinesOf(rows, s);
              Outcome(e.writes, 1, e.error)
  }

  /**
   * context_result_es counts a document exactly when its content has a
   * variable match (and the title can be annotated), whether or not it has
   * disease matches; with none, it writes nothing.
   */
  lemma EsDocumentCounts(o: Json, s: Settings)
    requires o.JObj?
    requires DeepGet(o, Keys(["object", "content"]), JNull).Ok?
    requires DeepGet(o, Keys(["bibjson", "title"]), JNull).Ok?
    requires DeepGet(o, Keys(["object", "content"]), JNull).value.JStr?
    requires DeepGet(o, Keys(["bibjson", "title"]), JNull).value.JStr?
    ensures var txt := DeepGet(o, Keys(["object", "content"]), JNull).value.s;
            var title := DeepGet(o, Keys(["bibjson", "title"]), JNull).value.s;
            && EsDocument(o, s).hits == (if s.annotate.variables(txt) != [] then 1 else 0)
            && (s.annotate.diseases(txt) + s.annotate.diseases(title) == [] ==> EsDocument(o, s).writes == [])
  {
    var txt := DeepGet(o, Keys(["object", "content"]), JNull).value.s;
    var title := DeepGet(o, Keys(["bibjson", "title"]), JNull).value.s;
    var ex := Extracted(s.annotate.variables(txt), s.annotate.diseases(txt) + s.annotate.diseases(title));
    if ex.variables != [] && ex.diseases == [] && RowsFor(o.fields, ex, s.parse, true).Ok? {
      RowsForEmpty(o.fields, ex, s.parse, true);
    }
  }

  /** context_result_es's per-document step. */
  function EsStep(s: Settings): Json -> Outcome
  {
    o => EsDocument(o, s)
  }

  /** `process_page_result` of context_result_es on a page: at most one increment per object. */
  function EsPage(page: Json, s: Settings): (r: Outcome)
    ensures r.hits <= if PageObjects(page).Ok? then |PageObjects(page).value| else 0
  {
    match PageObjects(page)
    case Err(x) => Outcome([], 0, Some(x))
    case Ok(objects) =>
      ChainAtMostOne(objects, 0, EsStep(s));
      Chain(objects, 0, EsStep(s))
  }

  /** Documents that count at most once make a run that counts at most once per document. */
  lemma {:induction false} ChainAtMostOne(objects: seq<Json>, i: nat, doc: Json -> Outcome)
    requires i <= |objects|
    requires forall j :: i <= j < |objects| ==> doc(objects[j]).hits <= 1
    ensures Chain(objects, i, doc).hits <= |objects| - i
    decreases |objects| - i
  {
    if i < |objects| {
      ChainAtMostOne(objects, i + 1, doc);
    }
  }

  /** Without errors, an ES page counts exactly the documents that count. */
  lemma EsPageHits(page: Json, s: Settings)
    requires PageObjects(page).Ok? && EsPage(page, s).error.None?
    ensures var objects := PageObjects(page).value;
            EsPage(page, s).hits == |set j | 0 <= j < |objects| && EsDocument(objects[j], s).hits == 1|
  {
    var objects := PageObjects(page).value;
    var doc := EsStep(s);
    ChainHits(objects, 0, doc);
    assert (set j | 0 <= j < |objects| && doc(objects[j]).hits == 1) ==
           (set j | 0 <= j < |objects| && EsDocument(objects[j], s).hits == 1);
  }

  /** `process_page_result` of context_result_es. */
  method ProcessPageEs(page: Json, s: Settings, sink: Sink, counter: FastWriteCounter) returns (err: Option<Exc>)
    requires counter.Valid()
    modifies sink, counter
    ensures counter.Valid() && counter.readCount == old(counter.readCount)
    ensures counter.increments == old(counter.increments) + EsPage(page, s).hits
    ensures sink.writes == old(sink.writes) + EsPage(page, s).writes
    ensures err == EsPage(page, s).error
  {
    var objects := PageObjects(page);
    if objects.Err? {
      return Some(objects.error);
    }
    var objs := objects.value;
    var doc := EsStep(s);
    for i := 0 to |objs|
      invariant counter.Valid() && counter.readCount == old(counter.readCount)
      invariant sink.writes + Chain(objs, i, doc).writes == old(sink.writes) + Chain(objs, 0, doc).writes
      invariant counter.increments + Chain(objs, i, doc).hits == old(counter.increments) + Chain(objs, 0, doc).hits
      invariant Chain(objs, i, doc).error == Chain(objs, 0, doc).error
    {
      ghost var before := sink.writes;
      err := ProcessDocumentEs(objs[i], s, sink, counter);
      if err.Some? {
        return;
      }
      Sequences.AppendAssoc(before, doc(objs[i]).writes, Chain(objs, i + 1, doc).writes);
    }
    return None;
  }

  /** One document of context_result_es. */
  method ProcessDocumentEs(o: Json, s: Settings, sink: Sink, counter: FastWriteCounter) returns (err: Option<Exc>)
    requires counter.Valid()
    modifies sink, counter
    ensures counter.Valid() && counter.readCount == old(counter.readCount)
    ensures counter.increments == old(counter.increments) + EsDocument(o, s).hits
    ensures sink.writes == old(sink.writes) + EsDocument(o, s).writes
    ensures err == EsDocument(o, s).error
  {
    var txt := DeepGet(o, Keys(["object", "content"]), JNull);
    if txt.Err? {
      return Some(txt.error);
    }
    var title := DeepGet(o, Keys(["bibjson", "title"]), JNull);
    if title.Err? {
      return Some(title.error);
    }
    if !txt.value.JStr? || !o.JObj? {
      return Some(TypeError);
    }
    var variables := s.annotate.variables(txt.value.s);
    if variables == [] {
      return None;
    }
    if !title.value.JStr? {
      return Some(TypeError);
    }
    var diseases := s.annotate.diseases(txt.value.s) + s.annotate.diseases(title.value.s);
    counter.Increment();
    var rows := ToRows(o.fields, Extracted(variables, diseases), s.parse);
    if rows.Err? {
      return Some(rows.error);
    }
    err := WriteRows(rows.value, s, sink);
  }
}
