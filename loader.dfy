/** `load_documents` (app/services/loader.py): turns a knowledge-base file into chunks, picking
    the PDF or the JSON branch by the path's suffix, compared case-insensitively. */
module Loader {
  import opened Results
  import opened Text
  import opened Json
  import opened Paths

  /** A chunk of the knowledge base: its text and its metadata dictionary. */
  datatype Chunk = Chunk(content: string, metadata: map<string, Json>)

  /** What the libraries make of the file at the path: `json.load` of it, and the PDF reader
      followed by the character splitter. Either may raise, and neither is modelled inside. */
  datatype FileView = FileView(json: Result<Json>, pdf: Result<seq<Chunk>>)

  const UnsupportedMessage := "Unsupported file type: must be .pdf or .json"

  /** The first line of the validation report raised when a chunk's text is not a string. */
  const DocumentValidationMessage := "1 validation error for Document"

  /** The message of calling `.strip()` on a value that is not a string. */
  function NoStripMessage(v: Json): string
  {
    "'" + TypeName(v) + "' object has no attribute 'strip'"
  }

  /** The message of calling `.get(...)` on a value that is not a dictionary. */
  function NoGetMessage(v: Json): string
  {
    "'" + TypeName(v) + "' object has no attribute 'get'"
  }

  /** The message of iterating over a value that is not iterable. */
  function NotIterableMessage(v: Json): string
  {
    "'" + TypeName(v) + "' object is not iterable"
  }

  /** The metadata of a JSON-derived chunk: its source type and nothing else. */
  function SourceTag(kind: string): map<string, Json>
  {
    map["source_type" := JString(kind)]
  }

  // ---------------------------------------------------------------- PDF branch

  /** One chunk after the tagging loop of the PDF branch. */
  function PdfTagged(c: Chunk, fileName: string): (r: Chunk)
    ensures r.content == c.content
    ensures r.metadata.Keys == c.metadata.Keys + {"source_type", "file_name"}
    ensures r.metadata["source_type"] == JString("pdf") && r.metadata["file_name"] == JString(fileName)
    ensures forall k :: k in c.metadata && k != "source_type" && k != "file_name" ==> r.metadata[k] == c.metadata[k]
  {
    c.(metadata := c.metadata["source_type" := JString("pdf")]["file_name" := JString(fileName)])
  }

  /** The chunks after the tagging loop of the PDF branch. */
  function TagAll(docs: seq<Chunk>, fileName: string): (r: seq<Chunk>)
    ensures |r| == |docs|
    ensures forall i :: 0 <= i < |r| ==> r[i].content == docs[i].content
    ensures forall i :: 0 <= i < |r| ==> "source_type" in r[i].metadata && r[i].metadata["source_type"] == JString("pdf")
    ensures forall i :: 0 <= i < |r| ==> "file_name" in r[i].metadata && r[i].metadata["file_name"] == JString(fileName)
  {
    seq(|docs|, i requires 0 <= i < |docs| => PdfTagged(docs[i], fileName))
  }

  // ---------------------------------------------------------------- JSON branch

  /** `d.get(key, "").strip()` on a dictionary's entries. */
  function StrippedField(entries: seq<(string, Json)>, key: string): (r: Result<string>)
    ensures r.Ok? <==> Get(entries, key).None? || Get(entries, key).value.JString?
    ensures r.Ok? ==> IsStripped(r.value)
    ensures r.Err? ==> r.msg == NoStripMessage(Get(entries, key).value)
  {
    match Get(entries, key)
    case None => Ok("")
    case Some(JString(s)) => Ok(Strip(s))
    case Some(v) => Err(NoStripMessage(v))
  }

  /** The chunk of one question/answer dictionary. */
  function QaPairChunk(d: Json): (r: Result<Chunk>)
    ensures r.Ok? <==> TextFields(d)
    ensures r.Ok? ==> r.value.metadata == SourceTag("json_qa_pair")
  {
    if !d.JObject? then Err(NoGetMessage(d))
    else
      match StrippedField(d.entries, "question")
      case Err(m) => Err(m)
      case Ok(q) =>
        match StrippedField(d.entries, "answer")
        case Err(m) => Err(m)
        case Ok(a) => Ok(Chunk("Question: " + q + "\nAnswer: " + a, SourceTag("json_qa_pair")))
  }

  /** The chunk of one entry of a `questions` value: the entry itself, which must be a string. */
  function QuestionChunk(q: Json): (r: Result<Chunk>)
    ensures r.Ok? <==> q.JString?
    ensures r.Ok? ==> r.value.content == q.s && r.value.metadata == SourceTag("json_questions")
    ensures r.Err? ==> r.msg == DocumentValidationMessage
  {
    if q.JString? then Ok(Chunk(q.s, SourceTag("json_questions"))) else Err(DocumentValidationMessage)
  }

  /** Converting the items in order and appending each chunk; the first failure is raised. */
  function ConvertAll(convert: Json -> Result<Chunk>, items: seq<Json>): (r: Result<seq<Chunk>>)
    ensures r.Ok? ==> |r.value| == |items|
    decreases |items|
  {
    if items == [] then Ok([])
    else
      match ConvertAll(convert, items[..|items| - 1])
      case Err(m) => Err(m)
      case Ok(docs) =>
        match convert(items[|items| - 1])
        case Err(m) => Err(m)
        case Ok(c) => Ok(docs + [c])
  }

  /** The values `for q in v` visits: a list's elements, a string's characters, a dictionary's keys. */
  function Iterate(v: Json): (r: Result<seq<Json>>)
    ensures r.Err? <==> v.JScalar?
    ensures r.Err? ==> r.msg == NotIterableMessage(v)
    ensures v.JList? ==> r == Ok(v.items)
    ensures v.JString? ==> |r.value| == |v.s| && forall i :: 0 <= i < |v.s| ==> r.value[i] == JString([v.s[i]])
    ensures v.JObject? ==> |r.value| == |v.entries| && forall i :: 0 <= i < |v.entries| ==> r.value[i] == JString(v.entries[i].0)
  {
    match v
    case JList(items) => Ok(items)
    case JString(s) => Ok(seq(|s|, i requires 0 <= i < |s| => JString([s[i]])))
    case JObject(entries) => Ok(seq(|entries|, i requires 0 <= i < |entries| => JString(entries[i].0)))
    case JScalar(_) => Err(NotIterableMessage(v))
  }

  /** The JSON branch once the file is parsed: a list of dictionaries is read as question/answer
      pairs, else a dictionary with a `questions` key as a question list, else nothing. */
  function JsonChunks(data: Json): (r: Result<seq<Chunk>>)
    ensures data.JString? || data.JScalar? ==> r == Ok([])
    ensures data.JList? && AllObjects(data.items) && r.Ok? ==> |r.value| == |data.items|
    ensures r.Err? ==> data.JList? || data.JObject?
  {
    if data.JList? && AllObjects(data.items) then ConvertAll(QaPairChunk, data.items)
    else if data.JObject? && Get(data.entries, "questions").Some? then
      match Iterate(Get(data.entries, "questions").value)
      case Err(m) => Err(m)
      case Ok(qs) => ConvertAll(QuestionChunk, qs)
    else Ok([])
  }

  function PdfOutcome(file: FileView, fileName: string): Result<seq<Chunk>>
  {
    match file.pdf
    case Err(m) => Err(m)
    case Ok(docs) => Ok(TagAll(docs, fileName))
  }

  function JsonOutcome(file: FileView): Result<seq<Chunk>>
  {
    match file.json
    case Err(m) => Err(m)
    case Ok(data) => JsonChunks(data)
  }

  /** What `load_documents(path)` returns or raises. */
  function Load(path: string, file: FileView): (r: Result<seq<Chunk>>)
    ensures Lower(Suffix(path)) != ".pdf" && Lower(Suffix(path)) != ".json" ==> r == Err(UnsupportedMessage)
    ensures Lower(Suffix(path)) == ".pdf" ==> (r.Ok? <==> file.pdf.Ok?)
    ensures Lower(Suffix(path)) == ".pdf" && r.Ok? ==> |r.value| == |file.pdf.value|
    ensures Lower(Suffix(path)) == ".json" && file.json.Err? ==> r == Err(file.json.msg)
  {
    var suffix := Lower(Suffix(path));
    if suffix == ".pdf" then PdfOutcome(file, Name(path))
    else if suffix == ".json" then JsonOutcome(file)
    else Err(UnsupportedMessage)
  }

  // ---------------------------------------------------------------- the loader

  /** The tagging loop of the PDF branch: every split chunk gets `source_type` "pdf" and the
      file's name, in place. */
  method TagPdfChunks(split: seq<Chunk>, name: string) returns (docs: seq<Chunk>)
    ensures docs == TagAll(split, name)
  {
    docs := split;
    for i := 0 to |docs|
      invariant |docs| == |split|
      invariant forall k :: 0 <= k < i ==> docs[k] == PdfTagged(split[k], name)
      invariant forall k :: i <= k < |docs| ==> docs[k] == split[k]
    {
      var metadata := docs[i].metadata;
      metadata := metadata["source_type" := JString("pdf")];
      metadata := metadata["file_name" := JString(name)];
      docs := docs[i := docs[i].(metadata := metadata)];
    }
  }

  /** The loop over a list of question/answer dictionaries. */
  method QaPairDocs(items: seq<Json>) returns (r: Result<seq<Chunk>>)
    requires AllObjects(items)
    ensures r == ConvertAll(QaPairChunk, items)
  {
    var docs := [];
    for i := 0 to |items|
      invariant ConvertAll(QaPairChunk, items[..i]) == Ok(docs)
    {
      var d := items[i];
      var question := Get(d.entries, "question");
      if question.Some? && !question.value.JString? {
        assert QaPairChunk(d) == Err(NoStripMessage(question.value));
        ConvertAllStopsAt(QaPairChunk, items, i);
        return Err(NoStripMessage(question.value));
      }
      var q := if question.Some? then Strip(question.value.s) else "";
      assert StrippedField(d.entries, "question") == Ok(q);
      var answer := Get(d.entries, "answer");
      if answer.Some? && !answer.value.JString? {
        assert QaPairChunk(d) == Err(NoStripMessage(answer.value));
        ConvertAllStopsAt(QaPairChunk, items, i);
        return Err(NoStripMessage(answer.value));
      }
      var a := if answer.Some? then Strip(answer.value.s) else "";
      assert StrippedField(d.entries, "answer") == Ok(a);
      var chunk := Chunk("Question: " + q + "\nAnswer: " + a, SourceTag("json_qa_pair"));
      assert QaPairChunk(d) == Ok(chunk);
      ConvertAllExtends(QaPairChunk, items, i, docs);
      docs := docs + [chunk];
    }
    assert items[..|items|] == items;
    return Ok(docs);
  }

  /** The loop over the entries of a `questions` value. */
  method QuestionDocs(qs: seq<Json>) returns (r: Result<seq<Chunk>>)
    ensures r == ConvertAll(QuestionChunk, qs)
  {
    var docs := [];
    for i := 0 to |qs|
      invariant ConvertAll(QuestionChunk, qs[..i]) == Ok(docs)
    {
      if !qs[i].JString? {
        ConvertAllStopsAt(QuestionChunk, qs, i);
        return Err(DocumentValidationMessage);
      }
      ConvertAllExtends(QuestionChunk, qs, i, docs);
      docs := docs + [Chunk(qs[i].s, SourceTag("json_questions"))];
    }
    assert qs[..|qs|] == qs;
    return Ok(docs);
  }

  /** `load_documents(path)`, with the file's content as the libraries read it. */
  method LoadDocuments(path: string, file: FileView) returns (r: Result<seq<Chunk>>)
    ensures r == Load(path, file)
  {
    var suffix := Lower(Suffix(path));
    if suffix == ".pdf" {
      if file.pdf.Err? {
        return Err(file.pdf.msg);
      }
      var docs := TagPdfChunks(file.pdf.value, Name(path));
      return Ok(docs);
    } else if suffix == ".json" {
      if file.json.Err? {
        return Err(file.json.msg);
      }
      var data := file.json.value;
      if data.JList? && AllObjects(data.items) {
        r := QaPairDocs(data.items);
      } else if data.JObject? && Get(data.entries, "questions").Some? {
        var iterated := Iterate(Get(data.entries, "questions").value);
        if iterated.Err? {
          return Err(iterated.msg);
        }
        r := QuestionDocs(iterated.value);
      } else {
        r := Ok([]);
      }
    } else {
      return Err(UnsupportedMessage);
    }
  }

  // ---------------------------------------------------------------- properties

  /** Once a prefix of the items fails, converting all of them fails the same way. */
  lemma {:induction false} ConvertAllErrorSticks(convert: Json -> Result<Chunk>, items: seq<Json>, j: nat)
    requires j <= |items| && ConvertAll(convert, items[..j]).Err?
    ensures ConvertAll(convert, items) == ConvertAll(convert, items[..j])
    decreases |items| - j
  {
    if j == |items| {
      assert items[..j] == items;
    } else {
      var init := items[..|items| - 1];
      assert init[..j] == items[..j];
      ConvertAllErrorSticks(convert, init, j);
    }
  }

  /** A success at item `i`, after the items before it converted, appends its chunk. */
  lemma ConvertAllExtends(convert: Json -> Result<Chunk>, items: seq<Json>, i: nat, docs: seq<Chunk>)
    requires i < |items| && ConvertAll(convert, items[..i]) == Ok(docs) && convert(items[i]).Ok?
    ensures ConvertAll(convert, items[..i + 1]) == Ok(docs + [convert(items[i]).value])
  {
    assert items[..i + 1][..i] == items[..i];
  }

  /** A failure at item `i`, after the items before it converted, is what the whole conversion raises. */
  lemma ConvertAllStopsAt(convert: Json -> Result<Chunk>, items: seq<Json>, i: nat)
    requires i < |items| && ConvertAll(convert, items[..i]).Ok? && convert(items[i]).Err?
    ensures ConvertAll(convert, items) == Err(convert(items[i]).msg)
  {
    assert items[..i + 1][..i] == items[..i];
    ConvertAllErrorSticks(convert, items, i + 1);
  }

  /** The conversion succeeds exactly when every item converts; it then yields one chunk per
      item, in input order, and otherwise raises the first item's failure. */
  lemma {:induction false} ConvertAllSpec(convert: Json -> Result<Chunk>, items: seq<Json>)
    ensures ConvertAll(convert, items).Ok? <==> forall i :: 0 <= i < |items| ==> convert(items[i]).Ok?
    ensures ConvertAll(convert, items).Ok? ==>
      |ConvertAll(convert, items).value| == |items| &&
      forall i :: 0 <= i < |items| ==> ConvertAll(convert, items).value[i] == convert(items[i]).value
    ensures ConvertAll(convert, items).Err? ==>
      exists j :: 0 <= j < |items| && convert(items[j]) == Err(ConvertAll(convert, items).msg) &&
        forall k :: 0 <= k < j ==> convert(items[k]).Ok?
    decreases |items|
  {
    if items != [] {
      var n := |items| - 1;
      var init := items[..n];
      ConvertAllSpec(convert, init);
      assert forall i :: 0 <= i < n ==> init[i] == items[i];
      if ConvertAll(convert, init).Err? {
        var j :| 0 <= j < n && convert(init[j]) == Err(ConvertAll(convert, init).msg) &&
          forall k :: 0 <= k < j ==> convert(init[k]).Ok?;
        assert convert(items[j]) == Err(ConvertAll(convert, items).msg);
      } else if convert(items[n]).Err? {
        assert convert(items[n]) == Err(ConvertAll(convert, items).msg);
      }
    }
  }

  /** The text `d.get(key, "")` gives for a key that is absent or holds a string. */
  function FieldText(d: Json, key: string): string
    requires d.JObject?
  {
    match Get(d.entries, key)
    case Some(JString(s)) => s
    case _ => ""
  }

  /** `question` and `answer` are each absent or a string, so `.strip()` does not raise. */
  predicate TextFields(d: Json)
  {
    d.JObject? &&
    (Get(d.entries, "question").None? || Get(d.entries, "question").value.JString?) &&
    (Get(d.entries, "answer").None? || Get(d.entries, "answer").value.JString?)
  }

  /** The format of a question/answer chunk: both texts stripped, a missing key read as "",
      and the metadata holding only the `json_qa_pair` source type. */
  lemma QaPairFormat(d: Json)
    requires TextFields(d)
    ensures QaPairChunk(d) == Ok(Chunk(
      "Question: " + Strip(FieldText(d, "question")) + "\nAnswer: " + Strip(FieldText(d, "answer")),
      map["source_type" := JString("json_qa_pair")]))
  {
    TextField(d, "question");
    TextField(d, "answer");
  }

  lemma TextField(d: Json, key: string)
    requires d.JObject? && (Get(d.entries, key).None? || Get(d.entries, key).value.JString?)
    ensures StrippedField(d.entries, key) == Ok(Strip(FieldText(d, key)))
  {
    if Get(d.entries, key).None? {
      StripBlank("");
    }
  }

  /** Dictionaries whose question and answer differ only by surrounding white space give the same chunk. */
  lemma QaPairIgnoresPadding(d: Json, e: Json)
    requires TextFields(d) && TextFields(e)
    requires Strip(FieldText(d, "question")) == Strip(FieldText(e, "question"))
    requires Strip(FieldText(d, "answer")) == Strip(FieldText(e, "answer"))
    ensures QaPairChunk(d) == QaPairChunk(e)
  {
    QaPairFormat(d);
    QaPairFormat(e);
  }

  /** A list of dictionaries gives one chunk per dictionary, in input order, when every
      question and answer is a string or absent; otherwise it raises the first failure. */
  lemma QaPairList(items: seq<Json>)
    requires AllObjects(items)
    ensures JsonChunks(JList(items)).Ok? <==> forall i :: 0 <= i < |items| ==> TextFields(items[i])
    ensures JsonChunks(JList(items)).Ok? ==>
      |JsonChunks(JList(items)).value| == |items| &&
      forall i :: 0 <= i < |items| ==> JsonChunks(JList(items)).value[i] == QaPairChunk(items[i]).value
    ensures JsonChunks(JList(items)).Err? ==>
      exists j :: 0 <= j < |items| && !TextFields(items[j]) && QaPairChunk(items[j]) == Err(JsonChunks(JList(items)).msg) &&
        forall k :: 0 <= k < j ==> TextFields(items[k])
  {
    ConvertAllSpec(QaPairChunk, items);
    forall i | 0 <= i < |items| ensures QaPairChunk(items[i]).Ok? <==> TextFields(items[i]) {
      if TextFields(items[i]) { QaPairFormat(items[i]); }
    }
  }

  /** A dictionary whose `questions` value is a list of strings gives one chunk per entry, in
      order, holding the entry unchanged (not stripped) and tagged `json_questions` only. */
  lemma QuestionList(data: Json, qs: seq<Json>)
    requires data.JObject? && Get(data.entries, "questions") == Some(JList(qs))
    ensures JsonChunks(data).Ok? <==> AllStrings(qs)
    ensures JsonChunks(data).Ok? ==>
      |JsonChunks(data).value| == |qs| &&
      forall i :: 0 <= i < |qs| ==> JsonChunks(data).value[i] == Chunk(qs[i].s, map["source_type" := JString("json_questions")])
    ensures JsonChunks(data).Err? ==> JsonChunks(data).msg == DocumentValidationMessage
  {
    ConvertAllSpec(QuestionChunk, qs);
  }

  /** Any other shape of JSON gives no chunks and raises nothing: a list holding a
      non-dictionary, a dictionary without `questions`, a string or a scalar. */
  lemma OtherShapesGiveNothing(data: Json)
    requires !(data.JList? && AllObjects(data.items))
    requires !(data.JObject? && Get(data.entries, "questions").Some?)
    ensures JsonChunks(data) == Ok([])
  {
  }

  /** The PDF branch keeps the splitter's chunks, their number, order and text, and tags each
      with `source_type` "pdf" and the path's final component, keeping its other metadata. */
  lemma PdfBranch(path: string, file: FileView)
    requires Lower(Suffix(path)) == ".pdf" && file.pdf.Ok?
    ensures Load(path, file).Ok?
    ensures var docs, split := Load(path, file).value, file.pdf.value;
      |docs| == |split| &&
      forall i :: 0 <= i < |docs| ==>
        docs[i].content == split[i].content &&
        docs[i].metadata.Keys == split[i].metadata.Keys + {"source_type", "file_name"} &&
        docs[i].metadata["source_type"] == JString("pdf") &&
        docs[i].metadata["file_name"] == JString(Name(path)) &&
        forall k :: k in split[i].metadata && k != "source_type" && k != "file_name" ==>
          docs[i].metadata[k] == split[i].metadata[k]
  {
    var docs, split := Load(path, file).value, file.pdf.value;
    forall i | 0 <= i < |docs| ensures docs[i] == PdfTagged(split[i], Name(path)) {
    }
  }

  /** The suffix picks the branch whatever its case: any spelling of ".pdf" reads the PDF,
      with the file name taken from the path. */
  lemma PdfAnyCase(base: string, ext: string, file: FileView)
    requires base != "" && base[|base| - 1] != '/'
    requires Lower(ext) == ".pdf"
    ensures Load(base + ext, file) == PdfOutcome(file, AfterLastSlash(base) + ext)
  {
    PdfIsExtension(ext);
    var path := base + ext;
    AppendSuffix(base, ext);
    AppendName(base, ext);
    assert Lower(Suffix(path)) == ".pdf";
    LoadPdf(path, file);
  }

  lemma LoadPdf(path: string, file: FileView)
    requires Lower(Suffix(path)) == ".pdf"
    ensures Load(path, file) == PdfOutcome(file, Name(path))
  {
  }

  lemma PdfIsExtension(ext: string)
    requires Lower(ext) == ".pdf"
    ensures IsExtension(ext)
  {
    PdfSpellings(ext);
    assert ext[1..] == [ext[1], ext[2], ext[3]];
  }

  lemma JsonIsExtension(ext: string)
    requires Lower(ext) == ".json"
    ensures IsExtension(ext)
  {
    JsonSpellings(ext);
    assert ext[1..] == [ext[1], ext[2], ext[3], ext[4]];
  }

  /** Any spelling of ".json" parses the file as JSON. */
  lemma JsonAnyCase(base: string, ext: string, file: FileView)
    requires base != "" && base[|base| - 1] != '/'
    requires Lower(ext) == ".json"
    ensures Load(base + ext, file) == JsonOutcome(file)
  {
    JsonIsExtension(ext);
    AppendSuffix(base, ext);
  }

  /** A path is refused, whatever the file holds, exactly when its suffix is neither
      ".pdf" nor ".json" in any case. */
  lemma RefusedExactlyForOtherSuffixes(path: string)
    ensures (forall file :: Load(path, file) == Err(UnsupportedMessage)) <==>
      Lower(Suffix(path)) != ".pdf" && Lower(Suffix(path)) != ".json"
  {
    var suffix := Lower(Suffix(path));
    if suffix == ".pdf" || suffix == ".json" {
      var file := FileView(Ok(JScalar(Null)), Ok([]));
      assert TagAll([], Name(path)) == [];
      assert Load(path, file) == Ok([]);
    }
  }

  /** ".txt", ".csv" and ".docx" files are refused with the unsupported-type error. */
  lemma OtherExtensionsRefused(base: string, file: FileView)
    requires base != "" && base[|base| - 1] != '/'
    ensures Load(base + ".txt", file) == Err(UnsupportedMessage)
    ensures Load(base + ".csv", file) == Err(UnsupportedMessage)
    ensures Load(base + ".docx", file) == Err(UnsupportedMessage)
  {
    assert IsExtension(".txt") && IsExtension(".csv") && IsExtension(".docx");
    AppendSuffix(base, ".txt");
    AppendSuffix(base, ".csv");
    AppendSuffix(base, ".docx");
    RefusedRegardless(base + ".txt", ".txt", file);
    RefusedRegardless(base + ".csv", ".csv", file);
    RefusedRegardless(base + ".docx", ".docx", file);
  }

  lemma RefusedRegardless(path: string, suffix: string, file: FileView)
    requires Suffix(path) == suffix && |suffix| >= 2 && suffix[1] != 'p' && suffix[1] != 'P'
    requires suffix[1] != 'j' && suffix[1] != 'J'
    ensures Load(path, file) == Err(UnsupportedMessage)
  {
    PdfSpellings(suffix);
    JsonSpellings(suffix);
  }

  /** A PDF whose splitter yields one chunk keeps that chunk, its text and its `source` entry. */
  lemma PdfExample(file: FileView)
    requires file.pdf == Ok([Chunk("Hello from PDF", map["source" := JString("/tmp/test/fake.pdf")])])
    ensures Load("/tmp/test/fake.pdf", file).Ok?
    ensures |Load("/tmp/test/fake.pdf", file).value| == 1
    ensures Load("/tmp/test/fake.pdf", file).value[0].content == "Hello from PDF"
    ensures "source" in Load("/tmp/test/fake.pdf", file).value[0].metadata
  {
    var base := "/tmp/test/fake";
    assert base + ".pdf" == "/tmp/test/fake.pdf";
    PdfAnyCase(base, ".pdf", file);
  }
}
