/** `qa_endpoint` (app/main.py): the `POST /qa` handler. It validates the two uploads, loads the
    knowledge base, builds the question-answering chain and answers each question in turn. */
module Endpoint {
  import opened Results
  import opened Text
  import opened Json
  import opened Paths
  import opened Loader

  /** An uploaded file: the name the client gave it and its content as the libraries read it. */
  datatype Upload = Upload(filename: string, content: FileView)

  /** One entry of the response's `answers` list. */
  datatype ResponseItem = ResponseItem(question: string, answer: string)

  /** The response: a 400 or a 500 with its `detail`, or a 200 with the answers. */
  datatype Outcome =
    | BadRequest(detail: string)
    | InternalError(detail: string)
    | Answers(answers: seq<ResponseItem>)

  /** What the body of the handler's `try` block can raise: an `HTTPException(400)` or any other exception. */
  datatype Raised = HttpBadRequest(detail: string) | Failure(msg: string)

  /** The outcome of one step of the `try` block: its value, or what it raised. */
  datatype Step<+T> = Continue(value: T) | Raise(error: Raised)

  const MissingFilesDetail := "Both document and questions files are required."
  const DocumentTypeDetail := "Knowledge base must be a .pdf or .json file."
  const QuestionsTypeDetail := "Questions file must be a .json file."
  const EmptyKnowledgeBaseDetail := "No documents could be loaded from the knowledge base."
  const QuestionsSchemaDetail := "Invalid questions.json: must contain a 'questions' list."
  const NoAnswerText := "No answer generated."
  const QaErrorPrefix := "Error during QA execution: "
  const InternalErrorPrefix := "Internal Server Error: "

  function Status(o: Outcome): int
  {
    match o
    case BadRequest(_) => 400
    case InternalError(_) => 500
    case Answers(_) => 200
  }

  /** The path `tempfile.NamedTemporaryFile(suffix=suffix)` creates in `dir`: the prefix "tmp",
      a random token and the suffix. */
  function TempPath(dir: string, token: string, suffix: string): (r: string)
    ensures |r| == |dir| + 4 + |token| + |suffix|
    ensures r[|r| - |suffix|..] == suffix
  {
    dir + "/tmp" + token + suffix
  }

  /** The characters of the random token of a temporary file name. */
  predicate TokenChar(c: char)
  {
    'a' <= c <= 'z' || '0' <= c <= '9' || c == '_'
  }

  predicate ValidToken(token: string)
  {
    forall i :: 0 <= i < |token| ==> TokenChar(token[i])
  }

  /** The answer stored for one question, from what the chain returned or raised: the `result`
      text stripped, or the fallback when that is empty or missing, or the error text. */
  function AnswerText(reply: Result<Option<string>>): (r: string)
    ensures r != ""
  {
    match reply
    case Err(m) => QaErrorPrefix + m
    case Ok(None) => NoAnswerText
    case Ok(Some(t)) => if Strip(t) == "" then NoAnswerText else Strip(t)
  }

  /** The loop over the questions: each entry is stripped (a non-string raises), blank ones are
      skipped and every other one is answered in order. */
  function AnswerAll(qs: seq<Json>, docs: seq<Chunk>, ask: (seq<Chunk>, string) -> Result<Option<string>>)
    : (r: Result<seq<ResponseItem>>)
    ensures r.Ok? ==> |r.value| <= |qs|
    ensures r.Ok? ==> forall j :: 0 <= j < |r.value| ==> r.value[j].question != "" && r.value[j].answer != ""
    decreases |qs|
  {
    if qs == [] then Ok([])
    else
      match AnswerAll(qs[..|qs| - 1], docs, ask)
      case Err(m) => Err(m)
      case Ok(results) =>
        var entry := qs[|qs| - 1];
        if !entry.JString? then Err(NoStripMessage(entry))
        else
          var q := Strip(entry.s);
          if q == "" then Ok(results)
          else Ok(results + [ResponseItem(q, AnswerText(ask(docs, q)))])
  }

  /** `"questions" in questions_json` and `questions_json["questions"]` with the list check,
      for every top-level shape of the questions file. */
  function QuestionsField(doc: Json): (r: Step<seq<Json>>)
    ensures r.Continue? <==> doc.JObject? && Get(doc.entries, "questions").Some? && Get(doc.entries, "questions").value.JList?
    ensures r.Continue? ==> Get(doc.entries, "questions") == Some(JList(r.value))
    ensures r.Raise? && r.error.HttpBadRequest? ==> r.error.detail == QuestionsSchemaDetail
    ensures doc.JScalar? ==> r.Raise? && r.error.Failure?
  {
    match doc
    case JObject(entries) =>
      (match Get(entries, "questions")
       case Some(JList(items)) => Continue(items)
       case _ => Raise(HttpBadRequest(QuestionsSchemaDetail)))
    case JList(items) =>
      if JString("questions") in items then Raise(Failure("list indices must be integers or slices, not str"))
      else Raise(HttpBadRequest(QuestionsSchemaDetail))
    case JString(s) =>
      if Contains(s, "questions") then Raise(Failure("string indices must be integers, not 'str'"))
      else Raise(HttpBadRequest(QuestionsSchemaDetail))
    case JScalar(_) => Raise(Failure("argument of type '" + TypeName(doc) + "' is not iterable"))
  }

  /** `sub in s` on strings. */
  predicate Contains(s: string, sub: string)
    decreases |s|
  {
    (|sub| <= |s| && s[..|sub|] == sub) || (s != [] && Contains(s[1..], sub))
  }

  /** `sub` occurs in `s` starting at index `i`. */
  predicate OccursAt(s: string, sub: string, i: int)
  {
    0 <= i && i + |sub| <= |s| && s[i..i + |sub|] == sub
  }

  /** `sub in s` holds exactly when `sub` occurs in `s` at some position. */
  lemma ContainsAt(s: string, sub: string)
    ensures Contains(s, sub) <==> exists i :: OccursAt(s, sub, i)
  {
    if Contains(s, sub) {
      ContainsOccurs(s, sub);
    }
    if exists i :: OccursAt(s, sub, i) {
      var i :| OccursAt(s, sub, i);
      OccursContains(s, sub, i);
    }
  }

  lemma {:induction false} ContainsOccurs(s: string, sub: string)
    requires Contains(s, sub)
    ensures exists i :: OccursAt(s, sub, i)
    decreases |s|
  {
    if |sub| <= |s| && s[..|sub|] == sub {
      assert s[0..|sub|] == s[..|sub|];
      assert OccursAt(s, sub, 0);
    } else {
      ContainsOccurs(s[1..], sub);
      var i :| OccursAt(s[1..], sub, i);
      assert s[i + 1..i + 1 + |sub|] == s[1..][i..i + |sub|];
      assert OccursAt(s, sub, i + 1);
    }
  }

  lemma {:induction false} OccursContains(s: string, sub: string, i: int)
    requires OccursAt(s, sub, i)
    ensures Contains(s, sub)
    decreases i
  {
    if i == 0 {
      assert s[..|sub|] == s[0..|sub|];
    } else {
      assert s[1..][i - 1..i - 1 + |sub|] == s[i..i + |sub|];
      OccursContains(s[1..], sub, i - 1);
    }
  }

  /** The body of the `try` block, from saving the uploads to returning the answers. */
  function Pipeline(document: Upload, questions: Upload, docPath: string,
                    buildFailure: seq<Chunk> -> Option<string>,
                    ask: (seq<Chunk>, string) -> Result<Option<string>>): (r: Step<seq<ResponseItem>>)
    ensures r.Raise? && r.error.HttpBadRequest? ==>
      r.error.detail == EmptyKnowledgeBaseDetail || r.error.detail == QuestionsSchemaDetail
  {
    match Load(docPath, document.content)
    case Err(m) => Raise(Failure(m))
    case Ok(docs) =>
      if docs == [] then Raise(HttpBadRequest(EmptyKnowledgeBaseDetail))
      else if buildFailure(docs).Some? then Raise(Failure(buildFailure(docs).value))
      else
        match questions.content.json
        case Err(m) => Raise(Failure(m))
        case Ok(doc) =>
          match QuestionsField(doc)
          case Raise(e) => Raise(e)
          case Continue(qs) =>
            match AnswerAll(qs, docs, ask)
            case Err(m) => Raise(Failure(m))
            case Ok(results) => Continue(results)
  }

  /** The `except` clauses: an `HTTPException` propagates as it is, anything else becomes a 500. */
  function Handle(e: Raised): (r: Outcome)
    ensures r.BadRequest? <==> e.HttpBadRequest?
    ensures e.HttpBadRequest? ==> r.detail == e.detail
    ensures r.InternalError? <==> e.Failure?
    ensures !r.Answers?
  {
    match e
    case HttpBadRequest(d) => BadRequest(d)
    case Failure(m) => InternalError(InternalErrorPrefix + m)
  }

  /** The document check: the extension lower-cases to ".pdf" or ".json". */
  predicate DocumentSuffixOk(d: Upload)
  {
    Lower(SplitExt(d.filename)) == ".pdf" || Lower(SplitExt(d.filename)) == ".json"
  }

  /** The questions check: the extension lower-cases to ".json". */
  predicate QuestionsSuffixOk(q: Upload)
  {
    Lower(SplitExt(q.filename)) == ".json"
  }

  /** The response once both uploads passed their checks: the `try` block and its `except`
      clauses. The only 400s raised there are the empty knowledge base and the questions schema. */
  function Process(document: Upload, questions: Upload, tempDir: string, token: string,
                   buildFailure: seq<Chunk> -> Option<string>,
                   ask: (seq<Chunk>, string) -> Result<Option<string>>): (r: Outcome)
    ensures r.BadRequest? ==> r.detail == EmptyKnowledgeBaseDetail || r.detail == QuestionsSchemaDetail
  {
    var docPath := TempPath(tempDir, token, SplitExt(document.filename));
    match Pipeline(document, questions, docPath, buildFailure, ask)
    case Raise(e) => Handle(e)
    case Continue(results) => Answers(results)
  }

  /** The response of `POST /qa`. `tempDir` and `token` stand for the temporary directory and the
      random part of the document's temporary file name; `buildFailure` says what building the
      retriever and the chain raises, if anything, and `ask` what invoking the chain on a question
      returns (the `result` text, if present) or raises. */
  function Respond(document: Option<Upload>, questions: Option<Upload>, tempDir: string, token: string,
                   buildFailure: seq<Chunk> -> Option<string>,
                   ask: (seq<Chunk>, string) -> Result<Option<string>>): (r: Outcome)
    ensures r.BadRequest? ==> r.detail in {MissingFilesDetail, DocumentTypeDetail, QuestionsTypeDetail,
                                            EmptyKnowledgeBaseDetail, QuestionsSchemaDetail}
  {
    if document.None? || questions.None? then BadRequest(MissingFilesDetail)
    else if !DocumentSuffixOk(document.value) then BadRequest(DocumentTypeDetail)
    else if !QuestionsSuffixOk(questions.value) then BadRequest(QuestionsTypeDetail)
    else Process(document.value, questions.value, tempDir, token, buildFailure, ask)
  }

  // ---------------------------------------------------------------- the handler

  method QaEndpoint(document: Option<Upload>, questions: Option<Upload>, tempDir: string, token: string,
                    buildFailure: seq<Chunk> -> Option<string>,
                    ask: (seq<Chunk>, string) -> Result<Option<string>>) returns (out: Outcome)
    ensures out == Respond(document, questions, tempDir, token, buildFailure, ask)
  {
    if document.None? || questions.None? {
      return BadRequest(MissingFilesDetail);
    }
    var docSuffix := SplitExt(document.value.filename);
    var qSuffix := SplitExt(questions.value.filename);
    if Lower(docSuffix) != ".pdf" && Lower(docSuffix) != ".json" {
      return BadRequest(DocumentTypeDetail);
    }
    if Lower(qSuffix) != ".json" {
      return BadRequest(QuestionsTypeDetail);
    }
    var docPath := TempPath(tempDir, token, docSuffix);
    var raised: Raised;
    label body: {
      var loaded := LoadDocuments(docPath, document.value.content);
      if loaded.Err? {
        raised := Failure(loaded.msg);
        break body;
      }
      var docs := loaded.value;
      if docs == [] {
        raised := HttpBadRequest(EmptyKnowledgeBaseDetail);
        break body;
      }
      var failure := buildFailure(docs);
      if failure.Some? {
        raised := Failure(failure.value);
        break body;
      }
      var parsed := questions.value.content.json;
      if parsed.Err? {
        raised := Failure(parsed.msg);
        break body;
      }
      var field := QuestionsField(parsed.value);
      if field.Raise? {
        raised := field.error;
        break body;
      }
      var results := AnswerQuestions(field.value, docs, ask);
      if results.Err? {
        raised := Failure(results.msg);
        break body;
      }
      return Answers(results.value);
    }
    out := Handle(raised);
  }

  /** The loop of the handler over the questions list. */
  method AnswerQuestions(qs: seq<Json>, docs: seq<Chunk>, ask: (seq<Chunk>, string) -> Result<Option<string>>)
    returns (r: Result<seq<ResponseItem>>)
    ensures r == AnswerAll(qs, docs, ask)
  {
    var results := [];
    for i := 0 to |qs|
      invariant AnswerAll(qs[..i], docs, ask) == Ok(results)
    {
      assert qs[..i + 1][..i] == qs[..i];
      if !qs[i].JString? {
        AnswerAllErrorSticks(qs, i + 1, docs, ask);
        return Err(NoStripMessage(qs[i]));
      }
      var q := Strip(qs[i].s);
      if q == "" {
        continue;
      }
      var reply := ask(docs, q);
      var answer: string;
      if reply.Err? {
        answer := QaErrorPrefix + reply.msg;
      } else {
        var text := if reply.value.Some? then Strip(reply.value.value) else "";
        answer := if text != "" then text else NoAnswerText;
      }
      results := results + [ResponseItem(q, answer)];
    }
    assert qs[..|qs|] == qs;
    return Ok(results);
  }

  // ---------------------------------------------------------------- properties

  lemma {:induction false} AnswerAllErrorSticks(qs: seq<Json>, j: nat, docs: seq<Chunk>,
                                                ask: (seq<Chunk>, string) -> Result<Option<string>>)
    requires j <= |qs| && AnswerAll(qs[..j], docs, ask).Err?
    ensures AnswerAll(qs, docs, ask) == AnswerAll(qs[..j], docs, ask)
    decreases |qs| - j
  {
    if j == |qs| {
      assert qs[..j] == qs;
    } else {
      var init := qs[..|qs| - 1];
      assert init[..j] == qs[..j];
      AnswerAllErrorSticks(init, j, docs, ask);
    }
  }

  /** The questions the handler answers, by an independent reading: each entry stripped, in
      order, leaving out those that strip to nothing. */
  function NonBlank(qs: seq<Json>): (r: seq<string>)
    requires AllStrings(qs)
    ensures |r| <= |qs|
    ensures forall j :: 0 <= j < |r| ==> r[j] != "" && IsStripped(r[j])
  {
    if qs == [] then []
    else
      var q := Strip(qs[0].s);
      (if q == "" then [] else [q]) + NonBlank(qs[1..])
  }

  lemma {:induction false} NonBlankAppend(qs: seq<Json>, q: Json)
    requires AllStrings(qs) && q.JString?
    ensures AllStrings(qs + [q])
    ensures NonBlank(qs + [q]) == NonBlank(qs) + (if Strip(q.s) == "" then [] else [Strip(q.s)])
    decreases |qs|
  {
    var s := qs + [q];
    StringsAppend(qs, q);
    if qs == [] {
      assert s == [q];
      assert NonBlank(s[1..]) == [] by { assert s[1..] == []; }
    } else {
      var head := if Strip(qs[0].s) == "" then [] else [Strip(qs[0].s)];
      var tail := if Strip(q.s) == "" then [] else [Strip(q.s)];
      assert s[0] == qs[0];
      assert s[1..] == qs[1..] + [q];
      StringsTail(qs);
      NonBlankAppend(qs[1..], q);
      assert NonBlank(s) == head + NonBlank(s[1..]);
      assert NonBlank(qs) == head + NonBlank(qs[1..]);
      assert head + (NonBlank(qs[1..]) + tail) == (head + NonBlank(qs[1..])) + tail;
    }
  }

  lemma StringsAppend(qs: seq<Json>, q: Json)
    requires AllStrings(qs) && q.JString?
    ensures AllStrings(qs + [q])
  {
    forall i | 0 <= i < |qs + [q]| ensures (qs + [q])[i].JString? {
      assert (qs + [q])[i] == if i < |qs| then qs[i] else q;
    }
  }

  lemma StringsPrefix(qs: seq<Json>, n: nat)
    requires AllStrings(qs) && n <= |qs|
    ensures AllStrings(qs[..n])
  {
    forall i | 0 <= i < n ensures qs[..n][i].JString? { assert qs[..n][i] == qs[i]; }
  }

  lemma StringsTail(qs: seq<Json>)
    requires AllStrings(qs) && qs != []
    ensures AllStrings(qs[1..])
  {
    forall i | 0 <= i < |qs[1..]| ensures qs[1..][i].JString? { assert qs[1..][i] == qs[i + 1]; }
  }

  /** One more string entry: answered when it does not strip to nothing. */
  lemma AnswerAllStep(init: seq<Json>, last: Json, docs: seq<Chunk>, ask: (seq<Chunk>, string) -> Result<Option<string>>)
    requires last.JString? && AnswerAll(init, docs, ask).Ok?
    ensures var q := Strip(last.s);
      AnswerAll(init + [last], docs, ask) ==
        Ok(AnswerAll(init, docs, ask).value + (if q == "" then [] else [ResponseItem(q, AnswerText(ask(docs, q)))]))
  {
    var s := init + [last];
    assert s[..|s| - 1] == init;
    var r := AnswerAll(init, docs, ask).value;
    assert r + [] == r;
  }

  /** For a list of strings the loop raises nothing and yields one entry per non-blank question,
      in input order, holding the stripped question and the answer made from the chain's reply
      to exactly that question. */
  lemma {:induction false} AnswerAllSpec(qs: seq<Json>, docs: seq<Chunk>, ask: (seq<Chunk>, string) -> Result<Option<string>>)
    requires AllStrings(qs)
    ensures AnswerAll(qs, docs, ask).Ok?
    ensures var results, kept := AnswerAll(qs, docs, ask).value, NonBlank(qs);
      |results| == |kept| &&
      forall j :: 0 <= j < |results| ==> results[j] == ResponseItem(kept[j], AnswerText(ask(docs, kept[j])))
    decreases |qs|
  {
    if qs != [] {
      var init, last := qs[..|qs| - 1], qs[|qs| - 1];
      StringsPrefix(qs, |qs| - 1);
      AnswerAllSpec(init, docs, ask);
      assert init + [last] == qs;
      AnswerAllStep(init, last, docs, ask);
      NonBlankAppend(init, last);
      var before, kept0 := AnswerAll(init, docs, ask).value, NonBlank(init);
      var q := Strip(last.s);
      var tail := if q == "" then [] else [ResponseItem(q, AnswerText(ask(docs, q)))];
      var results, kept := before + tail, kept0 + (if q == "" then [] else [q]);
      assert AnswerAll(qs, docs, ask).value == results;
      assert NonBlank(qs) == kept;
      forall j | 0 <= j < |results|
        ensures results[j] == ResponseItem(kept[j], AnswerText(ask(docs, kept[j])))
      {
        if j < |before| {
          assert results[j] == before[j] && kept[j] == kept0[j];
        }
      }
    }
  }

  /** A blank or white-space-only question adds nothing to the answers. */
  lemma BlankQuestionIgnored(qs: seq<Json>, blank: string, docs: seq<Chunk>, ask: (seq<Chunk>, string) -> Result<Option<string>>)
    requires AllSpace(blank)
    ensures AnswerAll(qs + [JString(blank)], docs, ask) == AnswerAll(qs, docs, ask)
  {
    StripBlank(blank);
    assert (qs + [JString(blank)])[..|qs|] == qs;
  }

  /** The loop goes on past a question whose chain invocation fails: changing what the chain does
      on one question changes only the answers to that question, and a failure there is reported
      as the error text. */
  lemma FailureStaysWithItsQuestion(qs: seq<Json>, docs: seq<Chunk>, bad: string,
                                    ask: (seq<Chunk>, string) -> Result<Option<string>>,
                                    ask': (seq<Chunk>, string) -> Result<Option<string>>)
    requires AllStrings(qs)
    requires forall q :: q != bad ==> ask(docs, q) == ask'(docs, q)
    ensures AnswerAll(qs, docs, ask).Ok? && AnswerAll(qs, docs, ask').Ok?
    ensures var r, r' := AnswerAll(qs, docs, ask).value, AnswerAll(qs, docs, ask').value;
      |r| == |r'| &&
      forall j :: 0 <= j < |r| ==>
        r[j].question == r'[j].question &&
        (r[j].question != bad ==> r[j] == r'[j]) &&
        (r'[j].question == bad && ask'(docs, bad).Err? ==> r'[j].answer == QaErrorPrefix + ask'(docs, bad).msg)
  {
    AnswerAllSpec(qs, docs, ask);
    AnswerAllSpec(qs, docs, ask');
  }

  /** A non-string entry makes `.strip()` raise, which aborts the whole loop with that error
      even after earlier questions were answered. */
  lemma NonStringAborts(qs: seq<Json>, j: nat, docs: seq<Chunk>, ask: (seq<Chunk>, string) -> Result<Option<string>>)
    requires j < |qs| && !qs[j].JString? && AllStrings(qs[..j])
    ensures AnswerAll(qs, docs, ask) == Err(NoStripMessage(qs[j]))
  {
    AnswerAllSpec(qs[..j], docs, ask);
    assert qs[..j + 1][..j] == qs[..j];
    AnswerAllErrorSticks(qs, j + 1, docs, ask);
  }

  /** The stored answer is never empty: it is the chain's text stripped, or the fallback when that
      text is empty or missing, or the error text when the chain raised. */
  lemma AnswerTextCases(reply: Result<Option<string>>)
    ensures AnswerText(reply) != ""
    ensures reply.Err? ==> AnswerText(reply) == QaErrorPrefix + reply.msg
    ensures reply.Ok? && reply.value.None? ==> AnswerText(reply) == NoAnswerText
    ensures reply.Ok? && reply.value.Some? ==>
      if AllSpace(reply.value.value) then AnswerText(reply) == NoAnswerText
      else AnswerText(reply) == Strip(reply.value.value) && IsStripped(AnswerText(reply))
  {
    if reply.Ok? && reply.value.Some? {
      StripBlank(reply.value.value);
    }
  }

  // ---- the order of the checks

  /** A missing upload is reported first, whatever else the request holds. */
  lemma MissingUploadFirst(document: Option<Upload>, questions: Option<Upload>, tempDir: string, token: string,
                           buildFailure: seq<Chunk> -> Option<string>, ask: (seq<Chunk>, string) -> Result<Option<string>>)
    requires document.None? || questions.None?
    ensures Respond(document, questions, tempDir, token, buildFailure, ask) == BadRequest(MissingFilesDetail)
  {
  }

  /** With both uploads present, a document suffix other than .pdf or .json (in any case) is
      reported next, before the questions file's suffix is looked at. */
  lemma DocumentSuffixSecond(document: Upload, questions: Option<Upload>, tempDir: string, token: string,
                             buildFailure: seq<Chunk> -> Option<string>, ask: (seq<Chunk>, string) -> Result<Option<string>>)
    requires questions.Some? && !DocumentSuffixOk(document)
    ensures Respond(Some(document), questions, tempDir, token, buildFailure, ask) == BadRequest(DocumentTypeDetail)
  {
  }

  /** Then a questions suffix other than .json (in any case) is reported. */
  lemma QuestionsSuffixThird(document: Upload, questions: Upload, tempDir: string, token: string,
                             buildFailure: seq<Chunk> -> Option<string>, ask: (seq<Chunk>, string) -> Result<Option<string>>)
    requires DocumentSuffixOk(document) && !QuestionsSuffixOk(questions)
    ensures Respond(Some(document), Some(questions), tempDir, token, buildFailure, ask) == BadRequest(QuestionsTypeDetail)
  {
  }

  /** The document check accepts exactly the extensions spelling ".pdf" or ".json" in any mix of
      cases, and each of them is a well-formed extension, which the temporary copy then carries. */
  lemma DocumentSuffixAccepted(d: Upload)
    ensures var ext := SplitExt(d.filename);
      DocumentSuffixOk(d) <==>
        (|ext| == 4 && ext[0] == '.' && (ext[1] == 'p' || ext[1] == 'P') && (ext[2] == 'd' || ext[2] == 'D')
         && (ext[3] == 'f' || ext[3] == 'F')) ||
        (|ext| == 5 && ext[0] == '.' && (ext[1] == 'j' || ext[1] == 'J') && (ext[2] == 's' || ext[2] == 'S')
         && (ext[3] == 'o' || ext[3] == 'O') && (ext[4] == 'n' || ext[4] == 'N'))
    ensures DocumentSuffixOk(d) ==> IsExtension(SplitExt(d.filename))
  {
    var ext := SplitExt(d.filename);
    PdfSpellings(ext);
    JsonSpellings(ext);
    if Lower(ext) == ".pdf" {
      PdfIsExtension(ext);
    } else if Lower(ext) == ".json" {
      JsonIsExtension(ext);
    }
  }

  /** The questions check accepts exactly the extensions spelling ".json" in any mix of cases,
      each of them a well-formed extension. */
  lemma QuestionsSuffixAccepted(q: Upload)
    ensures var ext := SplitExt(q.filename);
      QuestionsSuffixOk(q) <==>
        |ext| == 5 && ext[0] == '.' && (ext[1] == 'j' || ext[1] == 'J') && (ext[2] == 's' || ext[2] == 'S')
        && (ext[3] == 'o' || ext[3] == 'O') && (ext[4] == 'n' || ext[4] == 'N')
    ensures QuestionsSuffixOk(q) ==> IsExtension(SplitExt(q.filename))
  {
    var ext := SplitExt(q.filename);
    JsonSpellings(ext);
    if Lower(ext) == ".json" {
      JsonIsExtension(ext);
    }
  }

  /** Once both uploads are present and pass their checks, the response is that of the `try` block. */
  lemma RespondProcesses(document: Upload, questions: Upload, tempDir: string, token: string,
                         buildFailure: seq<Chunk> -> Option<string>, ask: (seq<Chunk>, string) -> Result<Option<string>>)
    requires DocumentSuffixOk(document) && QuestionsSuffixOk(questions)
    ensures Respond(Some(document), Some(questions), tempDir, token, buildFailure, ask) ==
      Process(document, questions, tempDir, token, buildFailure, ask)
  {
  }

  /** Once both uploads are present with accepted suffixes, the response is none of the three
      upload-check responses. */
  lemma AcceptedUploadsPass(document: Upload, questions: Upload, tempDir: string, token: string,
                            buildFailure: seq<Chunk> -> Option<string>, ask: (seq<Chunk>, string) -> Result<Option<string>>)
    requires DocumentSuffixOk(document) && QuestionsSuffixOk(questions)
    ensures var r := Respond(Some(document), Some(questions), tempDir, token, buildFailure, ask);
      r != BadRequest(MissingFilesDetail) && r != BadRequest(DocumentTypeDetail) && r != BadRequest(QuestionsTypeDetail)
  {
    RespondProcesses(document, questions, tempDir, token, buildFailure, ask);
    var r := Process(document, questions, tempDir, token, buildFailure, ask);
    if r.BadRequest? {
      assert |r.detail| == 53 || |r.detail| == 56;
      assert |MissingFilesDetail| == 47 && |DocumentTypeDetail| == 44 && |QuestionsTypeDetail| == 36;
    }
  }


  /** The three upload checks are the only source of their three responses. */
  lemma UploadChecksExact(document: Option<Upload>, questions: Option<Upload>, tempDir: string, token: string,
                          buildFailure: seq<Chunk> -> Option<string>, ask: (seq<Chunk>, string) -> Result<Option<string>>)
    ensures var r := Respond(document, questions, tempDir, token, buildFailure, ask);
      (r == BadRequest(MissingFilesDetail) || r == BadRequest(DocumentTypeDetail) || r == BadRequest(QuestionsTypeDetail))
      <==> !(document.Some? && questions.Some? && DocumentSuffixOk(document.value) && QuestionsSuffixOk(questions.value))
  {
    if document.None? || questions.None? {
      MissingUploadFirst(document, questions, tempDir, token, buildFailure, ask);
    } else if !DocumentSuffixOk(document.value) {
      DocumentSuffixSecond(document.value, questions, tempDir, token, buildFailure, ask);
    } else if !QuestionsSuffixOk(questions.value) {
      QuestionsSuffixThird(document.value, questions.value, tempDir, token, buildFailure, ask);
    } else {
      AcceptedUploadsPass(document.value, questions.value, tempDir, token, buildFailure, ask);
    }
  }

  // ---- the temporary copy the loader reads

  /** The temporary copy of the document keeps the upload's suffix as its path suffix, and its
      name is the temporary name. */
  lemma TempPathKeepsSuffix(dir: string, token: string, ext: string)
    requires ValidToken(token) && IsExtension(ext)
    ensures Suffix(TempPath(dir, token, ext)) == ext
    ensures Name(TempPath(dir, token, ext)) == "tmp" + token + ext
  {
    var stem := "tmp" + token;
    var base := dir + "/" + stem;
    assert TempPath(dir, token, ext) == base + ext;
    assert base[|base| - 1] != '/' by {
      if token != [] { assert base[|base| - 1] == token[|token| - 1]; }
    }
    forall k | |dir| < k < |base| ensures base[k] != '/' {
      assert base[k] == stem[k - |dir| - 1];
      if k - |dir| - 1 >= 3 { assert stem[k - |dir| - 1] == token[k - |dir| - 4]; }
    }
    RFindAt(base, '/', |dir|);
    assert AfterLastSlash(base) == stem;
    AppendName(base, ext);
    AppendSuffix(base, ext);
  }

  /** The loader runs on the temporary copy and takes the branch of the upload's own suffix;
      PDF chunks are then tagged with the temporary file's name. */
  lemma LoaderSeesUploadSuffix(document: Upload, tempDir: string, token: string)
    requires DocumentSuffixOk(document) && ValidToken(token)
    ensures var ext := SplitExt(document.filename);
      Load(TempPath(tempDir, token, ext), document.content) ==
        if Lower(ext) == ".pdf" then PdfOutcome(document.content, "tmp" + token + ext)
        else JsonOutcome(document.content)
  {
    var ext := SplitExt(document.filename);
    if Lower(ext) == ".pdf" { PdfIsExtension(ext); } else { JsonIsExtension(ext); }
    TempPathKeepsSuffix(tempDir, token, ext);
  }

  // ---- the checks inside the try block

  /** An empty knowledge base is a 400, and neither the chain builder nor the chain is consulted:
      the response is the same whatever they would do. */
  lemma EmptyKnowledgeBase(document: Upload, questions: Upload, tempDir: string, token: string,
                           buildFailure: seq<Chunk> -> Option<string>, ask: (seq<Chunk>, string) -> Result<Option<string>>)
    requires DocumentSuffixOk(document) && QuestionsSuffixOk(questions)
    requires Load(TempPath(tempDir, token, SplitExt(document.filename)), document.content) == Ok([])
    ensures Respond(Some(document), Some(questions), tempDir, token, buildFailure, ask) == BadRequest(EmptyKnowledgeBaseDetail)
  {
    var docPath := TempPath(tempDir, token, SplitExt(document.filename));
    assert Pipeline(document, questions, docPath, buildFailure, ask) == Raise(HttpBadRequest(EmptyKnowledgeBaseDetail));
    RespondProcesses(document, questions, tempDir, token, buildFailure, ask);
  }

  /** A JSON knowledge base of any other shape yields no chunks, so the request is a 400. */
  lemma UnusableJsonKnowledgeBase(document: Upload, questions: Upload, tempDir: string, token: string,
                                  buildFailure: seq<Chunk> -> Option<string>, ask: (seq<Chunk>, string) -> Result<Option<string>>)
    requires Lower(SplitExt(document.filename)) == ".json" && QuestionsSuffixOk(questions) && ValidToken(token)
    requires document.content.json.Ok?
    requires var data := document.content.json.value;
      !(data.JList? && AllObjects(data.items)) && !(data.JObject? && Get(data.entries, "questions").Some?)
    ensures Respond(Some(document), Some(questions), tempDir, token, buildFailure, ask) == BadRequest(EmptyKnowledgeBaseDetail)
  {
    LoaderSeesUploadSuffix(document, tempDir, token);
    OtherShapesGiveNothing(document.content.json.value);
    assert Load(TempPath(tempDir, token, SplitExt(document.filename)), document.content) == Ok([]);
    EmptyKnowledgeBase(document, questions, tempDir, token, buildFailure, ask);
  }

  /** A loader failure, a failure to build the chain and a questions file that does not parse
      each become a 500 whose detail carries the error's text. */
  lemma FailuresBecomeInternalErrors(document: Upload, questions: Upload, tempDir: string, token: string,
                                     buildFailure: seq<Chunk> -> Option<string>, ask: (seq<Chunk>, string) -> Result<Option<string>>)
    requires DocumentSuffixOk(document) && QuestionsSuffixOk(questions)
    ensures var loaded := Load(TempPath(tempDir, token, SplitExt(document.filename)), document.content);
      var r := Respond(Some(document), Some(questions), tempDir, token, buildFailure, ask);
      (loaded.Err? ==> r == InternalError(InternalErrorPrefix + loaded.msg)) &&
      (loaded.Ok? && loaded.value != [] && buildFailure(loaded.value).Some? ==>
        r == InternalError(InternalErrorPrefix + buildFailure(loaded.value).value)) &&
      (loaded.Ok? && loaded.value != [] && buildFailure(loaded.value).None? && questions.content.json.Err? ==>
        r == InternalError(InternalErrorPrefix + questions.content.json.msg))
  {
    RespondProcesses(document, questions, tempDir, token, buildFailure, ask);
  }

  /** Every 500 carries the fixed prefix followed by the text of the exception that caused it. */
  lemma InternalErrorsPrefixed(document: Option<Upload>, questions: Option<Upload>, tempDir: string, token: string,
                               buildFailure: seq<Chunk> -> Option<string>, ask: (seq<Chunk>, string) -> Result<Option<string>>)
    ensures var r := Respond(document, questions, tempDir, token, buildFailure, ask);
      r.InternalError? ==> exists m :: r.detail == InternalErrorPrefix + m
  {
    if document.Some? && questions.Some? && DocumentSuffixOk(document.value) && QuestionsSuffixOk(questions.value) {
      RespondProcesses(document.value, questions.value, tempDir, token, buildFailure, ask);
      ProcessErrorsPrefixed(document.value, questions.value, tempDir, token, buildFailure, ask);
    }
  }

  lemma ProcessErrorsPrefixed(document: Upload, questions: Upload, tempDir: string, token: string,
                              buildFailure: seq<Chunk> -> Option<string>, ask: (seq<Chunk>, string) -> Result<Option<string>>)
    ensures var r := Process(document, questions, tempDir, token, buildFailure, ask);
      r.InternalError? ==> exists m :: r.detail == InternalErrorPrefix + m
  {
    var docPath := TempPath(tempDir, token, SplitExt(document.filename));
    var p := Pipeline(document, questions, docPath, buildFailure, ask);
    if p.Raise? && p.error.Failure? {
      assert Process(document, questions, tempDir, token, buildFailure, ask).detail == InternalErrorPrefix + p.error.msg;
    }
  }

  /** A questions object without a `questions` key, or whose `questions` value is not a list, is a 400. */
  lemma QuestionsSchemaChecked(document: Upload, questions: Upload, tempDir: string, token: string,
                               buildFailure: seq<Chunk> -> Option<string>, ask: (seq<Chunk>, string) -> Result<Option<string>>)
    requires DocumentSuffixOk(document) && QuestionsSuffixOk(questions)
    requires var loaded := Load(TempPath(tempDir, token, SplitExt(document.filename)), document.content);
      loaded.Ok? && loaded.value != [] && buildFailure(loaded.value).None?
    requires questions.content.json.Ok? && questions.content.json.value.JObject?
    requires var field := Get(questions.content.json.value.entries, "questions");
      field.None? || !field.value.JList?
    ensures Respond(Some(document), Some(questions), tempDir, token, buildFailure, ask) == BadRequest(QuestionsSchemaDetail)
  {
  }

  /** Once the knowledge base is loaded, the chain built and the questions list found, the response
      is the outcome of the questions loop: its answers, or a 500 carrying the error that stopped it. */
  lemma QuestionsLoopDecides(document: Upload, questions: Upload, tempDir: string, token: string,
                             buildFailure: seq<Chunk> -> Option<string>, ask: (seq<Chunk>, string) -> Result<Option<string>>,
                             docs: seq<Chunk>, qs: seq<Json>)
    requires DocumentSuffixOk(document) && QuestionsSuffixOk(questions)
    requires Load(TempPath(tempDir, token, SplitExt(document.filename)), document.content) == Ok(docs)
    requires docs != [] && buildFailure(docs).None?
    requires questions.content.json.Ok? && questions.content.json.value.JObject?
    requires Get(questions.content.json.value.entries, "questions") == Some(JList(qs))
    ensures Respond(Some(document), Some(questions), tempDir, token, buildFailure, ask) ==
      match AnswerAll(qs, docs, ask)
      case Ok(results) => Answers(results)
      case Err(m) => InternalError(InternalErrorPrefix + m)
  {
    var docPath := TempPath(tempDir, token, SplitExt(document.filename));
    assert QuestionsField(questions.content.json.value) == Continue(qs);
    PipelineReachesLoop(document, questions, docPath, buildFailure, ask, docs, qs);
    RespondProcesses(document, questions, tempDir, token, buildFailure, ask);
  }

  lemma PipelineReachesLoop(document: Upload, questions: Upload, docPath: string,
                            buildFailure: seq<Chunk> -> Option<string>, ask: (seq<Chunk>, string) -> Result<Option<string>>,
                            docs: seq<Chunk>, qs: seq<Json>)
    requires Load(docPath, document.content) == Ok(docs) && docs != [] && buildFailure(docs).None?
    requires questions.content.json.Ok? && QuestionsField(questions.content.json.value) == Continue(qs)
    ensures Pipeline(document, questions, docPath, buildFailure, ask) ==
      match AnswerAll(qs, docs, ask)
      case Ok(results) => Continue(results)
      case Err(m) => Raise(Failure(m))
  {
  }

  /** A valid request is answered with one entry per non-blank question, in order, each holding the
      stripped question and the answer made from the chain's reply to it; so there are at most as
      many answers as questions. */
  lemma ValidRequestAnswered(document: Upload, questions: Upload, tempDir: string, token: string,
                             buildFailure: seq<Chunk> -> Option<string>, ask: (seq<Chunk>, string) -> Result<Option<string>>,
                             qs: seq<Json>)
    requires DocumentSuffixOk(document) && QuestionsSuffixOk(questions)
    requires var loaded := Load(TempPath(tempDir, token, SplitExt(document.filename)), document.content);
      loaded.Ok? && loaded.value != [] && buildFailure(loaded.value).None?
    requires questions.content.json.Ok? && questions.content.json.value.JObject?
    requires Get(questions.content.json.value.entries, "questions") == Some(JList(qs)) && AllStrings(qs)
    ensures var docs := Load(TempPath(tempDir, token, SplitExt(document.filename)), document.content).value;
      var r := Respond(Some(document), Some(questions), tempDir, token, buildFailure, ask);
      r.Answers? && |r.answers| == |NonBlank(qs)| <= |qs| &&
      forall j :: 0 <= j < |r.answers| ==>
        r.answers[j].question == NonBlank(qs)[j] &&
        r.answers[j].answer == AnswerText(ask(docs, NonBlank(qs)[j]))
  {
    var docs := Load(TempPath(tempDir, token, SplitExt(document.filename)), document.content).value;
    AnswerAllSpec(qs, docs, ask);
    QuestionsLoopDecides(document, questions, tempDir, token, buildFailure, ask, docs, qs);
  }

  /** The suffixes of the two file names of the endpoint test, "a.pdf" and "b.json", pass the
      upload checks. */
  lemma MockedNames()
    ensures SplitExt("a.pdf") == ".pdf" && SplitExt("b.json") == ".json"
    ensures Lower(".pdf") == ".pdf" && Lower(".json") == ".json"
  {
    MockedNamesSplit("a.pdf", "b.json");
  }

  lemma MockedNamesSplit(document: string, questions: string)
    requires document == "a.pdf" && questions == "b.json"
    ensures SplitExt(document) == ".pdf" && SplitExt(questions) == ".json"
    ensures Lower(".pdf") == ".pdf" && Lower(".json") == ".json"
  {
    var pdf, json := document[1..], questions[1..];
    assert document == "a" + pdf && questions == "b" + json;
    LowerOfFour(pdf, '.', 'p', 'd', 'f');
    LowerOfFive(json, '.', 'j', 's', 'o', 'n');
    PdfIsExtension(pdf);
    JsonIsExtension(json);
    MockedName("a", pdf);
    MockedName("b", json);
  }


  /** A one-character stem that is not a dot or a separator, followed by an extension, splits
      off exactly that extension. */
  lemma MockedName(stem: string, ext: string)
    requires |stem| == 1 && stem[0] != '.' && stem[0] != '/'
    requires IsExtension(ext)
    ensures SplitExt(stem + ext) == ext
  {
    assert HasNonDot(stem) by { assert stem[0] != '.'; }
    SplitExtOf(stem, ext);
  }

  /** The chain of the endpoint test answers its one question with "mock answer". */
  lemma MockedAnswers(docs: seq<Chunk>, ask: (seq<Chunk>, string) -> Result<Option<string>>)
    requires forall d, q :: ask(d, q) == Ok(Some("mock answer"))
    ensures AnswerAll([JString("Example question")], docs, ask) == Ok([ResponseItem("Example question", "mock answer")])
  {
    var q, a := "Example question", "mock answer";
    assert IsStripped(q) && IsStripped(a) by { assert q[0] == 'E' && q[15] == 'n' && a[0] == 'm' && a[10] == 'r'; }
    StripKeeps(q);
    StripKeeps(a);
    assert AnswerText(ask(docs, q)) == a;
    assert q != "";
    AnswerAllStep([], JString(q), docs, ask);
    assert [] + [JString(q)] == [JString(q)];
    assert [] + [ResponseItem(q, a)] == [ResponseItem(q, a)];
  }

  /** The loader reads the test's PDF upload from its temporary copy. */
  lemma MockedLoad(file: FileView)
    requires file.pdf.Ok?
    ensures Load(TempPath("/tmp", "k2v9x_0q", ".pdf"), file) == Ok(TagAll(file.pdf.value, "tmp" + "k2v9x_0q" + ".pdf"))
  {
    var token, ext := "k2v9x_0q", ".pdf";
    assert ValidToken(token);
    assert IsExtension(ext);
    LowerKeeps(ext);
    TempPdfLoad("/tmp", token, ext, file);
  }

  /** A PDF upload copied to its temporary path is read by the PDF branch under its temporary name. */
  lemma TempPdfLoad(dir: string, token: string, ext: string, file: FileView)
    requires ValidToken(token) && IsExtension(ext) && Lower(ext) == ".pdf" && file.pdf.Ok?
    ensures Load(TempPath(dir, token, ext), file) == Ok(TagAll(file.pdf.value, "tmp" + token + ext))
  {
    TempPathKeepsSuffix(dir, token, ext);
  }

  /** The request of the endpoint test: a one-chunk PDF named "a.pdf", a questions file "b.json"
      holding ["Example question"], a chain builder that succeeds and a chain that always answers
      "mock answer"; the response is a 200 with that single answer. */
  lemma MockedRequest(build: seq<Chunk> -> Option<string>, ask: (seq<Chunk>, string) -> Result<Option<string>>)
    requires forall docs :: build(docs) == None
    requires forall d, q :: ask(d, q) == Ok(Some("mock answer"))
    ensures var document := Upload("a.pdf", FileView(Err("Expecting value: line 1 column 1 (char 0)"),
                                                  Ok([Chunk("fake content", map["source_type" := JString("pdf")])])));
      var questions := Upload("b.json", FileView(Ok(JObject([("questions", JList([JString("Example question")]))])),
                                                 Err("not a PDF")));
      var r := Respond(Some(document), Some(questions), "/tmp", "k2v9x_0q", build, ask);
      Status(r) == 200 && r == Answers([ResponseItem("Example question", "mock answer")])
  {
    var document := Upload("a.pdf", FileView(Err("Expecting value: line 1 column 1 (char 0)"),
                                          Ok([Chunk("fake content", map["source_type" := JString("pdf")])])));
    var questions := Upload("b.json", FileView(Ok(JObject([("questions", JList([JString("Example question")]))])),
                                               Err("not a PDF")));
    MockedNames();
    assert DocumentSuffixOk(document) && QuestionsSuffixOk(questions);
    MockedLoad(document.content);
    var docs := TagAll([Chunk("fake content", map["source_type" := JString("pdf")])], "tmp" + "k2v9x_0q" + ".pdf");
    assert |docs| == 1;
    assert Get(questions.content.json.value.entries, "questions") == Some(JList([JString("Example question")]));
    MockedAnswers(docs, ask);
    QuestionsLoopDecides(document, questions, "/tmp", "k2v9x_0q", build, ask, docs, [JString("Example question")]);
  }
}
