# Zania QA backend: the loader and the `/qa` handler in Dafny

This project models the two parts of the Zania question-answering backend that hold logic of
their own:

- `load_documents` (`app/services/loader.py`) turns a knowledge-base file into chunks. It picks
  the PDF or the JSON branch from the path's suffix, compared case-insensitively. In the PDF
  branch it tags every chunk the splitter produced. In the JSON branch it reads either a list of
  question/answer dictionaries or a dictionary with a `questions` key. Any other suffix raises.
- `qa_endpoint` (`app/main.py`) handles `POST /qa`. It runs the upload checks in a fixed order,
  loads the knowledge base from a temporary copy and rejects an empty one. It builds the chain,
  reads the questions file and checks its `questions` list. It then answers every non-blank
  question in turn and maps exceptions to 400 and 500 responses.

Both are imperative in the source, and both are imperative here:

- `Loader.LoadDocuments` and its three loop methods are proved against the function `Loader.Load`.
- `Endpoint.QaEndpoint` and its questions loop `Endpoint.AnswerQuestions` are proved against
  `Endpoint.Respond`.

The properties are lemmas about those functions. The loops' invariants tie the partial result to
the function of the prefix processed so far.

Layout:

| file | content |
|---|---|
| `results.dfy` | `Option` and `Result`; `Err(msg)` stands for a raised exception whose `str(e)` is `msg` |
| `text.dfy` | Python's `str.strip()` over the full white-space set of `str.isspace()`, and `str.lower()` |
| `json.dfy` | the values `json.load` produces: objects as entry sequences in dictionary order, lists, strings, the other scalars; `dict.get`; Python type names |
| `paths.dfy` | `PurePosixPath(p).name` and `.suffix` (used by the loader), and `os.path.splitext(p)[1]` (used by the handler) |
| `loader.dfy` | `load_documents` |
| `endpoint.dfy` | `qa_endpoint` |

Calls into code that is not part of this model are parameters:

- A file's content is a `FileView`. It holds what `json.load` returns or raises, and what the PDF
  reader followed by the character splitter returns or raises.
- Building the retriever and the chain is `buildFailure(docs)`: the message it raises, if any.
- Invoking the chain on a question is `ask(docs, q)`. It returns the `result` text (`None` when
  the key is missing) or raises with a message.
- The temporary copy of the document is `tempDir + "/tmp" + token + suffix`. This is the shape of
  the names `tempfile.NamedTemporaryFile(suffix=...)` creates, with the random token a parameter.

The model covers the Python edge cases the code reaches as written:

- a questions file whose top level is a list, a string or a scalar (`"questions" in ...` then
  means membership or a substring, or raises);
- a non-string question (`.strip()` raises and the request becomes a 500);
- a `questions` value in a knowledge-base file that is a string or a dictionary (iterated by
  character or by key) or a scalar (not iterable);
- a question/answer dictionary whose `question` or `answer` is not a string.

Three consequences of the code as written:

- The PDF chunks' `file_name` is the name of the temporary copy the loader is given,
  `tmp<token><ext>`, where `<ext>` is the uploaded file's extension with its own spelling (".PDF"
  stays ".PDF"). It is not the uploaded file's name. `Endpoint.TempPathKeepsSuffix` and
  `Endpoint.LoaderSeesUploadSuffix` state this.
- The loader's unsupported-type error cannot arise from the handler. The handler accepts only a
  document whose extension lower-cases to ".pdf" or ".json", and the temporary copy carries that
  same extension as its suffix, so the loader always takes one of its two branches
  (`Endpoint.DocumentSuffixAccepted`, `Endpoint.TempPathKeepsSuffix`,
  `Endpoint.LoaderSeesUploadSuffix`). The loader's other exceptions, like every other non-HTTP
  exception inside the `try` block, become a 500 whose detail is `"Internal Server Error: "`
  followed by the exception's text.
- The loader raises errors other than the unsupported-type one: `json.load` failures, `.strip()`
  on non-strings, iterating a scalar, and a non-string `questions` entry rejected by the
  `Document` validation.

## Model

| member | source | states |
|---|---|---|
| `Text.Strip` | zania-qa-backend/app/main.py:84 | the stripped text is no longer than the input and has no white space at either end |
| `Text.StripIsCore` | zania-qa-backend/app/services/loader.py:46-47 | the strip is a contiguous slice of the input with only white space before and after it |
| `Text.StripUnique` | zania-qa-backend/app/main.py:84 | white space around a core without white space at its ends strips to exactly that core |
| `Text.StripBlank` | zania-qa-backend/app/main.py:84-86 | a string strips to nothing exactly when it is all white space |
| `Text.StripIdempotent` | zania-qa-backend/app/main.py:84 | stripping twice is stripping once |
| `Text.StripPadding` | zania-qa-backend/app/services/loader.py:46-47 | padding a string with white space on either side leaves its strip unchanged |
| `Text.StripStartShape` | zania-qa-backend/app/services/loader.py:46 | `lstrip` keeps a suffix not starting with white space and drops only white space |
| `Text.StripEndShape` | zania-qa-backend/app/services/loader.py:46 | `rstrip` keeps a prefix not ending with white space and drops only white space |
| `Text.LowerAt` | zania-qa-backend/app/services/loader.py:15 | `Text.Lower`, the model of `str.lower()` used on both suffix checks of the loader and of the handler, keeps the length and maps each character on its own |
| `Text.LowerMatches` | zania-qa-backend/app/main.py:51 | `Lower(s)` equals a lower-case `t` exactly when `s` spells `t` in any mix of cases |
| `Text.PdfSpellings` | zania-qa-backend/app/services/loader.py:15 | the strings that lower-case to ".pdf" are exactly the 8 case variants of ".pdf" |
| `Text.JsonSpellings` | zania-qa-backend/app/services/loader.py:38 | the strings that lower-case to ".json" are exactly the 16 case variants of ".json" |
| `Json.Get` | zania-qa-backend/app/services/loader.py:46 | `d.get(key)` is absent exactly when no entry has the key, and otherwise one of the entries |
| `Paths.RFind` | zania-qa-backend/app/main.py:48 | the index of the last occurrence of the character, or -1 when there is none |
| `Paths.Name` | zania-qa-backend/app/services/loader.py:32 | a path's name holds no separator and is never "." |
| `Paths.Suffix` | zania-qa-backend/app/services/loader.py:15 | a path's suffix is empty or a dot followed by at least one character, with no further dot and no separator |
| `Paths.SplitExt` | zania-qa-backend/app/main.py:48-49 | the extension is empty or starts with the only dot it holds and has no separator |
| `Paths.AppendName` | zania-qa-backend/app/services/loader.py:32 | the name of `base + ext` is the last component of `base` followed by `ext` |
| `Paths.AppendSuffix` | zania-qa-backend/app/services/loader.py:15 | an extension appended to a path that does not end in a separator is that path's suffix |
| `Paths.SplitExtOf` | zania-qa-backend/app/main.py:48 | the extension of a separator-free stem that is not all dots, followed by an extension, is that extension |
| `Loader.StrippedField` | zania-qa-backend/app/services/loader.py:46-47 | `d.get(key, "").strip()` succeeds exactly when the key is absent or holds a string, gives a stripped text, and otherwise raises the `.strip()` error for the stored value |
| `Loader.QaPairChunk` | zania-qa-backend/app/services/loader.py:46-53 | a dictionary converts exactly when its question and answer are strings or absent, and its chunk is tagged `json_qa_pair` only |
| `Loader.QuestionChunk` | zania-qa-backend/app/services/loader.py:58-62 | a `questions` entry converts exactly when it is a string, to a chunk holding it unstripped and tagged `json_questions` only; otherwise the validation error |
| `Loader.ConvertAll` | zania-qa-backend/app/services/loader.py:42-63 | a conversion that raises nothing gives one chunk per item |
| `Loader.Iterate` | zania-qa-backend/app/services/loader.py:57 | `for q in v` visits a list's elements, a string's one-character strings or a dictionary's keys, in order, and raises "not iterable" exactly for a scalar |
| `Loader.JsonChunks` | zania-qa-backend/app/services/loader.py:42-64 | a top-level string or scalar gives no chunks, a list of dictionaries that raises nothing gives one chunk per dictionary, and only a list or an object can raise |
| `Loader.Load` | zania-qa-backend/app/services/loader.py:12-68 | any suffix other than ".pdf" or ".json" in any case raises the unsupported-type error; the PDF branch raises exactly when the reader does and otherwise keeps the chunk count; the JSON branch raises what `json.load` raises |
| `Loader.PdfTagged` | zania-qa-backend/app/services/loader.py:30-32 | a tagged chunk keeps its text, gains `source_type` "pdf" and `file_name`, and keeps every other metadata entry |
| `Loader.TagAll` | zania-qa-backend/app/services/loader.py:30-32 | after the tagging loop there are as many chunks as before, each with its text unchanged, `source_type` "pdf" and the given `file_name` |
| `Loader.TagPdfChunks` | zania-qa-backend/app/services/loader.py:30-32 | the in-place tagging loop yields the tagged chunk at every position |
| `Loader.QaPairDocs` | zania-qa-backend/app/services/loader.py:45-54 | the append loop over question/answer dictionaries yields the conversion of the whole list, or its first error |
| `Loader.QuestionDocs` | zania-qa-backend/app/services/loader.py:57-63 | the append loop over the questions yields the conversion of the whole sequence, or its first error |
| `Loader.LoadDocuments` | zania-qa-backend/app/services/loader.py:12-68 | `load_documents` returns or raises what `Load` says, for every path and file content |
| `Loader.ConvertAllErrorSticks` | zania-qa-backend/app/services/loader.py:45-54 | once a prefix of the items fails, the whole conversion fails with the same error |
| `Loader.ConvertAllStopsAt` | zania-qa-backend/app/services/loader.py:45-54 | the first item that fails decides the error of the whole conversion |
| `Loader.ConvertAllSpec` | zania-qa-backend/app/services/loader.py:42-63 | the conversion succeeds exactly when every item converts, then gives one chunk per item in input order, and otherwise raises the first failure |
| `Loader.QaPairFormat` | zania-qa-backend/app/services/loader.py:46-53 | a question/answer chunk is "Question: " + stripped question + "\nAnswer: " + stripped answer, a missing key counting as "", with metadata `{source_type: "json_qa_pair"}` only |
| `Loader.QaPairIgnoresPadding` | zania-qa-backend/app/services/loader.py:46-47 | dictionaries whose texts differ only by surrounding white space give the same chunk |
| `Loader.QaPairList` | zania-qa-backend/app/services/loader.py:44-54 | a list of dictionaries gives one chunk per dictionary in order when all texts are strings or absent, and otherwise raises the first failing dictionary's error |
| `Loader.QuestionList` | zania-qa-backend/app/services/loader.py:56-63 | a `questions` list gives one chunk per entry, holding the entry unchanged with metadata `{source_type: "json_questions"}` only, exactly when every entry is a string |
| `Loader.OtherShapesGiveNothing` | zania-qa-backend/app/services/loader.py:42-64 | any other JSON shape gives an empty list and raises nothing |
| `Loader.PdfBranch` | zania-qa-backend/app/services/loader.py:27-32 | the PDF branch keeps the splitter's chunk count, order and texts, and tags each chunk with "pdf" and the path's name while keeping its other metadata |
| `Loader.PdfAnyCase` | zania-qa-backend/app/services/loader.py:15 | any spelling of ".pdf" takes the PDF branch, with the path's last component as the file name |
| `Loader.JsonAnyCase` | zania-qa-backend/app/services/loader.py:38 | any spelling of ".json" takes the JSON branch |
| `Loader.PdfIsExtension` | zania-qa-backend/app/services/loader.py:15 | every spelling of ".pdf" is a well-formed extension |
| `Loader.RefusedExactlyForOtherSuffixes` | zania-qa-backend/app/services/loader.py:66-68 | a path raises the unsupported-type error for every file content exactly when its suffix is neither ".pdf" nor ".json" in any case |
| `Loader.OtherExtensionsRefused` | zania-qa-backend/tests/test_loader.py:33-44 | ".txt", ".csv" and ".docx" files raise the unsupported-type error |
| `Loader.PdfExample` | zania-qa-backend/tests/test_loader.py:6-30 | a PDF split into one chunk "Hello from PDF" gives one chunk with that text that still has its `source` entry |
| `Endpoint.QaEndpoint` | zania-qa-backend/app/main.py:34-107 | the handler returns the response `Respond` gives for every upload, oracle and temporary name |
| `Endpoint.AnswerQuestions` | zania-qa-backend/app/main.py:82-96 | the questions loop with `continue` yields what `AnswerAll` gives for the whole list |
| `Endpoint.Respond` | zania-qa-backend/app/main.py:45-107 | every 400 carries one of the five details the handler raises |
| `Endpoint.Process` | zania-qa-backend/app/main.py:56-107 | inside the `try` block the only 400s are the empty knowledge base and the questions schema |
| `Endpoint.Pipeline` | zania-qa-backend/app/main.py:56-99 | an `HTTPException` raised in the `try` block is one of those two |
| `Endpoint.AnswerText` | zania-qa-backend/app/main.py:89-94 | the answer stored for a question is never empty |
| `Endpoint.AnswerAll` | zania-qa-backend/app/main.py:82-96 | a loop that raises nothing gives at most one entry per question, each with a non-empty question and a non-empty answer |
| `Endpoint.QuestionsField` | zania-qa-backend/app/main.py:78-79 | the loop is reached exactly when the questions file is an object whose `questions` value is a list, and then over that list; the only 400 it raises is the schema one, and a scalar top level raises a `TypeError` |
| `Endpoint.Handle` | zania-qa-backend/app/main.py:101-107 | an `HTTPException` propagates with its own detail, every other exception becomes a 500, and no exception becomes a 200 |
| `Endpoint.NonBlank` | zania-qa-backend/app/main.py:83-86 | the questions kept are non-empty and have no white space at either end, and there are at most as many as entries |
| `Endpoint.NonBlankAppend` | zania-qa-backend/app/main.py:83-86 | one more entry adds its stripped text to the kept questions unless it is blank |
| `Endpoint.AnswerAllErrorSticks` | zania-qa-backend/app/main.py:84 | once a prefix of the questions raises, the whole loop raises the same error |
| `Endpoint.AnswerAllStep` | zania-qa-backend/app/main.py:84-96 | one more string question appends its entry, unless it strips to nothing |
| `Endpoint.AnswerAllSpec` | zania-qa-backend/app/main.py:82-96 | for string questions the loop raises nothing and gives one entry per non-blank question in input order, holding the stripped question and the answer built from the chain's reply to exactly that question |
| `Endpoint.BlankQuestionIgnored` | zania-qa-backend/app/main.py:84-86 | a blank or white-space-only question adds nothing to the answers |
| `Endpoint.FailureStaysWithItsQuestion` | zania-qa-backend/app/main.py:89-96 | changing what the chain does on one question text changes only the entries for that text, and a failure there becomes that entry's error text while the loop goes on |
| `Endpoint.NonStringAborts` | zania-qa-backend/app/main.py:84 | a non-string question aborts the loop with the `.strip()` error even after earlier answers |
| `Endpoint.AnswerTextCases` | zania-qa-backend/app/main.py:89-94 | an answer is never empty: the stripped `result` text, "No answer generated." when that is blank or missing, or "Error during QA execution: " + the message |
| `Endpoint.ContainsAt` | zania-qa-backend/app/main.py:78 | `"questions" in s` on a string top level holds exactly when "questions" occurs in `s` at some position |
| `Endpoint.DocumentSuffixAccepted` | zania-qa-backend/app/main.py:51-52 | the document check accepts exactly the extensions spelling ".pdf" or ".json" in any mix of cases, and each accepted one is a well-formed extension |
| `Endpoint.QuestionsSuffixAccepted` | zania-qa-backend/app/main.py:53-54 | the questions check accepts exactly the extensions spelling ".json" in any mix of cases, each a well-formed extension |
| `Endpoint.TempPath` | zania-qa-backend/app/main.py:59 | the temporary copy's path is the directory, "/tmp", the token and the suffix, and so ends with the suffix it was given |
| `Endpoint.RespondProcesses` | zania-qa-backend/app/main.py:45-56 | once both uploads are present and pass their checks, the response is that of the `try` block |
| `Endpoint.MissingUploadFirst` | zania-qa-backend/app/main.py:45-46 | a missing upload gives the missing-files 400, whatever else the request holds |
| `Endpoint.DocumentSuffixSecond` | zania-qa-backend/app/main.py:51-52 | with both uploads present, a document suffix other than .pdf or .json in any case gives its 400, whatever the questions file is |
| `Endpoint.QuestionsSuffixThird` | zania-qa-backend/app/main.py:53-54 | then a questions suffix other than .json in any case gives its 400 |
| `Endpoint.AcceptedUploadsPass` | zania-qa-backend/app/main.py:45-54 | once both uploads pass their checks, the response is none of the three upload-check 400s |
| `Endpoint.UploadChecksExact` | zania-qa-backend/app/main.py:45-54 | the response is one of the three upload-check 400s exactly when an upload is missing or has a refused suffix |
| `Endpoint.TempPathKeepsSuffix` | zania-qa-backend/app/main.py:59 | the temporary copy's path has the upload's extension as its suffix and `tmp<token><ext>` as its name |
| `Endpoint.LoaderSeesUploadSuffix` | zania-qa-backend/app/main.py:59-65 | the loader takes the branch of the upload's own suffix, and PDF chunks are tagged with the temporary file's name |
| `Endpoint.TempPdfLoad` | zania-qa-backend/app/main.py:59-65 | a PDF upload copied under any valid token and extension is loaded as the splitter's chunks tagged with `tmp<token><ext>` |
| `Endpoint.EmptyKnowledgeBase` | zania-qa-backend/app/main.py:65-67 | an empty knowledge base gives the 400, whatever the chain builder and the chain would do |
| `Endpoint.UnusableJsonKnowledgeBase` | zania-qa-backend/app/main.py:65-67 | a JSON knowledge base of any other shape gives the empty-knowledge-base 400 |
| `Endpoint.FailuresBecomeInternalErrors` | zania-qa-backend/app/main.py:104-107 | a loader failure, a chain-building failure and an unparsable questions file each give a 500 whose detail is "Internal Server Error: " + the error's text |
| `Endpoint.InternalErrorsPrefixed` | zania-qa-backend/app/main.py:104-107 | every 500 detail is "Internal Server Error: " followed by some message |
| `Endpoint.QuestionsSchemaChecked` | zania-qa-backend/app/main.py:78-79 | a questions object without a `questions` key, or whose value is not a list, gives the schema 400 |
| `Endpoint.QuestionsLoopDecides` | zania-qa-backend/app/main.py:81-99 | past the checks, the response is the loop's answers, or a 500 carrying the error that stopped it |
| `Endpoint.ValidRequestAnswered` | zania-qa-backend/app/main.py:81-99 | a valid request gets a 200 with one entry per non-blank question in order, holding the stripped question and its answer, so no more entries than questions |
| `Endpoint.MockedRequest` | zania-qa-backend/tests/test_endpoints.py:26-67 | "a.pdf" and "b.json" holding ["Example question"], with a chain that always answers "mock answer", give a 200 with exactly that one answer |

## Left out

- The retriever and the chain (`app/services/qa_chain.py`): both are foreign library and model calls. They are the parameters `buildFailure` and `ask`, so the missing-API-key error is one value `buildFailure` may return.
- PDF text extraction and the character splitter (chunk size 2500, overlap 400, separators): library code. Their outcome is a field of `FileView`.
- Writing the uploads to temporary files, reading them back, and deleting them in the `finally` block: filesystem I/O. The temporary directory and random token are parameters. The questions file's temporary name is not modelled, because only its content is read.
- FastAPI behaviour outside the handler: the 422 for missing multipart fields, and an upload whose `filename` is `None`. An absent upload is `None` for the handler, as `not document` tests it.
- `print`, `traceback.print_exc` and logging: output only.
- `Text.Lower`: maps only the ASCII letters. Here it is only compared with ".pdf" and ".json", and no other character lowers to one of their letters, so the outcome matches Python's `str.lower()`.
- `Text.Strip`: a string is a sequence of Unicode scalar values, so lone surrogates in JSON text are not representable.
- A chain reply like `result.get("result", "")` on a non-dictionary, or a `result` value that is not a string: `ask` returns the text or an error, and both of those raise inside the inner `try`, which the error case covers.
- JSON objects with duplicate keys: `json.load` keeps one value per key, and the model's objects are taken to have distinct keys already.
- `Loader.DocumentValidationMessage`: the model follows pydantic v2 validation, under which a `questions` entry that is not a string (an `int`, a `float`, a `bool`, `None`, a list or a dictionary) is rejected. Under pydantic v1 numbers and booleans are coerced to strings and accepted instead. Only the first line of the validation report is modelled, because the rest depends on the pydantic version.
- `Endpoint.QuestionsField`: the message for a string top level with "questions" in it is Python 3.11's ("string indices must be integers, not 'str'"). Older versions drop the last part.
- `Paths.SplitExt`: its contract does not state that the extension is a suffix of the path. `Paths.SplitExtOf` states the extension exactly for a stem followed by an extension.
- `Endpoint.Respond`: its contract lists the possible 400 details but not the 500 prefix. `Endpoint.InternalErrorsPrefixed` states that every 500 detail is the prefix followed by a message.
- `Endpoint.AnswerAll`: the chain is the function `ask(docs, q)` of the chunks and the question text, so each call of `qa_chain.invoke` is not modelled on its own. A question text that occurs twice in the list gets the same reply both times, whereas the real chain is a separate model call each time and may, for example, fail once and succeed once. `Endpoint.FailureStaysWithItsQuestion` and `Endpoint.AnswerAllSpec` speak of a question text, not of one position in the list.
- `Json.Scalar`: numbers and booleans keep only their kind (`int`, `float`, `bool`, `None`), not their value, because no modelled branch reads the value. Metadata entries such as a page number are therefore equal in the model whenever their kinds are, so "keeps every other metadata entry" in `Loader.PdfTagged` and `Loader.PdfBranch` holds up to the kind of such scalars.
