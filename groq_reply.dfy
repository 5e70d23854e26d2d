/** How `_groq_chat` turns what came back from the chat-completions endpoint
    into the answer string. The HTTP call is not modelled: a `Response` says
    what it produced, and `Classify` is the code that runs after it. Python
    values produced by `res.json()` are `Json` values, Python exceptions
    raised on the way are `PyError`s, and `str(...)` of both is spelled out. */
module GroqReply {
  import opened Wrappers
  import opened Text

  /** The Python value `res.json()` returns. Dicts keep their insertion order;
      the type admits a repeated key, which `json.loads` never produces (see
      `DistinctKeys`). */
  datatype Json =
    | JNull
    | JBool(b: bool)
    | JInt(i: int)
    | JStr(s: string)
    | JList(items: seq<Json>)
    | JDict(entries: seq<Entry>)

  datatype Entry = Entry(key: string, value: Json)

  /** The body of a reply: parsed by `res.json()`, or not parseable. */
  datatype Body = Parsed(data: Json) | NotJson

  /** What `requests.post` did: it raised (timeout, connection error; `detail`
      is `str(e)`), or it received a reply with a status code, the reason
      phrase, the final URL and a body. */
  datatype Response =
    | RequestRaised(detail: string)
    | Received(status: nat, reason: string, url: string, body: Body)

  /** The exceptions the classification can raise, caught by the outer
      `except Exception`. */
  datatype PyError =
    | RequestError(detail: string)
    | HttpError(status: nat, reason: string, url: string)
    | KeyError(key: Json)
    | IndexError(kind: string)
    | TypeError(message: string)
    | AttributeError(typeName: string, attribute: string)

  /** The warning sign (U+26A0 U+FE0F) that starts every failure answer. */
  const Warning := "\U{26A0}\U{FE0F}"
  const ExceptionPrefix := Warning + " Groq API exception: "
  const NonJsonReply := Warning + " Groq API returned non-JSON response"
  const ErrorPrefix := Warning + " Groq API error: "

  /** Python truthiness. */
  predicate Truthy(v: Json) {
    match v
    case JNull => false
    case JBool(b) => b
    case JInt(i) => i != 0
    case JStr(s) => s != ""
    case JList(items) => items != []
    case JDict(entries) => entries != []
  }

  /** Python's `a or b`. */
  function Or(a: Json, b: Json): Json {
    if Truthy(a) then a else b
  }

  function TypeName(v: Json): string {
    match v
    case JNull => "NoneType"
    case JBool(_) => "bool"
    case JInt(_) => "int"
    case JStr(_) => "str"
    case JList(_) => "list"
    case JDict(_) => "dict"
  }

  /** No key occurs twice, as in every dict `json.loads` returns (it keeps
      the last value of a key the text repeats). */
  predicate DistinctKeys(entries: seq<Entry>) {
    forall i, j :: 0 <= i < j < |entries| ==> entries[i].key != entries[j].key
  }

  /** The value stored under `key`, if any: the first entry with that key,
      which is the only one when the keys are distinct. */
  function Find(entries: seq<Entry>, key: string): (r: Option<Json>)
    ensures r.Some? ==> Entry(key, r.value) in entries
    ensures r.None? ==> forall i :: 0 <= i < |entries| ==> entries[i].key != key
  {
    if entries == [] then None
    else if entries[0].key == key then Some(entries[0].value)
    else Find(entries[1..], key)
  }

  /** On a dict with distinct keys, lookup returns the value of the one
      entry holding the key, as Python's dict does. */
  lemma {:induction false} FindReadsOnlyEntry(entries: seq<Entry>, key: string, i: int)
    requires DistinctKeys(entries)
    requires 0 <= i < |entries| && entries[i].key == key
    ensures Find(entries, key) == Some(entries[i].value)
  {
    if i > 0 {
      assert entries[0].key != key;
      assert entries[1..][i - 1] == entries[i];
      FindReadsOnlyEntry(entries[1..], key, i - 1);
    }
  }

  /** One character of a Python string literal delimited by `quote`. */
  function EscapeChar(c: char, quote: char): string {
    if c == '\\' then "\\\\"
    else if c == quote then ['\\', quote]
    else if c == '\n' then "\\n"
    else if c == '\r' then "\\r"
    else if c == '\t' then "\\t"
    else [c]
  }

  function Escape(s: string, quote: char): string {
    if s == [] then "" else EscapeChar(s[0], quote) + Escape(s[1..], quote)
  }

  /** Python's `repr(s)` for a string: single quotes unless the text holds a
      single quote and no double quote. */
  function QuoteString(s: string): string {
    var quote := if '\'' in s && '"' !in s then '"' else '\'';
    [quote] + Escape(s, quote) + [quote]
  }

  /** Characters `repr` writes as they are, whichever quote it picks. */
  predicate NeedsNoEscape(c: char) {
    c != '\'' && c != '"' && c != '\\' && c != '\n' && c != '\r' && c != '\t'
  }

  /** `repr` of a string with nothing to escape is the string in single quotes. */
  lemma {:induction false} QuotePlainString(s: string)
    requires forall k :: 0 <= k < |s| ==> NeedsNoEscape(s[k])
    ensures QuoteString(s) == "'" + s + "'"
  {
    EscapeNothing(s, '\'');
  }

  lemma {:induction false} EscapeNothing(s: string, quote: char)
    requires quote == '\'' || quote == '"'
    requires forall k :: 0 <= k < |s| ==> NeedsNoEscape(s[k])
    ensures Escape(s, quote) == s
  {
    if s != [] {
      EscapeNothing(s[1..], quote);
      assert s == [s[0]] + s[1..];
    }
  }

  /** Python's `repr(v)`. */
  function Repr(v: Json): string
    decreases v
  {
    match v
    case JNull => "None"
    case JBool(b) => if b then "True" else "False"
    case JInt(i) => IntString(i)
    case JStr(s) => QuoteString(s)
    case JList(items) =>
      "[" + Join(seq(|items|, k requires 0 <= k < |items| => Repr(items[k])), ", ") + "]"
    case JDict(entries) =>
      "{" + Join(seq(|entries|, k requires 0 <= k < |entries| =>
                   QuoteString(entries[k].key) + ": " + Repr(entries[k].value)), ", ") + "}"
  }

  /** Python's `str(v)`: a string is itself, anything else its repr. */
  function Display(v: Json): string {
    if v.JStr? then v.s else Repr(v)
  }

  /** Python's `str(e)` for each exception. */
  function Message(e: PyError): string {
    match e
    case RequestError(detail) => detail
    case HttpError(status, reason, url) =>
      DecimalString(status) + (if status < 500 then " Client Error: " else " Server Error: ")
      + reason + " for url: " + url
    case KeyError(key) => Repr(key)
    case IndexError(kind) => kind + " index out of range"
    case TypeError(message) => message
    case AttributeError(typeName, attribute) =>
      "'" + typeName + "' object has no attribute '" + attribute + "'"
  }

  /** Python's `v.get(key, default)`. */
  function Get(v: Json, key: string, default: Json): Result<Json, PyError> {
    match v
    case JDict(entries) =>
      Success(match Find(entries, key) case Some(x) => x case None => default)
    case _ => Failure(AttributeError(TypeName(v), "get"))
  }

  /** Python's `v[key]` for a string key. */
  function Item(v: Json, key: string): Result<Json, PyError> {
    match v
    case JDict(entries) =>
      (match Find(entries, key) case Some(x) => Success(x) case None => Failure(KeyError(JStr(key))))
    case JList(_) => Failure(TypeError("list indices must be integers or slices, not str"))
    case JStr(_) => Failure(TypeError("string indices must be integers, not 'str'"))
    case _ => Failure(TypeError("'" + TypeName(v) + "' object is not subscriptable"))
  }

  /** Python's `v[0]`. Dict keys from JSON are strings, so never the int 0. */
  function First(v: Json): Result<Json, PyError> {
    match v
    case JList(items) => if items != [] then Success(items[0]) else Failure(IndexError("list"))
    case JStr(s) => if s != "" then Success(JStr([s[0]])) else Failure(IndexError("string"))
    case JDict(_) => Failure(KeyError(JInt(0)))
    case _ => Failure(TypeError("'" + TypeName(v) + "' object is not subscriptable"))
  }

  /** `message.get("content") or choice.get("text") or ""`: the second `get`
      runs only when the content is falsy. */
  function ContentOrText(choice: Json, content: Json): Result<Json, PyError> {
    if Truthy(content) then Success(content)
    else
      var text :- Get(choice, "text", JNull);
      Success(Or(text, JStr("")))
  }

  /** `message = choice.get("message", {})`, then its content or the
      choice's text. */
  function ChoiceValue(choice: Json): Result<Json, PyError> {
    var message :- Get(choice, "message", JDict([]));
    var content :- Get(message, "content", JNull);
    ContentOrText(choice, content)
  }

  /** `value.strip()`: only a string has it. */
  function StripValue(value: Json): Result<string, PyError> {
    match value
    case JStr(s) => Success(Strip(s))
    case _ => Failure(AttributeError(TypeName(value), "strip"))
  }

  /** The success path of a 200 reply: `data["choices"][0]`, its message's
      content (or the choice's text), stripped. */
  function Content(data: Json): Result<string, PyError> {
    var choices :- Item(data, "choices");
    var choice :- First(choices);
    var value :- ChoiceValue(choice);
    StripValue(value)
  }

  /** The answer `_groq_chat` returns for what the endpoint produced. */
  function Classify(resp: Response): string {
    match resp
    case RequestRaised(detail) => ExceptionPrefix + Message(RequestError(detail))
    case Received(status, reason, url, body) =>
      match body
      case NotJson =>
        // res.raise_for_status() raises for 4xx and 5xx before the
        // non-JSON answer is reached
        if 400 <= status < 600 then ExceptionPrefix + Message(HttpError(status, reason, url))
        else NonJsonReply
      case Parsed(data) => if status != 200 then ErrorReply(status, data) else OkReply(data)
  }

  /** A parsed reply with a status other than 200: the status and
      `data.get("error") or data`. */
  function ErrorReply(status: nat, data: Json): string {
    match Get(data, "error", JNull)
    case Failure(e) => ExceptionPrefix + Message(e)
    case Success(err) => ErrorPrefix + DecimalString(status) + " " + Display(Or(err, data))
  }

  /** A parsed 200 reply: the stripped content, or the exception its
      extraction raised. */
  function OkReply(data: Json): string {
    match Content(data)
    case Failure(e) => ExceptionPrefix + Message(e)
    case Success(text) => text
  }

  /** Every answer built as the warning sign, a fixed tag and a detail
      starts with the warning sign. */
  lemma WarningStartsWith(tag: string, detail: string)
    ensures StartsWith(Warning + tag + detail, Warning)
  {
    ConcatPieces(Warning, tag, detail);
  }

  /** A non-200 parsed reply is always reported as a warning. */
  lemma ErrorReplyIsWarning(status: nat, data: Json)
    ensures StartsWith(ErrorReply(status, data), Warning)
  {
    match Get(data, "error", JNull)
    case Failure(e) =>
      WarningStartsWith(" Groq API exception: ", Message(e));
    case Success(err) =>
      WarningStartsWith(" Groq API error: ", DecimalString(status) + " " + Display(Or(err, data)));
  }

  /** A 200 reply yields either a warning or text that strip leaves alone. */
  lemma OkReplyIsWarningOrStripped(data: Json)
    ensures StartsWith(OkReply(data), Warning) || Strip(OkReply(data)) == OkReply(data)
  {
    match Content(data)
    case Failure(e) =>
      WarningStartsWith(" Groq API exception: ", Message(e));
    case Success(text) =>
      ContentIsStripped(data);
  }

  /** What `Content` extracts is already stripped. */
  lemma ContentIsStripped(data: Json)
    ensures Content(data).Success? ==> Strip(Content(data).value) == Content(data).value
  {
    if Content(data).Success? {
      var choices := Item(data, "choices").value;
      var choice := First(choices).value;
      var value := ChoiceValue(choice).value;
      StripIdempotent(value.s);
    }
  }

  /** The answer is always either a warning or a text with no whitespace at
      either end: nothing escapes as an exception, and content is stripped. */
  lemma ClassifyIsWarningOrStripped(resp: Response)
    ensures StartsWith(Classify(resp), Warning) || Strip(Classify(resp)) == Classify(resp)
  {
    match resp
    case RequestRaised(detail) =>
      WarningStartsWith(" Groq API exception: ", detail);
    case Received(status, reason, url, body) =>
      match body
      case NotJson =>
        if 400 <= status < 600 {
          WarningStartsWith(" Groq API exception: ", Message(HttpError(status, reason, url)));
        } else {
          WarningStartsWith(" Groq API returned non-JSON response", "");
          assert NonJsonReply + "" == NonJsonReply;
        }
      case Parsed(data) =>
        if status != 200 {
          ErrorReplyIsWarning(status, data);
        } else {
          OkReplyIsWarningOrStripped(data);
        }
  }

  /** "returned non-JSON response" is the answer for an unparseable body
      exactly when the status is not a 4xx or 5xx; for those the HTTP error
      raised by `raise_for_status` is reported instead. */
  lemma NonJsonReplyIffNoErrorStatus(status: nat, reason: string, url: string)
    ensures Classify(Received(status, reason, url, NotJson)) == NonJsonReply <==> !(400 <= status < 600)
    ensures 400 <= status < 600 ==>
      Classify(Received(status, reason, url, NotJson)) == ExceptionPrefix + Message(HttpError(status, reason, url))
  {
    if 400 <= status < 600 {
      var r := ExceptionPrefix + Message(HttpError(status, reason, url));
      assert r[12] == 'e';
      assert NonJsonReply[12] == 'r';
    }
  }

  /** A failed request is reported with the exception's text. */
  lemma RequestFailureReported(detail: string)
    ensures Classify(RequestRaised(detail)) == ExceptionPrefix + detail
    ensures StartsWith(Classify(RequestRaised(detail)), ExceptionPrefix)
  {
  }

  /** A non-200 reply whose dict has a truthy "error" reports the status and
      that error. */
  lemma ErrorStatusReportsErrorField(status: nat, reason: string, url: string, entries: seq<Entry>, err: Json)
    requires status != 200 && Find(entries, "error") == Some(err) && Truthy(err)
    ensures Classify(Received(status, reason, url, Parsed(JDict(entries))))
            == ErrorPrefix + DecimalString(status) + " " + Display(err)
  {
  }

  /** HTTP 500 with body {"error": "rate_limited"}: the answer reads
      "Groq API error: 500 rate_limited". */
  lemma RateLimitedReported(reason: string, url: string)
    ensures Classify(Received(500, reason, url, Parsed(JDict([Entry("error", JStr("rate_limited"))]))))
            == ErrorPrefix + "500" + " " + "rate_limited"
  {
    var err := JStr("rate_limited");
    var entries := [Entry("error", err)];
    assert Find(entries, "error") == Some(err);
    ErrorStatusReportsErrorField(500, reason, url, entries, err);
    FiveHundredDigits();
  }

  lemma FiveHundredDigits()
    ensures DecimalString(500) == "500"
  {
    assert DecimalString(5) == "5";
    assert DecimalString(50) == "50";
  }

  /** A 200 reply with a parsed body is answered from `Content`. */
  lemma ClassifyOkReply(reason: string, url: string, data: Json)
    ensures Content(data).Success? ==> Classify(Received(200, reason, url, Parsed(data))) == Content(data).value
    ensures Content(data).Failure? ==>
      Classify(Received(200, reason, url, Parsed(data))) == ExceptionPrefix + Message(Content(data).error)
  {
  }

  /** The usual completion: {"choices": [{"message": {"role": ..., "content": c}}]}. */
  function Completion(c: string): Json {
    JDict([Entry("choices", JList([CompletionChoice(c)]))])
  }

  function CompletionChoice(c: string): Json {
    JDict([Entry("message", CompletionMessage(c))])
  }

  function CompletionMessage(c: string): Json {
    JDict([Entry("role", JStr("assistant")), Entry("content", JStr(c))])
  }

  /** A 200 completion answers with its content stripped (an empty content
      falls back to a missing "text", hence to "", which is its strip too). */
  lemma CompletionYieldsStrippedContent(c: string, reason: string, url: string)
    ensures Classify(Received(200, reason, url, Parsed(Completion(c)))) == Strip(c)
  {
    CompletionContent(c);
    ClassifyOkReply(reason, url, Completion(c));
  }

  lemma CompletionContent(c: string)
    ensures Content(Completion(c)) == Success(Strip(c))
  {
    var choice := CompletionChoice(c);
    assert Item(Completion(c), "choices") == Success(JList([choice]));
    assert First(JList([choice])) == Success(choice);
    CompletionChoiceValue(c);
  }

  /** The choice of a usual completion yields its content; an empty content
      falls back to the missing "text", hence to "" again. */
  lemma CompletionChoiceValue(c: string)
    ensures ChoiceValue(CompletionChoice(c)) == Success(JStr(c))
  {
    var message := CompletionMessage(c);
    var choice := CompletionChoice(c);
    assert Get(choice, "message", JDict([])) == Success(message);
    assert Find(message.entries[1..], "content") == Some(JStr(c));
    assert Get(message, "content", JNull) == Success(JStr(c));
    if c == "" {
      assert Find(choice.entries[1..], "text") == None;
      assert Get(choice, "text", JNull) == Success(JNull);
    }
  }

  /** Without a message, the choice's "text" is used. */
  lemma TextFallbackYieldsStrippedText(t: string, reason: string, url: string)
    ensures Classify(Received(200, reason, url, Parsed(JDict([Entry("choices",
              JList([JDict([Entry("text", JStr(t))])]))])))) == Strip(t)
  {
    var data := JDict([Entry("choices", JList([JDict([Entry("text", JStr(t))])]))]);
    TextFallbackContent(t);
    ClassifyOkReply(reason, url, data);
  }

  lemma TextFallbackContent(t: string)
    ensures Content(JDict([Entry("choices", JList([JDict([Entry("text", JStr(t))])]))])) == Success(Strip(t))
  {
    var choice := JDict([Entry("text", JStr(t))]);
    var choices := JList([choice]);
    var data := JDict([Entry("choices", choices)]);
    assert Item(data, "choices") == Success(choices);
    assert First(choices) == Success(choice);
    TextChoiceValue(t);
  }

  /** A choice with only "text" yields that text ("" for an empty one). */
  lemma TextChoiceValue(t: string)
    ensures ChoiceValue(JDict([Entry("text", JStr(t))])) == Success(JStr(t))
  {
    var choice := JDict([Entry("text", JStr(t))]);
    assert Find(choice.entries[1..], "message") == None;
    assert Get(choice, "message", JDict([])) == Success(JDict([]));
    assert Get(JDict([]), "content", JNull) == Success(JNull);
    assert Get(choice, "text", JNull) == Success(JStr(t));
  }

  /** A 200 reply without "choices" reports the KeyError. */
  lemma MissingChoicesReported(entries: seq<Entry>, reason: string, url: string)
    requires Find(entries, "choices") == None
    ensures Classify(Received(200, reason, url, Parsed(JDict(entries)))) == ExceptionPrefix + "'choices'"
  {
    MissingChoicesRaises(entries);
    ChoicesKeyErrorText();
    ClassifyOkReply(reason, url, JDict(entries));
  }

  lemma MissingChoicesRaises(entries: seq<Entry>)
    requires Find(entries, "choices") == None
    ensures Content(JDict(entries)) == Failure(KeyError(JStr("choices")))
  {
    assert Item(JDict(entries), "choices") == Failure(KeyError(JStr("choices")));
  }

  lemma ChoicesKeyErrorText()
    ensures Message(KeyError(JStr("choices"))) == "'choices'"
  {
    QuotePlainString("choices");
  }

  /** A 200 reply with an empty "choices" list reports the IndexError:
      "Groq API exception: list index out of range". */
  lemma EmptyChoicesReported(reason: string, url: string)
    ensures Classify(Received(200, reason, url, Parsed(JDict([Entry("choices", JList([]))]))))
            == ExceptionPrefix + ("list" + " index out of range")
  {
    var data := JDict([Entry("choices", JList([]))]);
    EmptyChoicesRaises();
    ClassifyOkReply(reason, url, data);
  }

  lemma EmptyChoicesRaises()
    ensures Content(JDict([Entry("choices", JList([]))])) == Failure(IndexError("list"))
  {
    assert Item(JDict([Entry("choices", JList([]))]), "choices") == Success(JList([]));
  }
}
