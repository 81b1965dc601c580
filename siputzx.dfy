/**
 * The text-generation client (`call_siputzx`). The HTTP calls are not
 * modelled: what each provider answered is an input (`Outcome`), and the
 * function returns, besides the answer, the requests it would have made, so
 * that "no request" and "no fallback request" can be stated.
 */
module Siputzx {
  import opened Wrappers
  import opened Text
  import opened Json
  import Config

  /** The body of an HTTP response: text that `json.loads` rejects, or the value it parses to. */
  datatype Body = Unparsable(raw: string) | Parsed(value: Json)

  /** What a provider did with one request: the request raised, or it answered. */
  datatype Outcome = TransportError | Response(status: int, body: Body)

  /**
   * The two requests: the primary provider gets the persona as `prompt` and
   * the user's text as `content`; the fallback provider gets the text alone.
   */
  datatype Request = PrimaryRequest(prompt: string, content: string) | FallbackRequest(text: string)

  datatype Generation = Generation(answer: Option<string>, requests: seq<Request>)

  /** An answer the client may return: none, or a non-empty string with no whitespace at either end. */
  predicate IsAnswer(a: Option<string>) {
    a.Some? ==> a.value != [] && IsTrimmed(a.value)
  }

  /** `s.strip() or None`. */
  function NonBlank(s: string): (r: Option<string>)
    ensures r.None? <==> AllSpace(s)
    ensures r.Some? ==> r.value != [] && IsTrimmed(r.value) && |r.value| <= |s|
  {
    if Trim(s) == [] then None else Some(Trim(s))
  }

  /** The test `isinstance(v, str) and v.strip()` and then `v.strip()`: a non-blank string value, trimmed. */
  function TextOf(v: Option<Json>): (r: Option<string>)
    ensures r.Some? ==> v.Some? && v.value.JString? && r == NonBlank(v.value.str)
    ensures v.Some? && v.value.JString? ==> r == NonBlank(v.value.str)
    ensures IsAnswer(r)
  {
    match v
    case Some(JString(s)) => NonBlank(s)
    case _ => None
  }

  /** `for v in js.values(): if isinstance(v, str) and v.strip(): return v.strip()`. */
  function FirstTextValue(fields: seq<(string, Json)>): (r: Option<string>)
    ensures r.None? <==> forall i :: 0 <= i < |fields| ==> TextOf(Some(fields[i].1)).None?
    ensures IsAnswer(r)
  {
    if fields == [] then None
    else if TextOf(Some(fields[0].1)).Some? then TextOf(Some(fields[0].1))
    else
      assert forall i :: 1 <= i < |fields| ==> fields[i] == fields[1..][i - 1];
      FirstTextValue(fields[1..])
  }

  /** The inner object of `js.get(key)` when that is an object, else no fields. */
  function ObjectAt(fields: seq<(string, Json)>, key: string): seq<(string, Json)> {
    match Get(fields, key)
    case Some(JObject(inner)) => inner
    case _ => []
  }

  /**
   * The answer the primary provider's parsed body yields (main.py:129-139):
   * `data` as a non-blank string, else `data.content` as a non-blank
   * string, else the first non-blank string among the top-level values; a
   * value that is not an object yields nothing.
   */
  function PrimaryExtract(js: Json): (r: Option<string>)
    ensures r.Some? ==> js.JObject?
    ensures IsAnswer(r)
  {
    match js
    case JObject(fields) =>
      if TextOf(Get(fields, "data")).Some? then TextOf(Get(fields, "data"))
      else if TextOf(Get(ObjectAt(fields, "data"), "content")).Some? then TextOf(Get(ObjectAt(fields, "data"), "content"))
      else FirstTextValue(fields)
    case _ => None
  }

  /** The string fields the fallback provider's object is searched for, after `data.content`. */
  const FallbackKeys: seq<string> := ["result", "answer", "message", "data"]

  /** `for k in keys: v = js.get(k); if isinstance(v, str) and v.strip(): return v.strip()`. */
  function FirstTextAt(fields: seq<(string, Json)>, keys: seq<string>): (r: Option<string>)
    ensures r.None? <==> forall i :: 0 <= i < |keys| ==> TextOf(Get(fields, keys[i])).None?
    ensures IsAnswer(r)
  {
    if keys == [] then None
    else if TextOf(Get(fields, keys[0])).Some? then TextOf(Get(fields, keys[0]))
    else
      assert forall i :: 1 <= i < |keys| ==> keys[i] == keys[1..][i - 1];
      FirstTextAt(fields, keys[1..])
  }

  /** The answer the fallback provider's parsed body yields (main.py:155-165). */
  function FallbackExtract(js: Json): (r: Option<string>)
    ensures r.Some? ==> js.JObject?
    ensures IsAnswer(r)
  {
    match js
    case JObject(fields) =>
      if TextOf(Get(ObjectAt(fields, "data"), "content")).Some? then TextOf(Get(ObjectAt(fields, "data"), "content"))
      else FirstTextAt(fields, FallbackKeys)
    case _ => None
  }

  /** Where the primary provider leaves the call: with a final answer, or on to the fallback. */
  datatype Step = Final(answer: Option<string>) | TryFallback

  /**
   * The primary provider's block (main.py:118-143): a 200 body that is not
   * JSON is the answer itself (`raw.strip() or None`) and ends the call; a
   * parsed body ends it only when it yields an answer.
   */
  function PrimaryStep(o: Outcome): (r: Step)
    ensures r.Final? ==> IsAnswer(r.answer)
    ensures o.Response? && o.status == 200 && o.body.Unparsable? ==> r == Final(NonBlank(o.body.raw))
    ensures o.Response? && o.status == 200 && o.body.Parsed? && PrimaryExtract(o.body.value).Some? ==>
              r == Final(PrimaryExtract(o.body.value))
  {
    match o
    case TransportError => TryFallback
    case Response(status, body) =>
      if status != 200 then TryFallback
      else match body
        case Unparsable(raw) => Final(NonBlank(raw))
        case Parsed(js) =>
          if PrimaryExtract(js).Some? then Final(PrimaryExtract(js)) else TryFallback
  }

  /** The fallback provider's block (main.py:146-168): any failure is no answer. */
  function FallbackStep(o: Outcome): (r: Option<string>)
    ensures IsAnswer(r)
    ensures o.Response? && o.status == 200 && o.body.Parsed? ==> r == FallbackExtract(o.body.value)
  {
    match o
    case TransportError => None
    case Response(status, body) =>
      if status != 200 then None
      else match body
        case Unparsable(_) => None  // json.loads raises; the except returns None
        case Parsed(js) => FallbackExtract(js)
  }

  /** `(role or DEFAULT_ROLE).strip()`. */
  function Persona(role: string): (r: string)
    ensures IsTrimmed(r)
    ensures role != [] ==> r == Trim(role)
    ensures role == [] ==> r == Trim(Config.DefaultRole)
  {
    Trim(if role == [] then Config.DefaultRole else role)
  }

  /**
   * `call_siputzx(prompt, role)`, given what each provider would answer.
   * A blank prompt makes no request; every answer is non-blank and trimmed.
   */
  function CallSiputzx(prompt: string, role: string, primary: Outcome, fallback: Outcome): (g: Generation)
    ensures g.requests == [] <==> AllSpace(prompt)
    ensures AllSpace(prompt) ==> g.answer.None?
    ensures g.requests != [] ==> g.requests[0] == PrimaryRequest(Persona(role), Trim(prompt))
    ensures |g.requests| <= 2
    ensures |g.requests| == 2 ==> g.requests[1] == FallbackRequest(Trim(prompt))
    ensures IsAnswer(g.answer)
  {
    var text := Trim(prompt);
    if text == [] then Generation(None, [])
    else
      var first := PrimaryRequest(Persona(role), text);
      match PrimaryStep(primary)
      case Final(answer) => Generation(answer, [first])
      case TryFallback => Generation(FallbackStep(fallback), [first, FallbackRequest(text)])
  }

  // The extraction rules restated as one ordered list of candidate strings,
  // and the client's behaviour on each kind of provider outcome.

  /** The string a value holds, or "" (which is blank) when it is missing or not a string. */
  function StrOf(v: Option<Json>): string {
    match v
    case Some(JString(s)) => s
    case _ => []
  }

  /** The top-level values of an object, as candidate strings in key order. */
  function StringsOf(fields: seq<(string, Json)>): (r: seq<string>)
    ensures |r| == |fields|
    ensures forall i :: 0 <= i < |fields| ==> r[i] == StrOf(Some(fields[i].1))
  {
    seq(|fields|, i requires 0 <= i < |fields| => StrOf(Some(fields[i].1)))
  }

  /** The values under the given keys, as candidate strings in the order of the keys. */
  function StringsAt(fields: seq<(string, Json)>, keys: seq<string>): (r: seq<string>)
    ensures |r| == |keys|
    ensures forall i :: 0 <= i < |keys| ==> r[i] == StrOf(Get(fields, keys[i]))
  {
    seq(|keys|, i requires 0 <= i < |keys| => StrOf(Get(fields, keys[i])))
  }

  lemma LeastNonBlankExists(cands: seq<string>)
    requires exists i :: 0 <= i < |cands| && !AllSpace(cands[i])
    ensures exists i :: 0 <= i < |cands| && !AllSpace(cands[i]) &&
                        forall j :: 0 <= j < i ==> AllSpace(cands[j])
  {
    if AllSpace(cands[0]) {
      var rest := cands[1..];
      var k :| 0 <= k < |cands| && !AllSpace(cands[k]);
      assert rest[k - 1] == cands[k];
      LeastNonBlankExists(rest);
      var i :| 0 <= i < |rest| && !AllSpace(rest[i]) && forall j :: 0 <= j < i ==> AllSpace(rest[j]);
      assert !AllSpace(cands[i + 1]);
      forall j | 0 <= j < i + 1 ensures AllSpace(cands[j]) {
        if j > 0 {
          assert cands[j] == rest[j - 1];
        }
      }
    }
  }

  /**
   * The reference reading of the extraction rules: the trimmed first
   * candidate that is not blank, defined by its position rather than by a
   * scan.
   */
  ghost function FirstNonBlank(cands: seq<string>): Option<string> {
    if forall i :: 0 <= i < |cands| ==> AllSpace(cands[i]) then None
    else
      LeastNonBlankExists(cands);
      var i :| 0 <= i < |cands| && !AllSpace(cands[i]) && forall j :: 0 <= j < i ==> AllSpace(cands[j]);
      Some(Trim(cands[i]))
  }

  /** The first non-blank candidate is the one chosen. */
  lemma FirstNonBlankAt(cands: seq<string>, i: nat)
    requires i < |cands| && !AllSpace(cands[i])
    requires forall j :: 0 <= j < i ==> AllSpace(cands[j])
    ensures FirstNonBlank(cands) == Some(Trim(cands[i]))
  {
  }

  /** A blank candidate at the head is skipped. */
  lemma FirstNonBlankSkip(head: string, rest: seq<string>)
    requires AllSpace(head)
    ensures FirstNonBlank([head] + rest) == FirstNonBlank(rest)
  {
    FirstNonBlankNone(rest);
    if FirstNonBlank(rest).None? {
      SkipAllBlank(head, rest);
    } else {
      LeastNonBlankExists(rest);
      var k :| 0 <= k < |rest| && !AllSpace(rest[k]) && forall j :: 0 <= j < k ==> AllSpace(rest[j]);
      FirstNonBlankAt(rest, k);
      SkipToFirstNonBlank(head, rest, k);
    }
  }

  lemma SkipAllBlank(head: string, rest: seq<string>)
    requires AllSpace(head) && forall i :: 0 <= i < |rest| ==> AllSpace(rest[i])
    ensures FirstNonBlank([head] + rest).None?
  {
    var cands := [head] + rest;
    forall i | 0 <= i < |cands| ensures AllSpace(cands[i]) {
      if i > 0 {
        assert cands[i] == rest[i - 1];
      }
    }
    FirstNonBlankNone(cands);
  }

  lemma SkipToFirstNonBlank(head: string, rest: seq<string>, k: nat)
    requires AllSpace(head) && k < |rest| && !AllSpace(rest[k])
    requires forall j :: 0 <= j < k ==> AllSpace(rest[j])
    ensures FirstNonBlank([head] + rest) == Some(Trim(rest[k]))
  {
    var cands := [head] + rest;
    forall j | 0 <= j < k + 1 ensures AllSpace(cands[j]) {
      if j > 0 {
        assert cands[j] == rest[j - 1];
      }
    }
    assert cands[k + 1] == rest[k];
    FirstNonBlankAt(cands, k + 1);
  }

  /** `TextOf` is the trimmed string of `StrOf` when that is not blank. */
  lemma TextOfIsNonBlankStr(v: Option<Json>)
    ensures TextOf(v) == NonBlank(StrOf(v))
  {
  }

  /** The scan over `js.values()` picks the first non-blank string value in key order. */
  lemma {:induction false} FirstTextValueIsFirstNonBlank(fields: seq<(string, Json)>)
    ensures FirstTextValue(fields) == FirstNonBlank(StringsOf(fields))
  {
    if fields == [] {
    } else {
      var cands := StringsOf(fields);
      assert cands == [cands[0]] + StringsOf(fields[1..]);
      TextOfIsNonBlankStr(Some(fields[0].1));
      if TextOf(Some(fields[0].1)).Some? {
        FirstNonBlankAt(cands, 0);
      } else {
        FirstNonBlankSkip(cands[0], StringsOf(fields[1..]));
        FirstTextValueIsFirstNonBlank(fields[1..]);
      }
    }
  }

  /** The scan over a fixed key tuple picks the first non-blank string among those keys, in tuple order. */
  lemma {:induction false} FirstTextAtIsFirstNonBlank(fields: seq<(string, Json)>, keys: seq<string>)
    ensures FirstTextAt(fields, keys) == FirstNonBlank(StringsAt(fields, keys))
  {
    if keys == [] {
    } else {
      var cands := StringsAt(fields, keys);
      assert cands == [cands[0]] + StringsAt(fields, keys[1..]);
      TextOfIsNonBlankStr(Get(fields, keys[0]));
      if TextOf(Get(fields, keys[0])).Some? {
        FirstNonBlankAt(cands, 0);
      } else {
        FirstNonBlankSkip(cands[0], StringsAt(fields, keys[1..]));
        FirstTextAtIsFirstNonBlank(fields, keys[1..]);
      }
    }
  }

  /** The candidates of the primary provider's object, in precedence order. */
  function PrimaryCandidates(fields: seq<(string, Json)>): seq<string> {
    [StrOf(Get(fields, "data")), StrOf(Get(ObjectAt(fields, "data"), "content"))] + StringsOf(fields)
  }

  /** The candidates of the fallback provider's object, in precedence order. */
  function FallbackCandidates(fields: seq<(string, Json)>): seq<string> {
    [StrOf(Get(ObjectAt(fields, "data"), "content"))] + StringsAt(fields, FallbackKeys)
  }

  /** A string value heading the candidates decides when it is not blank; otherwise the rest do. */
  lemma HeadDecides(v: Option<Json>, rest: seq<string>)
    ensures FirstNonBlank([StrOf(v)] + rest) == if TextOf(v).Some? then TextOf(v) else FirstNonBlank(rest)
  {
    TextOfIsNonBlankStr(v);
    if TextOf(v).Some? {
      FirstNonBlankAt([StrOf(v)] + rest, 0);
    } else {
      FirstNonBlankSkip(StrOf(v), rest);
    }
  }

  /**
   * The primary provider's object yields the first non-blank of: `data`,
   * `data.content`, then every top-level value in key order.
   */
  lemma PrimaryExtractByPrecedence(fields: seq<(string, Json)>)
    ensures PrimaryExtract(JObject(fields)) == FirstNonBlank(PrimaryCandidates(fields))
  {
    var data := Get(fields, "data");
    var content := Get(ObjectAt(fields, "data"), "content");
    var rest := [StrOf(content)] + StringsOf(fields);
    assert PrimaryCandidates(fields) == [StrOf(data)] + rest;
    HeadDecides(data, rest);
    PrimaryContentOrValues(content, fields);
  }

  /** Without a non-blank `data` string, `data.content` and then the top-level values decide. */
  lemma PrimaryContentOrValues(content: Option<Json>, fields: seq<(string, Json)>)
    ensures FirstNonBlank([StrOf(content)] + StringsOf(fields)) ==
            if TextOf(content).Some? then TextOf(content) else FirstTextValue(fields)
  {
    HeadDecides(content, StringsOf(fields));
    FirstTextValueIsFirstNonBlank(fields);
  }

  /** `data.content` and then the given keys, in order, decide. */
  lemma ContentThenKeys(content: Option<Json>, fields: seq<(string, Json)>, keys: seq<string>)
    ensures FirstNonBlank([StrOf(content)] + StringsAt(fields, keys)) ==
            if TextOf(content).Some? then TextOf(content) else FirstTextAt(fields, keys)
  {
    HeadDecides(content, StringsAt(fields, keys));
    FirstTextAtIsFirstNonBlank(fields, keys);
  }

  /**
   * The fallback provider's object yields the first non-blank of:
   * `data.content`, `result`, `answer`, `message`, `data`.
   */
  lemma FallbackExtractByPrecedence(fields: seq<(string, Json)>)
    ensures FallbackExtract(JObject(fields)) == FirstNonBlank(FallbackCandidates(fields))
  {
    ContentThenKeys(Get(ObjectAt(fields, "data"), "content"), fields, FallbackKeys);
  }

  /** No candidate is chosen exactly when every candidate is blank. */
  lemma FirstNonBlankNone(cands: seq<string>)
    ensures FirstNonBlank(cands).None? <==> forall i :: 0 <= i < |cands| ==> AllSpace(cands[i])
  {
  }

  /** The primary provider's parsed body leaves the call to the fallback provider. */
  predicate PrimaryYieldsNothing(js: Json) {
    !js.JObject? || forall i :: 0 <= i < |PrimaryCandidates(js.fields)| ==> AllSpace(PrimaryCandidates(js.fields)[i])
  }

  /** The parsed primary body yields no answer exactly when it is not an object or all of its candidates are blank. */
  lemma PrimaryExtractNone(js: Json)
    ensures PrimaryExtract(js).None? <==> PrimaryYieldsNothing(js)
  {
    if js.JObject? {
      PrimaryExtractByPrecedence(js.fields);
      FirstNonBlankNone(PrimaryCandidates(js.fields));
    }
  }

  /** The primary provider passes the call on when it raised, answered another status, or its JSON yields nothing. */
  predicate PrimaryFails(o: Outcome) {
    o.TransportError? || o.status != 200 || (o.body.Parsed? && PrimaryYieldsNothing(o.body.value))
  }

  /** A fallback that raises, answers another status or returns text that is not JSON. */
  predicate FallbackFails(o: Outcome) {
    o.TransportError? || o.status != 200 || o.body.Unparsable?
  }

  lemma PrimaryStepFallsThrough(o: Outcome)
    ensures PrimaryStep(o).TryFallback? <==> PrimaryFails(o)
  {
    if o.Response? && o.body.Parsed? {
      PrimaryExtractNone(o.body.value);
    }
  }

  /**
   * For a non-blank prompt, the fallback provider is asked exactly when the
   * primary provider fails; the answer is then the fallback's, and none when
   * the fallback fails too.
   */
  lemma FallbackConsultedIff(prompt: string, role: string, primary: Outcome, fallback: Outcome)
    requires !AllSpace(prompt)
    ensures var g := CallSiputzx(prompt, role, primary, fallback);
            (|g.requests| == 2 <==> PrimaryFails(primary)) &&
            (|g.requests| == 2 ==> g.answer == FallbackStep(fallback)) &&
            (|g.requests| == 2 && FallbackFails(fallback) ==> g.answer.None?)
  {
    PrimaryStepFallsThrough(primary);
  }

  /**
   * A 200 primary body that parses to a value yielding an answer ends the
   * call with that answer; for an object it is the first non-blank
   * candidate in precedence order. The fallback provider is never asked.
   */
  lemma PrimaryAnswerIsExtract(prompt: string, role: string, js: Json, fallback: Outcome)
    requires !AllSpace(prompt) && PrimaryExtract(js).Some?
    ensures var g := CallSiputzx(prompt, role, Response(200, Parsed(js)), fallback);
            g.requests == [PrimaryRequest(Persona(role), Trim(prompt))] &&
            g.answer == PrimaryExtract(js) &&
            g.answer == FirstNonBlank(PrimaryCandidates(js.fields))
  {
    PrimaryExtractByPrecedence(js.fields);
  }

  /**
   * After the primary provider fails, a 200 fallback body that parses gives
   * the fallback's extraction as the answer: for an object, the first
   * non-blank candidate in the fallback's precedence order, else none.
   */
  lemma FallbackAnswerIsExtract(prompt: string, role: string, primary: Outcome, js: Json)
    requires !AllSpace(prompt) && PrimaryFails(primary)
    ensures var g := CallSiputzx(prompt, role, primary, Response(200, Parsed(js)));
            g.answer == FallbackExtract(js) &&
            (js.JObject? ==> g.answer == FirstNonBlank(FallbackCandidates(js.fields))) &&
            (!js.JObject? ==> g.answer.None?)
  {
    FallbackConsultedIff(prompt, role, primary, Response(200, Parsed(js)));
    if js.JObject? {
      FallbackExtractByPrecedence(js.fields);
    }
  }

  /**
   * A 200 primary body that is not JSON ends the call with that text,
   * stripped, as the answer (none when it is blank): the fallback provider
   * is never asked.
   */
  lemma UnparsablePrimaryIsFinal(prompt: string, role: string, raw: string, fallback: Outcome)
    requires !AllSpace(prompt)
    ensures var g := CallSiputzx(prompt, role, Response(200, Unparsable(raw)), fallback);
            g.requests == [PrimaryRequest(Persona(role), Trim(prompt))] &&
            g.answer == NonBlank(raw) &&
            (AllSpace(raw) ==> g.answer.None?)
  {
  }

  /** A primary object holding any non-blank string at its top level always answers from the primary provider. */
  lemma TopLevelTextAnswers(fields: seq<(string, Json)>, i: nat)
    requires i < |fields| && fields[i].1.JString? && !AllSpace(fields[i].1.str)
    ensures PrimaryExtract(JObject(fields)).Some?
  {
    var cands := PrimaryCandidates(fields);
    assert cands[i + 2] == fields[i].1.str;
    PrimaryExtractNone(JObject(fields));
  }
}
