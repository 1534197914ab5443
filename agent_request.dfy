/** The request builder of UnityProject/Assets/UnityTools/IO/UnityAgentRequest.cs
    as a state machine over its optional body `_data`, its query variables
    `_queryVars` and the headers of its web request. Every builder method
    returns the request itself, for chaining; one that throws is an `Err`.
    Starting the request (`Begin`) is network I/O and is not modelled. */
module AgentRequest {
  import opened Common
  import opened FormData

  const DefaultContentType: string := "application/x-www-form-urlencoded"
  const JsonContentType: string := "application/json"
  const UserAgent: string := "UnityAgent HTTP client"

  /** The headers an `HttpWebRequest` holds once the constructor has set its
      `ContentType` and `UserAgent` properties, which store into `Headers`. */
  const InitialHeaders: map<string, string> :=
    map["Content-Type" := DefaultContentType, "User-Agent" := UserAgent]

  /** A LitJson `JsonData` value; only its identity matters here. */
  datatype JsonData = JsonData(id: nat)

  /** A request body, a `UnityAgentDataType`: form data, a JSON payload
      (`UnityAgentJsonDataType`, content type "application/json"), or a
      body type of the caller's own with its own content type. */
  datatype Body =
    | FormBody(form: UnityAgentFormDataType)
    | JsonBody(json: JsonData)
    | CustomBody(contentType: string)
  {
    /** `HttpContentType`: fixed by the kind of body. */
    function ContentType(): (r: string)
      ensures FormBody? ==> r == FormContentType
      ensures JsonBody? ==> r == JsonContentType
      ensures CustomBody? ==> r == contentType
    {
      match this
      case FormBody(f) => f.httpContentType
      case JsonBody(_) => JsonContentType
      case CustomBody(t) => t
    }
  }

  /** What the `Send` overloads see of a body: its kind and, for form data,
      the accumulated text (None once the form has been disposed). */
  datatype BodyState =
    | NoBody
    | FormText(text: Option<string>)
    | JsonPayload(json: JsonData)
    | CustomData(contentType: string)

  function ViewOf(body: Option<Body>): BodyState
    reads if body.Some? && body.value.FormBody? then {body.value.form} else {}
  {
    match body
    case None => NoBody
    case Some(FormBody(f)) => FormText(f.stringBuilder)
    case Some(JsonBody(j)) => JsonPayload(j)
    case Some(CustomBody(t)) => CustomData(t)
  }

  /** A call of one of the three `Send` overloads. */
  datatype SendOp =
    | SendTextOp(text: string)
    | SendJsonOp(json: JsonData)
    | SendDataOp(body: BodyState)

  /** The body after a `Send`, and whether the call threw. */
  function SendStep(b: BodyState, op: SendOp): (r: (BodyState, Outcome))
    ensures r.1.Threw? ==> r.0 == b
    ensures b != NoBody && r.1 == Done ==> op.SendTextOp? && b.FormText? && r.0.FormText?
  {
    match op
    case SendTextOp(t) =>
      if b.NoBody? then (FormText(Some(t)), Done)
      else if b.FormText? then
        if b.text.None? then (b, Threw(NullReference)) else (FormText(Some(b.text.value + t)), Done)
      else (b, Threw(BodyNotForm))
    case SendJsonOp(j) =>
      if b.NoBody? then (JsonPayload(j), Done) else (b, Threw(JsonBodyAlreadySet))
    case SendDataOp(d) =>
      if b.NoBody? then (d, Done) else (b, Threw(BodyAlreadySet))
  }

  /** The body after a series of `Send` calls, and how many of them threw. */
  function RunSends(b: BodyState, ops: seq<SendOp>): (BodyState, nat) {
    if ops == [] then (b, 0)
    else
      var prev := RunSends(b, ops[..|ops| - 1]);
      var st := SendStep(prev.0, ops[|ops| - 1]);
      (st.0, prev.1 + (if st.1.Threw? then 1 else 0))
  }

  function TextSends(texts: seq<string>): (ops: seq<SendOp>)
    ensures |ops| == |texts| && forall k :: 0 <= k < |texts| ==> ops[k] == SendTextOp(texts[k])
  {
    seq(|texts|, k requires 0 <= k < |texts| => SendTextOp(texts[k]))
  }

  /** `Send(string)` called with each of `texts` in turn on a request without
      a body: none throws, and the form body holds the texts run together,
      with nothing between them. */
  lemma {:induction false} TextSendsAccumulate(texts: seq<string>)
    requires texts != []
    ensures RunSends(NoBody, TextSends(texts)) == (FormText(Some(Joined(texts))), 0)
    decreases |texts|
  {
    var m := |texts| - 1;
    assert TextSends(texts)[..m] == TextSends(texts[..m]);
    if m == 0 {
      assert TextSends(texts)[..m] == [] && texts[..m] == [];
      assert Joined(texts) == [] + texts[0] == texts[0];
    } else {
      TextSendsAccumulate(texts[..m]);
    }
  }

  predicate SameKind(a: BodyState, b: BodyState) {
    (a.NoBody? && b.NoBody?) || (a.FormText? && b.FormText?) ||
    (a.JsonPayload? && a == b) || (a.CustomData? && a == b)
  }

  /** Once a body is set, it keeps its kind and a JSON or custom body never
      changes: every JSON or data `Send` throws, and so does every text `Send`
      unless the body is form data. */
  lemma {:induction false} BodyIsSetOnce(b: BodyState, ops: seq<SendOp>)
    requires b != NoBody
    ensures SameKind(b, RunSends(b, ops).0)
    ensures RunSends(b, ops).1 >= |NotText(ops)|
    ensures !b.FormText? ==> RunSends(b, ops) == (b, |ops|)
    decreases |ops|
  {
    if ops != [] {
      var front := ops[..|ops| - 1];
      BodyIsSetOnce(b, front);
      assert NotText(ops) == NotText(front) + (if ops[|ops| - 1].SendTextOp? then [] else [ops[|ops| - 1]]);
    }
  }

  /** The JSON and data sends of `ops`. */
  function NotText(ops: seq<SendOp>): seq<SendOp> {
    if ops == [] then []
    else NotText(ops[..|ops| - 1]) + (if ops[|ops| - 1].SendTextOp? then [] else [ops[|ops| - 1]])
  }

  class UnityAgentRequest {
    const verb: string
    const url: string
    var data: Option<Body>
    /** `_queryVars`, which no constructor sets. */
    var queryVars: Option<map<string, string>>
    /** `_webRequest.Headers`. */
    var headers: map<string, string>

    constructor (verb: string, url: string)
      ensures this.verb == verb && this.url == url
      ensures data == None && queryVars == None && headers == InitialHeaders
    {
      this.verb, this.url := verb, url;
      data, queryVars, headers := None, None, InitialHeaders;
    }

    function BodyView(): BodyState
      reads this, FormOf()
    {
      ViewOf(data)
    }

    /** The form object of the body, if the body is form data. */
    function FormOf(): set<object>
      reads this
    {
      if data.Some? && data.value.FormBody? then {data.value.form} else {}
    }

    /** `ContentType`: the body's content type, or the default with no body. */
    function ContentType(): (r: string)
      reads this
      ensures data.None? ==> r == DefaultContentType
      ensures data.Some? && data.value.FormBody? ==> r == DefaultContentType
      ensures data.Some? && data.value.JsonBody? ==> r == JsonContentType
      ensures data.Some? && data.value.CustomBody? ==> r == data.value.contentType
    {
      if data.Some? then data.value.ContentType() else DefaultContentType
    }

    /** `Send(string)`: start a form body holding `text`, or append `text` to
        the form body there is. Any other body makes it throw. */
    method SendText(text: string) returns (r: Result<UnityAgentRequest>)
      modifies this`data, FormOf()
      ensures queryVars == old(queryVars) && headers == old(headers)
      ensures var st := SendStep(old(BodyView()), SendTextOp(text));
              BodyView() == st.0 && (r.Ok? <==> st.1 == Done) && (r.Err? ==> st.1 == Threw(r.fault))
      ensures old(data).None? ==>
                && r == Ok(this) && data.Some? && data.value.FormBody?
                && fresh(data.value.form) && data.value.form.stringBuilder == Some(text)
                && data.value.form.memStream == null && ContentType() == DefaultContentType
      ensures old(data).Some? && old(data).value.FormBody? ==>
                var form := old(data).value.form;
                && data == old(data) && form.memStream == old(form.memStream)
                && (old(form.stringBuilder).Some? ==> r == Ok(this) && form.stringBuilder == Some(old(form.stringBuilder).value + text))
                && (old(form.stringBuilder).None? ==> r == Err(NullReference) && form.stringBuilder == None)
      ensures old(data).Some? && !old(data).value.FormBody? ==> r == Err(BodyNotForm) && data == old(data)
    {
      if data.None? {
        var formData := new UnityAgentFormDataType();
        var _ := formData.AppendData(text);
        assert [] + text == text;
        data := Some(FormBody(formData));
      } else if data.value.FormBody? {
        var outcome := data.value.form.AppendData(text);
        if outcome.Threw? {
          return Err(outcome.fault);
        }
      } else {
        return Err(BodyNotForm);
      }
      r := Ok(this);
    }

    /** `Send(JsonData)`: set a JSON body; only when there is no body yet. */
    method SendJson(json: JsonData) returns (r: Result<UnityAgentRequest>)
      modifies this`data
      ensures var st := SendStep(old(BodyView()), SendJsonOp(json));
              BodyView() == st.0 && (r.Ok? <==> st.1 == Done) && (r.Err? ==> st.1 == Threw(r.fault))
      ensures old(data).None? ==> r == Ok(this) && data == Some(JsonBody(json)) && ContentType() == JsonContentType
      ensures old(data).Some? ==> r == Err(JsonBodyAlreadySet) && data == old(data)
    {
      if data.None? {
        data := Some(JsonBody(json));
      } else {
        return Err(JsonBodyAlreadySet);
      }
      r := Ok(this);
    }

    /** `Send(UnityAgentDataType)`: set the body, which may be null; only when
        there is no body yet. */
    method SendData(body: Option<Body>) returns (r: Result<UnityAgentRequest>)
      modifies this`data
      ensures var st := SendStep(old(BodyView()), SendDataOp(ViewOf(body)));
              BodyView() == st.0 && (r.Ok? <==> st.1 == Done) && (r.Err? ==> st.1 == Threw(r.fault))
      ensures old(data).None? ==> r == Ok(this) && data == body
      ensures old(data).Some? ==> r == Err(BodyAlreadySet) && data == old(data)
    {
      if data.Some? {
        return Err(BodyAlreadySet);
      }
      data := body;
      r := Ok(this);
    }

    /** `Query(key, value)`: set one query variable, overwriting its value.
        Until `Query(dictionary)` has set a dictionary there is none to set it
        in. */
    method QueryVar(key: string, value: string) returns (r: Result<UnityAgentRequest>)
      modifies this`queryVars
      ensures old(queryVars).None? ==> r == Err(NullReference) && queryVars == None
      ensures old(queryVars).Some? ==>
                && r == Ok(this) && queryVars.Some? && queryVars.value.Keys == old(queryVars).value.Keys + {key}
                && queryVars.value[key] == value
                && forall k :: k in old(queryVars).value && k != key ==> queryVars.value[k] == old(queryVars).value[k]
    {
      if queryVars.None? {
        return Err(NullReference);
      }
      queryVars := Some(queryVars.value[key := value]);
      r := Ok(this);
    }

    /** `Query(dictionary)`: replace every query variable; null is kept. */
    method QueryAll(vars: Option<map<string, string>>) returns (r: UnityAgentRequest)
      modifies this`queryVars
      ensures r == this && queryVars == vars
    {
      queryVars := vars;
      r := this;
    }

    /** `Set(key, value)`: set one header, overwriting its value. */
    method SetHeader(key: string, value: string) returns (r: UnityAgentRequest)
      modifies this`headers
      ensures r == this && headers.Keys == old(headers).Keys + {key} && headers[key] == value
      ensures forall k :: k in old(headers) && k != key ==> headers[k] == old(headers)[k]
    {
      headers := headers[key := value];
      r := this;
    }

    /** `Set(dictionary)`: drop every header, then copy each entry of the
        dictionary. A null dictionary throws after the headers are dropped. */
    method SetHeaders(hs: Option<map<string, string>>) returns (r: Result<UnityAgentRequest>)
      modifies this`headers
      ensures hs.None? ==> r == Err(NullReference) && headers == map[]
      ensures hs.Some? ==> r == Ok(this) && headers == hs.value
    {
      headers := map[];
      if hs.None? {
        return Err(NullReference);
      }
      var remaining := hs.value.Keys;
      while remaining != {}
        invariant remaining <= hs.value.Keys
        invariant headers.Keys == hs.value.Keys - remaining
        invariant forall k :: k in headers ==> headers[k] == hs.value[k]
        decreases remaining
      {
        var key :| key in remaining;
        headers := headers[key := hs.value[key]];
        remaining := remaining - {key};
      }
      r := Ok(this);
    }
  }
}
