/**
  The style normaliser of netlify/functions/generate-style.js: how the
  language model's reply is read (an object as-is, text parsed as JSON),
  how overrides, the model's values and fixed defaults are merged, and which
  status the handler answers with. The model call itself and JSON.parse are
  parameters: whatever the model replied, and any parser.
*/
module GenerateStyle {
  import opened Wrappers
  import opened Roles

  /** A JSON value as JavaScript holds it after parsing (numbers kept as integers). */
  datatype Json =
    | JNull
    | JBool(b: bool)
    | JNum(n: int)
    | JStr(s: string)
    | JArr(items: seq<Json>)
    | JObj(fields: map<string, Json>)

  /** JavaScript truthiness: null, false, 0 and "" are falsy; every array and object is truthy. */
  predicate Truthy(v: Json) {
    match v
    case JNull => false
    case JBool(b) => b
    case JNum(n) => n != 0
    case JStr(s) => s != ""
    case JArr(_) => true
    case JObj(_) => true
  }

  /** `v.key` on a value that is not null: an object's own field; `undefined` on anything else. */
  function Prop(v: Json, key: string): Option<Json> {
    if v.JObj? && key in v.fields then Some(v.fields[key]) else None
  }

  /** `a || b` where `a` may be `undefined`. */
  function Or(a: Option<Json>, b: Json): Json {
    if a.Some? && Truthy(a.value) then a.value else b
  }

  /** The literal fallbacks of the merge. */
  function DefaultColour(r: Role): string {
    match r
    case Water => "#a0d8ef"
    case Land => "#fff2e6"
    case Roads => "#ff85c1"
    case Buildings => "#f0e5ff"
    case Labels => "#222222"
  }

  const DefaultName: string := "AI style"

  /** The `fallback` object the handler returns: a name and one value per role. */
  datatype StyleObject = StyleObject(name: Json, water: Json, land: Json, roads: Json, buildings: Json, labels: Json)

  function Colour(s: StyleObject, r: Role): Json {
    match r
    case Water => s.water
    case Land => s.land
    case Roads => s.roads
    case Buildings => s.buildings
    case Labels => s.labels
  }

  /** `(overrides.role) || style.role || default` for one role. */
  function Resolve(overrides: Json, style: Json, r: Role): Json {
    Or(Prop(overrides, RoleKey(r)), Or(Prop(style, RoleKey(r)), JStr(DefaultColour(r))))
  }

  /**
    The object literal of the merge. Reading a property of null throws, so a
    null `style` or `overrides` gives None, the path to the catch block.
  */
  function Merge(overrides: Json, style: Json): (r: Option<StyleObject>)
    ensures r.Some? <==> style != JNull && overrides != JNull
  {
    if style == JNull || overrides == JNull then None
    else Some(StyleObject(
      Or(Prop(style, "name"), JStr(DefaultName)),
      Resolve(overrides, style, Water),
      Resolve(overrides, style, Land),
      Resolve(overrides, style, Roads),
      Resolve(overrides, style, Buildings),
      Resolve(overrides, style, Labels)))
  }

  /** The JSON object the response carries under `style`. */
  function StyleJson(s: StyleObject): Json {
    JObj(map[
      "name" := s.name,
      "water" := s.water,
      "land" := s.land,
      "roads" := s.roads,
      "buildings" := s.buildings,
      "labels" := s.labels])
  }

  /**
    `completion.choices?.[0]?.message?.content` as it comes back: an object the
    SDK has already parsed, text, null, or undefined.
  */
  datatype Content = Structured(fields: map<string, Json>) | Text(text: string) | Null | Absent

  /**
    Lines 40-42: an object (typeof 'object', which includes null) is used as it
    is, anything else goes through JSON.parse; None is a parse that throws
    (JSON.parse(undefined) always does).
  */
  function ContentStyle(content: Content, parse: string -> Option<Json>): Option<Json> {
    match content
    case Structured(f) => Some(JObj(f))
    case Null => Some(JNull)
    case Text(t) => parse(t)
    case Absent => None
  }

  /** Why the handler answered 500. */
  datatype Failure =
    | MissingApiKey    // the credential check at the top
    | BadRequestBody   // JSON.parse of the request body threw
    | NullRequestBody  // `body.prompt` on a null body threw
    | UpstreamFailed   // the model call threw
    | BadContent       // JSON.parse of the reply threw
    | NullStyle        // `style.name` on a null reply threw

  datatype Outcome = Ok(style: StyleObject) | Err500(reason: Failure)

  function StatusCode(o: Outcome): int {
    if o.Ok? then 200 else 500
  }

  /** The body of a 200 response: `{ style: fallback }`. */
  function SuccessBody(s: StyleObject): Json {
    JObj(map["style" := StyleJson(s)])
  }

  /** `body.overrides || {}` for a request body that is not null. */
  function OverridesOf(body: Json): Json {
    Or(Prop(body, "overrides"), JObj(map[]))
  }

  /**
    The handler. `apiKeyPresent` is the environment check, `eventBody` the raw
    request body ("" when missing), `reply` what the model call returned (None
    when it threw) and `parse` stands for JSON.parse.
  */
  function Handler(apiKeyPresent: bool, eventBody: string, reply: Option<Content>, parse: string -> Option<Json>): Outcome {
    if !apiKeyPresent then Err500(MissingApiKey)
    else match parse(if eventBody == "" then "{}" else eventBody)
      case None => Err500(BadRequestBody)
      case Some(body) =>
        if body == JNull then Err500(NullRequestBody)
        else match reply
          case None => Err500(UpstreamFailed)
          case Some(content) =>
            match ContentStyle(content, parse)
            case None => Err500(BadContent)
            case Some(style) =>
              match Merge(OverridesOf(body), style)
              case None => Err500(NullStyle)
              case Some(s) => Ok(s)
  }

  // ---- properties of the merge ----

  /**
    Per role, precedence is override, then the model's value, then the
    default, each taken only when truthy.
  */
  lemma ResolvePrecedence(overrides: Json, style: Json, r: Role)
    requires overrides != JNull && style != JNull
    ensures var c := Colour(Merge(overrides, style).value, r);
      var o := Prop(overrides, RoleKey(r));
      var m := Prop(style, RoleKey(r));
      && (o.Some? && Truthy(o.value) ==> c == o.value)
      && (!(o.Some? && Truthy(o.value)) && m.Some? && Truthy(m.value) ==> c == m.value)
      && (!(o.Some? && Truthy(o.value)) && !(m.Some? && Truthy(m.value)) ==> c == JStr(DefaultColour(r)))
  {
    match r {
      case Water => case Land => case Roads => case Buildings => case Labels =>
    }
  }

  /** A truthy override wins whatever the model returned. */
  lemma OverrideWins(overrides: Json, style1: Json, style2: Json, r: Role)
    requires overrides != JNull && style1 != JNull && style2 != JNull
    requires Prop(overrides, RoleKey(r)).Some? && Truthy(Prop(overrides, RoleKey(r)).value)
    ensures Colour(Merge(overrides, style1).value, r) == Colour(Merge(overrides, style2).value, r)
      == Prop(overrides, RoleKey(r)).value
  {
    ResolvePrecedence(overrides, style1, r);
    ResolvePrecedence(overrides, style2, r);
  }

  /** The name is the model's truthy name, else "AI style"; overrides never contribute one. */
  lemma NameFromModelOnly(overrides1: Json, overrides2: Json, style: Json)
    requires overrides1 != JNull && overrides2 != JNull && style != JNull
    ensures Merge(overrides1, style).value.name == Merge(overrides2, style).value.name
    ensures var n := Prop(style, "name");
      Merge(overrides1, style).value.name == if n.Some? && Truthy(n.value) then n.value else JStr(DefaultName)
  {
  }

  /** Every value of a merged style is truthy: no role and no name is ever left empty. */
  lemma MergeComplete(overrides: Json, style: Json)
    requires overrides != JNull && style != JNull
    ensures Truthy(Merge(overrides, style).value.name)
    ensures forall r :: Truthy(Colour(Merge(overrides, style).value, r))
  {
    forall r ensures Truthy(Colour(Merge(overrides, style).value, r)) {
      ResolvePrecedence(overrides, style, r);
    }
  }

  /** The returned style has exactly the six keys name, water, land, roads, buildings and labels. */
  lemma StyleJsonKeys(s: StyleObject)
    ensures StyleJson(s).fields.Keys == {"name", "water", "land", "roads", "buildings", "labels"}
  {
  }

  /** Only the six keys of the model's object are read: extra fields are dropped. */
  lemma ExtraFieldsDropped(overrides: Json, fields: map<string, Json>)
    requires overrides != JNull
    ensures var keep := map k | k in fields && k in {"name", "water", "land", "roads", "buildings", "labels"} :: fields[k];
      Merge(overrides, JObj(fields)) == Merge(overrides, JObj(keep))
  {
  }

  /** A model reply that is not an object (a number, a string, an array) yields the all-default style. */
  lemma NonObjectReplyGivesDefaults(overrides: Json, style: Json)
    requires overrides == JObj(map[]) && style != JNull && !style.JObj?
    ensures Merge(overrides, style) == Some(StyleObject(JStr(DefaultName),
      JStr("#a0d8ef"), JStr("#fff2e6"), JStr("#ff85c1"), JStr("#f0e5ff"), JStr("#222222")))
  {
  }

  /** `#` followed by six hexadecimal digits. */
  predicate IsHexColour(v: Json) {
    v.JStr? && |v.s| == 7 && v.s[0] == '#' &&
    forall i :: 1 <= i < 7 ==> ('0' <= v.s[i] <= '9' || 'a' <= v.s[i] <= 'f' || 'A' <= v.s[i] <= 'F')
  }

  /** `v` is missing, falsy, or a hex colour. */
  predicate HexIfSupplied(v: Option<Json>) {
    v.Some? && Truthy(v.value) ==> IsHexColour(v.value)
  }

  lemma DefaultsAreHex(r: Role)
    ensures IsHexColour(JStr(DefaultColour(r)))
  {
    match r {
      case Water => case Land => case Roads => case Buildings => case Labels =>
    }
  }

  /**
    The merge checks no format, but it only ever picks among what it was
    given and the defaults: when every supplied override and model value is a
    hex colour, so is every colour of the result.
  */
  lemma HexPreserved(overrides: Json, style: Json)
    requires overrides != JNull && style != JNull
    requires forall r :: HexIfSupplied(Prop(overrides, RoleKey(r))) && HexIfSupplied(Prop(style, RoleKey(r)))
    ensures forall r :: IsHexColour(Colour(Merge(overrides, style).value, r))
  {
    forall r ensures IsHexColour(Colour(Merge(overrides, style).value, r)) {
      ResolvePrecedence(overrides, style, r);
      DefaultsAreHex(r);
    }
  }

  /** No format check: a truthy non-hex model value reaches the result unchanged. */
  lemma NonHexPassesThrough()
    ensures var out := Merge(JObj(map[]), JObj(map["water" := JStr("blue")])).value;
      out.water == JStr("blue") && !IsHexColour(out.water)
  {
  }

  /** An override of the empty string counts as absent. */
  lemma EmptyOverrideIgnored()
    ensures Merge(JObj(map["water" := JStr("")]), JObj(map["water" := JStr("#111111")])).value.water == JStr("#111111")
  {
  }

  // ---- properties of the handler ----

  /** Without the API key the handler answers 500 before reading anything else. */
  lemma MissingKeyFirst(eventBody: string, reply: Option<Content>, parse: string -> Option<Json>)
    ensures Handler(false, eventBody, reply, parse) == Err500(MissingApiKey)
    ensures StatusCode(Handler(false, eventBody, reply, parse)) == 500
  {
  }

  /**
    The handler succeeds exactly when the key is present, the request body
    parses to something other than null, the model call returns, and its
    content yields a style other than null; the style is then the merge, and
    the 200 body is `{ style }` with the six style keys.
  */
  lemma HandlerOkIff(apiKeyPresent: bool, eventBody: string, reply: Option<Content>, parse: string -> Option<Json>)
    ensures var body := parse(if eventBody == "" then "{}" else eventBody);
      var o := Handler(apiKeyPresent, eventBody, reply, parse);
      o.Ok? <==>
        && apiKeyPresent
        && body.Some? && body.value != JNull
        && reply.Some?
        && ContentStyle(reply.value, parse).Some? && ContentStyle(reply.value, parse).value != JNull
    ensures var body := parse(if eventBody == "" then "{}" else eventBody);
      var o := Handler(apiKeyPresent, eventBody, reply, parse);
      o.Ok? ==> StatusCode(o) == 200 && o.style == Merge(OverridesOf(body.value), ContentStyle(reply.value, parse).value).value
    ensures var o := Handler(apiKeyPresent, eventBody, reply, parse);
      o.Ok? ==> (SuccessBody(o.style).fields.Keys == {"style"}
        && SuccessBody(o.style).fields["style"].fields.Keys == {"name", "water", "land", "roads", "buildings", "labels"})
  {
    var o := Handler(apiKeyPresent, eventBody, reply, parse);
    if o.Ok? {
      StyleJsonKeys(o.style);
    }
  }

  /** Unparsable text or null content is a 500, never a style of defaults. */
  lemma BadContentIsError(eventBody: string, content: Content, parse: string -> Option<Json>)
    requires content == Null || content == Absent || (content.Text? && parse(content.text).None?)
    ensures Handler(true, eventBody, Some(content), parse).Err500?
  {
  }

  /** Object content and text that parses to the same object give the same answer. */
  lemma StructuredMatchesText(eventBody: string, fields: map<string, Json>, text: string, parse: string -> Option<Json>)
    requires parse(text) == Some(JObj(fields))
    ensures Handler(true, eventBody, Some(Structured(fields)), parse) == Handler(true, eventBody, Some(Text(text)), parse)
  {
  }

  /**
    Overrides {labels: "#000000"} with the model reply {"water": "#111111",
    "land": "#222222"} give the name "AI style", the model's water and land,
    the default roads and buildings, and the overridden labels.
  */
  lemma WorkedExample(parse: string -> Option<Json>, request: string, reply: string)
    requires request != ""
    requires parse(request) == Some(JObj(map[
      "prompt" := JStr("sunset desert"),
      "overrides" := JObj(map["labels" := JStr("#000000")])]))
    requires parse(reply) == Some(JObj(map["water" := JStr("#111111"), "land" := JStr("#222222")]))
    ensures Handler(true, request, Some(Text(reply)), parse) == Ok(StyleObject(JStr("AI style"),
      JStr("#111111"), JStr("#222222"), JStr("#ff85c1"), JStr("#f0e5ff"), JStr("#000000")))
  {
    WorkedMerge();
  }

  /** The merge step of the worked example. */
  lemma WorkedMerge()
    ensures Merge(JObj(map["labels" := JStr("#000000")]), JObj(map["water" := JStr("#111111"), "land" := JStr("#222222")]))
      == Some(StyleObject(JStr("AI style"), JStr("#111111"), JStr("#222222"), JStr("#ff85c1"), JStr("#f0e5ff"), JStr("#000000")))
  {
    var overrides := JObj(map["labels" := JStr("#000000")]);
    var style := JObj(map["water" := JStr("#111111"), "land" := JStr("#222222")]);
    assert Prop(style, "name") == None;
    assert Resolve(overrides, style, Water) == JStr("#111111");
    assert Resolve(overrides, style, Land) == JStr("#222222");
    assert Resolve(overrides, style, Roads) == JStr("#ff85c1");
    assert Resolve(overrides, style, Buildings) == JStr("#f0e5ff");
    assert Resolve(overrides, style, Labels) == JStr("#000000");
  }
}
