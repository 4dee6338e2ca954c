/** The email service: sending a stored template by its reference id, and
    composing a stored template's bodies without sending. Mustache
    rendering, HTML-to-text conversion, HTML-entity decoding and the address
    check are library calls the model does not interpret: they arrive as the
    fields of `Libs`. */
module EmailService {
  import opened Common
  import opened LiteralReplace
  import opened TemplateStore

  /** The libraries the service calls. `isValidEmail` is the address schema
      (an unanchored, case-sensitive regular expression behind a string
      schema), `render` is Mustache, `htmlToText` converts with a 130-column
      word wrap, `decode` decodes HTML entities. */
  datatype Libs<!D> = Libs(
    isValidEmail: Json -> bool,
    render: (string, D) -> string,
    htmlToText: string -> string,
    decode: string -> string)

  /** Option keys whose values are not addresses. */
  const IgnoredKeys: set<string> := {"attachment", "attachments", "headers"}

  const NoSubject: string := "No Subject"

  /** What the caller passes as `emailTemplate`: the reference id (absent
      when missing) and an optional subject overriding the stored one. */
  datatype TemplateArgs = TemplateArgs(templateReferenceId: Option<int>, subject: Option<string>)

  datatype SendError =
    | InvalidAddress        // the address schema rejected an option value
    | MissingTemplateArgs   // `emailTemplate` itself is undefined
    | InvalidReferenceId    // the reference id is missing or below 1
    | TemplateNotFound      // `compose` only: no template has the reference id

  /** `NotFoundLogged`: no template has the reference id; the service logs
      and returns null without sending. `Sent`: the message handed to the
      mail provider. */
  datatype SendOutcome = NotFoundLogged | Sent(message: map<string, Json>)

  /** `composedHtml` and `composedText`; absent when the body was empty. */
  datatype Composed = Composed(composedHtml: Option<string>, composedText: Option<string>)

  /** One option value passes the schema: element by element for an array. */
  predicate AddressValid(v: Json, isValidEmail: Json -> bool) {
    match v
    case JArr(items) => forall i :: 0 <= i < |items| ==> isValidEmail(items[i])
    case _ => isValidEmail(v)
  }

  /** Every option value outside `IgnoredKeys` passes the schema. */
  predicate AddressesValid(opts: map<string, Json>, isValidEmail: Json -> bool) {
    forall k :: k in opts && k !in IgnoredKeys ==> AddressValid(opts[k], isValidEmail)
  }

  /** A required number of at least 1. */
  predicate ReferenceIdValid(r: Option<int>) {
    r.Some? && r.value >= 1
  }

  /** The legacy `<% %>` delimiters rewritten to Mustache's `{{ }}`. */
  function Legacy(s: string): string {
    Rewrite(Rewrite(s, ["<%"], "{{"), ["%>"], "}}")
  }

  /** The text body: derived from the HTML when the text is empty and the HTML is not. */
  function TextBody(html: string, text: string, htmlToText: string -> string): string {
    if text == "" && html != "" then htmlToText(html) else text
  }

  /** Stored subject, HTML and text after the legacy rewrite and the text fallback. */
  datatype Prepared = Prepared(subject: string, html: string, text: string)

  function Prepare(c: Content, htmlToText: string -> string): Prepared {
    var html := Legacy(c.bodyHtml);
    Prepared(Legacy(c.subject), html, TextBody(html, Legacy(c.bodyText), htmlToText))
  }

  /** The subject fallback chain: the caller's subject if non-empty, else the
      decoded stored subject if that is non-empty, else "No Subject". */
  function Subject(caller: Option<string>, stored: string, decode: string -> string): (s: string)
    ensures s != ""
    ensures caller.Some? && caller.value != "" ==> s == caller.value
    ensures !(caller.Some? && caller.value != "") ==>
      s == (if stored != "" && decode(stored) != "" then decode(stored) else NoSubject)
  {
    if caller.Some? && caller.value != "" then caller.value
    else if stored != "" && decode(stored) != "" then decode(stored)
    else NoSubject
  }

  /** The attributes among `attrs` whose value is non-empty, rendered. */
  function Rendered<D>(attrs: seq<string>, values: map<string, string>,
                       render: (string, D) -> string, data: D): map<string, string>
  {
    map a | a in attrs && a in values && values[a] != "" :: render(values[a], data)
  }

  function AsJson(m: map<string, string>): map<string, Json> {
    map k | k in m :: JStr(m[k])
  }

  /** What `sendTemplatedEmail` does, as a function of its inputs and the template table. */
  function PlanSend<D>(templates: seq<Template>, opts: map<string, Json>, args: Option<TemplateArgs>,
                       data: D, libs: Libs<D>): Result<SendOutcome, SendError>
  {
    if !AddressesValid(opts, libs.isValidEmail) then Err(InvalidAddress)
    else if args.None? then Err(MissingTemplateArgs)
    else if !ReferenceIdValid(args.value.templateReferenceId) then Err(InvalidReferenceId)
    else
      match FindByRef(templates, args.value.templateReferenceId)
      case None => Ok(NotFoundLogged)
      case Some(t) =>
        var p := Prepare(t.content, libs.htmlToText);
        var values := map["subject" := Subject(args.value.subject, p.subject, libs.decode),
                          "html" := libs.decode(p.html), "text" := libs.decode(p.text)];
        Ok(Sent(opts + AsJson(Rendered(["text", "html", "subject"], values, libs.render, data))))
  }

  /** What `compose` does, as a function of its inputs and the template table. */
  function PlanCompose<D>(templates: seq<Template>, templateReferenceId: Option<int>,
                          data: D, libs: Libs<D>): Result<Composed, SendError>
  {
    if !ReferenceIdValid(templateReferenceId) then Err(InvalidReferenceId)
    else
      match FindByRef(templates, templateReferenceId)
      case None => Err(TemplateNotFound)
      case Some(t) =>
        var p := Prepare(t.content, libs.htmlToText);
        var values := map["html" := libs.decode(p.html), "text" := libs.decode(p.text)];
        var c := Rendered(["text", "html"], values, libs.render, data);
        Ok(Composed(if "html" in c then Some(c["html"]) else None,
                    if "text" in c then Some(c["text"]) else None))
  }

  /** The mail provider: every message it is handed joins the outbox. */
  class Mailer {
    var outbox: seq<map<string, Json>>

    constructor ()
      ensures outbox == []
    {
      outbox := [];
    }

    method Send(message: map<string, Json>)
      modifies this
      ensures outbox == old(outbox) + [message]
    {
      outbox := outbox + [message];
    }
  }

  /** The validation loop over the options: stops at the first value the schema rejects. */
  method ValidateAddresses(opts: map<string, Json>, isValidEmail: Json -> bool) returns (ok: bool)
    ensures ok == AddressesValid(opts, isValidEmail)
  {
    var pending := opts.Keys;
    while pending != {}
      invariant pending <= opts.Keys
      invariant forall k :: k in opts && k !in pending && k !in IgnoredKeys ==> AddressValid(opts[k], isValidEmail)
      decreases pending
    {
      var key :| key in pending;
      if key !in IgnoredKeys {
        var address := opts[key];
        if address.JArr? {
          var i := 0;
          while i < |address.items|
            invariant 0 <= i <= |address.items|
            invariant forall j :: 0 <= j < i ==> isValidEmail(address.items[j])
          {
            if !isValidEmail(address.items[i]) {
              return false;
            }
            i := i + 1;
          }
        } else if !isValidEmail(address) {
          return false;
        }
      }
      pending := pending - {key};
    }
    return true;
  }

  /** The `reduce` over the attribute names: each non-empty value is rendered
      and assigned into the accumulator. */
  method RenderAttributes<D>(attrs: seq<string>, values: map<string, string>,
                             render: (string, D) -> string, data: D) returns (compiled: map<string, string>)
    ensures compiled == Rendered(attrs, values, render, data)
  {
    compiled := map[];
    var i := 0;
    while i < |attrs|
      invariant 0 <= i <= |attrs|
      invariant compiled == Rendered(attrs[..i], values, render, data)
    {
      var attribute := attrs[i];
      if attribute in values && values[attribute] != "" {
        compiled := compiled[attribute := render(values[attribute], data)];
      }
      assert attrs[..i + 1] == attrs[..i] + [attribute];
      i := i + 1;
    }
    assert attrs[..i] == attrs;
  }

  /** `sendTemplatedEmail`: validate, look up, rewrite, fall back, render, send. */
  method SendTemplatedEmail<D>(templates: seq<Template>, mailer: Mailer, opts: map<string, Json>,
                               args: Option<TemplateArgs>, data: D, libs: Libs<D>)
    returns (r: Result<SendOutcome, SendError>)
    modifies mailer
    ensures r == PlanSend(templates, opts, args, data, libs)
    ensures mailer.outbox == old(mailer.outbox) + (if r.Ok? && r.value.Sent? then [r.value.message] else [])
  {
    var ok := ValidateAddresses(opts, libs.isValidEmail);
    if !ok {
      return Err(InvalidAddress);
    }
    if args.None? {
      return Err(MissingTemplateArgs);
    }
    if !ReferenceIdValid(args.value.templateReferenceId) {
      return Err(InvalidReferenceId);
    }
    var response := FindByRef(templates, args.value.templateReferenceId);
    if response.None? {
      return Ok(NotFoundLogged);
    }
    var bodyHtml, bodyText, subject := response.value.content.bodyHtml, response.value.content.bodyText,
                                       response.value.content.subject;
    bodyHtml := Legacy(bodyHtml);
    bodyText := Legacy(bodyText);
    subject := Legacy(subject);
    if bodyText == "" && bodyHtml != "" {
      bodyText := libs.htmlToText(bodyHtml);
    }
    var values := map["subject" := Subject(args.value.subject, subject, libs.decode),
                      "html" := libs.decode(bodyHtml), "text" := libs.decode(bodyText)];
    var compiled := RenderAttributes(["text", "html", "subject"], values, libs.render, data);
    var message := opts + AsJson(compiled);
    mailer.Send(message);
    r := Ok(Sent(message));
  }

  /** `compose`: validate, look up (a missing template is an error), rewrite,
      fall back, render the two bodies. */
  method Compose<D>(templates: seq<Template>, templateReferenceId: Option<int>, data: D, libs: Libs<D>)
    returns (r: Result<Composed, SendError>)
    ensures r == PlanCompose(templates, templateReferenceId, data, libs)
  {
    if !ReferenceIdValid(templateReferenceId) {
      return Err(InvalidReferenceId);
    }
    var res := FindByRef(templates, templateReferenceId);
    if res.None? {
      return Err(TemplateNotFound);
    }
    var bodyHtml, bodyText := res.value.content.bodyHtml, res.value.content.bodyText;
    bodyHtml := Legacy(bodyHtml);
    bodyText := Legacy(bodyText);
    if bodyText == "" && bodyHtml != "" {
      bodyText := libs.htmlToText(bodyHtml);
    }
    var values := map["html" := libs.decode(bodyHtml), "text" := libs.decode(bodyText)];
    var compiled := RenderAttributes(["text", "html"], values, libs.render, data);
    r := Ok(Composed(if "html" in compiled then Some(compiled["html"]) else None,
                     if "text" in compiled then Some(compiled["text"]) else None));
  }

  // Properties of the send and compose pipelines.

  /** After the legacy rewrite neither `<%` nor `%>` remains. */
  lemma LegacyLeavesNoDelimiters(s: string)
    ensures !Occurs("<%", Legacy(s)) && !Occurs("%>", Legacy(s))
  {
    var once := Rewrite(s, ["<%"], "{{");
    Removes(s, ["<%"], "{{", "<%");
    Preserves(once, ["%>"], "}}", "<%");
    Removes(once, ["%>"], "}}", "%>");
  }

  /** The legacy rewrite is idempotent. */
  lemma LegacyIdempotent(s: string)
    ensures Legacy(Legacy(s)) == Legacy(s)
  {
    var l := Legacy(s);
    LegacyLeavesNoDelimiters(s);
    Identity(l, ["<%"], "{{");
    Identity(l, ["%>"], "}}");
  }

  /** The text body is derived from the HTML exactly when the stored text is
      empty and the stored HTML is not; otherwise the stored text is kept. */
  lemma TextFallback(c: Content, htmlToText: string -> string)
    ensures Prepare(c, htmlToText).text ==
      if c.bodyText == "" && c.bodyHtml != "" then htmlToText(Legacy(c.bodyHtml)) else Legacy(c.bodyText)
  {
    LegacyEmptyIff(c.bodyText);
    LegacyEmptyIff(c.bodyHtml);
  }

  lemma LegacyEmptyIff(s: string)
    ensures Legacy(s) == "" <==> s == ""
  {
    EmptyIff(s, ["<%"], "{{");
    EmptyIff(Rewrite(s, ["<%"], "{{"), ["%>"], "}}");
  }

  /** A rejected address fails the send whatever the reference id and whatever
      the store holds: validation comes before the reference-id check and the lookup. */
  lemma AddressCheckFirst<D>(t1: seq<Template>, t2: seq<Template>, opts: map<string, Json>,
                             a1: Option<TemplateArgs>, a2: Option<TemplateArgs>, data: D, libs: Libs<D>)
    requires !AddressesValid(opts, libs.isValidEmail)
    ensures PlanSend(t1, opts, a1, data, libs) == PlanSend(t2, opts, a2, data, libs) == Err(InvalidAddress)
  {
  }

  /** A missing or non-positive reference id is rejected before the store is
      consulted, by both entry points. */
  lemma ReferenceCheckBeforeLookup<D>(t1: seq<Template>, t2: seq<Template>, opts: map<string, Json>,
                                      args: TemplateArgs, data: D, libs: Libs<D>)
    requires AddressesValid(opts, libs.isValidEmail) && !ReferenceIdValid(args.templateReferenceId)
    ensures PlanSend(t1, opts, Some(args), data, libs) == PlanSend(t2, opts, Some(args), data, libs)
                                                       == Err(InvalidReferenceId)
    ensures PlanCompose(t1, args.templateReferenceId, data, libs) == PlanCompose(t2, args.templateReferenceId, data, libs)
                                                                 == Err(InvalidReferenceId)
  {
  }

  /** An unknown reference id: sending logs and returns null, composing fails. */
  lemma UnknownReference<D>(templates: seq<Template>, opts: map<string, Json>, args: TemplateArgs,
                            data: D, libs: Libs<D>)
    requires AddressesValid(opts, libs.isValidEmail) && ReferenceIdValid(args.templateReferenceId)
    requires forall t :: t in templates ==> t.templateReferenceId != args.templateReferenceId
    ensures PlanSend(templates, opts, Some(args), data, libs) == Ok(NotFoundLogged)
    ensures PlanCompose(templates, args.templateReferenceId, data, libs) == Err(TemplateNotFound)
  {
  }

  /** Merging the rendered attributes over the options: every option key is
      kept, and keeps its value unless it is a rendered attribute; the subject
      (never empty) is always rendered, html and text only when non-empty. */
  lemma MergeRendered<D>(opts: map<string, Json>, subject: string, html: string, text: string,
                         render: (string, D) -> string, data: D)
    requires subject != ""
    ensures var values := map["subject" := subject, "html" := html, "text" := text];
      var m := opts + AsJson(Rendered(["text", "html", "subject"], values, render, data));
      && m.Keys == opts.Keys + {"subject"} + (if html != "" then {"html"} else {})
                   + (if text != "" then {"text"} else {})
      && (forall k :: k in opts && k != "subject" && k != "html" && k != "text" ==> m[k] == opts[k])
      && m["subject"] == JStr(render(subject, data))
      && (html != "" ==> m["html"] == JStr(render(html, data)))
      && (text != "" ==> m["text"] == JStr(render(text, data)))
  {
    var values := map["subject" := subject, "html" := html, "text" := text];
    var c := Rendered(["text", "html", "subject"], values, render, data);
    assert c.Keys == {"subject"} + (if html != "" then {"html"} else {}) + (if text != "" then {"text"} else {});
    assert AsJson(c).Keys == c.Keys;
  }

  /** The sent message, for a template found by its reference id. */
  lemma SentMessageShape<D>(templates: seq<Template>, opts: map<string, Json>, args: TemplateArgs,
                            t: Template, data: D, libs: Libs<D>)
    requires AddressesValid(opts, libs.isValidEmail) && ReferenceIdValid(args.templateReferenceId)
    requires FindByRef(templates, args.templateReferenceId) == Some(t)
    ensures var r := PlanSend(templates, opts, Some(args), data, libs);
      var p := Prepare(t.content, libs.htmlToText);
      var html, text := libs.decode(p.html), libs.decode(p.text);
      && r.Ok? && r.value.Sent?
      && r.value.message.Keys == opts.Keys + {"subject"} + (if html != "" then {"html"} else {})
                                 + (if text != "" then {"text"} else {})
      && (forall k :: k in opts && k != "subject" && k != "html" && k != "text" ==> r.value.message[k] == opts[k])
      && r.value.message["subject"] == JStr(libs.render(Subject(args.subject, p.subject, libs.decode), data))
      && (html != "" ==> r.value.message["html"] == JStr(libs.render(html, data)))
      && (text != "" ==> r.value.message["text"] == JStr(libs.render(text, data)))
  {
    var p := Prepare(t.content, libs.htmlToText);
    MergeRendered(opts, Subject(args.subject, p.subject, libs.decode), libs.decode(p.html),
                  libs.decode(p.text), libs.render, data);
  }

  /** Composing renders only html and text and produces no subject. */
  lemma ComposeBodies<D>(templates: seq<Template>, templateReferenceId: Option<int>, data: D, libs: Libs<D>)
    requires PlanCompose(templates, templateReferenceId, data, libs).Ok?
    ensures var c := PlanCompose(templates, templateReferenceId, data, libs).value;
      var t := FindByRef(templates, templateReferenceId).value;
      var p := Prepare(t.content, libs.htmlToText);
      && c.composedHtml == (if libs.decode(p.html) != "" then Some(libs.render(libs.decode(p.html), data)) else None)
      && c.composedText == (if libs.decode(p.text) != "" then Some(libs.render(libs.decode(p.text), data)) else None)
  {
  }
}
