/** The designer controller: saving a template (with the import redirect
    and the reference-id uniqueness checks), duplicating, downloading and
    deleting a template, and reading and writing the two core emails of the
    users-permissions plugin, whose stored form uses `<% %>` delimiters. */
module DesignerController {
  import opened Common
  import opened LiteralReplace
  import opened TemplateStore

  // Saving a template.

  /** The `templateId` route parameter: the literal "new" or a row id. */
  datatype TemplateParam = New | Existing(id: nat)

  /** The parts of the request body the controller inspects, and the content it writes. */
  datatype SaveRequest = SaveRequest(templateReferenceId: Option<int>, importTemplate: bool, content: Content)

  /** "Template reference ID is already taken". */
  datatype SaveError = ReferenceTaken

  datatype SaveAction = CreateNew | UpdateExisting(id: nat)

  /** First template other than row `id` whose reference id equals `key`. */
  function FindOtherByRef(ts: seq<Template>, key: Option<int>, id: nat): (r: Option<Template>)
    ensures r.None? <==> forall k :: 0 <= k < |ts| && ts[k].id != id ==> ts[k].templateReferenceId != key
    ensures r.Some? ==> r.value in ts && r.value.id != id && r.value.templateReferenceId == key
  {
    var i := FirstWhere(ts, (t: Template) => t.templateReferenceId == key && t.id != id);
    if i.Some? then Some(ts[i.value]) else None
  }

  /** Where an import writes: over the template holding its reference id
      (refused when the URL says "new"), else to a new template. A save that
      is not an import writes where the URL says. */
  function ImportTarget(ts: seq<Template>, param: TemplateParam, req: SaveRequest): Result<TemplateParam, SaveError> {
    if !req.importTemplate then Ok(param)
    else if req.templateReferenceId.None? then Ok(New)
    else
      match FindByRef(ts, req.templateReferenceId)
      case Some(found) => if param == New then Err(ReferenceTaken) else Ok(Existing(found.id))
      case None => Ok(New)
  }

  /** The decision `saveTemplate` takes. */
  function SavePlan(ts: seq<Template>, param: TemplateParam, req: SaveRequest): Result<SaveAction, SaveError> {
    match ImportTarget(ts, param, req)
    case Err(e) => Err(e)
    case Ok(New) =>
      if FindByRef(ts, req.templateReferenceId).Some? then Err(ReferenceTaken) else Ok(CreateNew)
    case Ok(Existing(id)) =>
      if FindOtherByRef(ts, req.templateReferenceId, id).Some? then Err(ReferenceTaken) else Ok(UpdateExisting(id))
  }

  /** `saveTemplate`. A refused save leaves the store as it was; the unique
      index on reference ids holds afterwards in every case. */
  method SaveTemplate(store: Store, templateId: TemplateParam, req: SaveRequest) returns (r: Result<Option<Template>, SaveError>)
    requires store.Valid()
    modifies store
    ensures store.Valid() && UniqueRefs(store.templates)
    ensures store.versions == old(store.versions)
    ensures store.nextVersionId == old(store.nextVersionId) && store.clock == old(store.clock)
    ensures store.nextDocumentId == old(store.nextDocumentId) + (if SavePlan(old(store.templates), templateId, req) == Ok(CreateNew) then 1 else 0)
    ensures store.nextId == old(store.nextId) + (if SavePlan(old(store.templates), templateId, req) == Ok(CreateNew) then 1 else 0)
    ensures var plan := SavePlan(old(store.templates), templateId, req);
      && (plan.Err? ==> r == Err(plan.error) && store.templates == old(store.templates))
      && (plan == Ok(CreateNew) ==>
            r.Ok? && r.value.Some? && store.templates == old(store.templates) + [r.value.value]
            && r.value.value.id == old(store.nextId)
            && r.value.value.templateReferenceId == req.templateReferenceId
            && r.value.value.content == req.content)
      && (plan.Ok? && plan.value.UpdateExisting? ==>
            var i := IndexOfTemplate(old(store.templates), plan.value.id);
            r.Ok? &&
            if i.None? then r.value.None? && store.templates == old(store.templates)
            else
              var u := old(store.templates)[i.value].(templateReferenceId := req.templateReferenceId, content := req.content);
              r.value == Some(u) && store.templates == old(store.templates)[i.value := u])
  {
    var target := templateId;
    if req.importTemplate {
      if req.templateReferenceId.Some? {
        var foundTemplate := FindByRef(store.templates, req.templateReferenceId);
        if foundTemplate.Some? {
          if target == New {
            return Err(ReferenceTaken);
          }
          target := Existing(foundTemplate.value.id);
        } else {
          target := New;
        }
      } else {
        target := New;
      }
    }
    if target == New {
      var existingTemplate := FindByRef(store.templates, req.templateReferenceId);
      if existingTemplate.Some? {
        return Err(ReferenceTaken);
      }
      var t := store.CreateTemplate(req.templateReferenceId, req.content, None);
      r := Ok(Some(t));
    } else {
      var existingTemplate := FindOtherByRef(store.templates, req.templateReferenceId, target.id);
      if existingTemplate.Some? {
        return Err(ReferenceTaken);
      }
      var t := store.UpdateTemplate(target.id, req.templateReferenceId, req.content);
      r := Ok(t);
    }
  }

  /** A new template may not take a reference id some template already has. */
  lemma NewRefusedWhenTaken(ts: seq<Template>, req: SaveRequest, holder: Template)
    requires !req.importTemplate && holder in ts && holder.templateReferenceId == req.templateReferenceId
    ensures SavePlan(ts, New, req) == Err(ReferenceTaken)
  {
  }

  /** An update is refused exactly when another row holds the reference id:
      keeping one's own reference id is allowed. */
  lemma UpdateRefusedOnlyByOthers(ts: seq<Template>, id: nat, req: SaveRequest)
    requires !req.importTemplate
    ensures SavePlan(ts, Existing(id), req) == Err(ReferenceTaken) <==>
      exists t :: t in ts && t.id != id && t.templateReferenceId == req.templateReferenceId
    ensures SavePlan(ts, Existing(id), req).Ok? ==> SavePlan(ts, Existing(id), req) == Ok(UpdateExisting(id))
  {
    if exists t :: t in ts && t.id != id && t.templateReferenceId == req.templateReferenceId {
      var t :| t in ts && t.id != id && t.templateReferenceId == req.templateReferenceId;
      var k :| 0 <= k < |ts| && ts[k] == t;
      assert FindOtherByRef(ts, req.templateReferenceId, id).Some?;
    }
  }

  /** An import whose reference id is held by a template writes over that
      template, unless the URL says "new", which is refused. */
  lemma ImportRedirects(ts: seq<Template>, param: TemplateParam, req: SaveRequest, holder: Template)
    requires UniqueRefs(ts)
    requires req.importTemplate && req.templateReferenceId.Some?
    requires holder in ts && holder.templateReferenceId == req.templateReferenceId
    ensures param == New ==> SavePlan(ts, param, req) == Err(ReferenceTaken)
    ensures param != New ==> SavePlan(ts, param, req) == Ok(UpdateExisting(holder.id))
  {
    var found := FindByRef(ts, req.templateReferenceId).value;
    var i :| 0 <= i < |ts| && ts[i] == found;
    var j :| 0 <= j < |ts| && ts[j] == holder;
    assert ts[i].templateReferenceId == ts[j].templateReferenceId;
    assert i == j;
    if param != New {
      forall k | 0 <= k < |ts| && ts[k].id != holder.id
        ensures ts[k].templateReferenceId != req.templateReferenceId
      {
        if k < j {
          assert ts[k].templateReferenceId.Some? ==> ts[k].templateReferenceId != ts[j].templateReferenceId;
        } else if j < k {
          assert ts[j].templateReferenceId != ts[k].templateReferenceId;
        }
      }
    }
  }

  /** An import whose reference id no template holds creates a template
      whatever the URL says. */
  lemma ImportWithoutHolderCreates(ts: seq<Template>, param: TemplateParam, req: SaveRequest)
    requires req.importTemplate && req.templateReferenceId.Some?
    requires forall t :: t in ts ==> t.templateReferenceId != req.templateReferenceId
    ensures SavePlan(ts, param, req) == Ok(CreateNew)
  {
  }

  /** An import with no reference id is sent to "new" whatever the URL says.
      The create then runs the same uniqueness lookup with an absent
      reference id, which matches the templates without one: the import is
      created exactly when every template has a reference id, and refused
      otherwise. */
  lemma ImportWithoutReference(ts: seq<Template>, param: TemplateParam, req: SaveRequest)
    requires req.importTemplate && req.templateReferenceId.None?
    ensures ImportTarget(ts, param, req) == Ok(New)
    ensures SavePlan(ts, param, req) == Ok(CreateNew) <==> forall t :: t in ts ==> t.templateReferenceId.Some?
    ensures SavePlan(ts, param, req) != Ok(CreateNew) ==> SavePlan(ts, param, req) == Err(ReferenceTaken)
  {
    if exists t :: t in ts && t.templateReferenceId.None? {
      var t :| t in ts && t.templateReferenceId.None?;
      var k :| 0 <= k < |ts| && ts[k] == t;
      assert ts[k].templateReferenceId == req.templateReferenceId;
    }
  }

  // Duplicating a template.

  datatype DuplicateError =
    | NoSourceId     // "No source template Id given"
    | SourceMissing  // the lookup found nothing and the destructuring throws

  /** `duplicateTemplate`: a copy of every stored field except the row id,
      with " copy" after the name and no reference id. The copy keeps the
      source's `documentId`, which the destructuring does not strip. */
  method DuplicateTemplate(store: Store, sourceTemplateId: Option<nat>) returns (r: Result<Template, DuplicateError>)
    requires store.Valid()
    modifies store
    ensures store.Valid()
    ensures store.versions == old(store.versions)
    ensures store.nextVersionId == old(store.nextVersionId) && store.clock == old(store.clock)
    ensures store.nextDocumentId == old(store.nextDocumentId)
    ensures store.nextId == old(store.nextId) + (if r.Ok? then 1 else 0)
    ensures sourceTemplateId.None? ==> r == Err(NoSourceId) && store.templates == old(store.templates)
    ensures sourceTemplateId.Some? && FindTemplate(old(store.templates), sourceTemplateId.value).None? ==>
      r == Err(SourceMissing) && store.templates == old(store.templates)
    ensures sourceTemplateId.Some? && FindTemplate(old(store.templates), sourceTemplateId.value).Some? ==>
      var source := FindTemplate(old(store.templates), sourceTemplateId.value).value;
      && r.Ok? && store.templates == old(store.templates) + [r.value]
      && r.value.id == old(store.nextId) && (forall t :: t in old(store.templates) ==> t.id != r.value.id)
      && r.value.documentId == source.documentId
      && r.value.templateReferenceId.None?
      && r.value.content == source.content.(name := source.content.name + " copy")
  {
    if sourceTemplateId.None? {
      return Err(NoSourceId);
    }
    var found := FindTemplate(store.templates, sourceTemplateId.value);
    if found.None? {
      return Err(SourceMissing);
    }
    var toClone := found.value;
    var copy := store.CreateTemplate(None, toClone.content.(name := toClone.content.name + " copy"),
                                     Some(toClone.documentId));
    r := Ok(copy);
  }

  // Downloading a template.

  datatype DownloadError =
    | DownloadNotFound  // "Template not found"
    | InvalidType       // the type is neither "json" nor "html"

  datatype DownloadFile = DownloadFile(content: string, fileName: string, contentType: string, disposition: string)

  /** The file name a download of template `id` gets. */
  function FileName(id: nat, extension: string): string {
    "template-" + Decimal(id) + "." + extension
  }

  /** `download`. The type defaults to "json"; `stringify` is the
      two-space-indented JSON serialisation. */
  function Download(ts: seq<Template>, id: nat, fileType: Option<string>, stringify: Json -> string): (r: Result<DownloadFile, DownloadError>)
    ensures r == Err(DownloadNotFound) <==> FindTemplate(ts, id).None?
    ensures r == Err(InvalidType) <==>
      FindTemplate(ts, id).Some? && fileType.Some? && fileType.value != "json" && fileType.value != "html"
    ensures r.Ok? ==> r.value.disposition == "attachment; filename=\"" + r.value.fileName + "\""
    ensures r.Ok? && (fileType.None? || fileType.value == "json") ==>
      r.value.content == stringify(FindTemplate(ts, id).value.content.design)
      && r.value.fileName == FileName(id, "json") && r.value.contentType == "application/json"
    ensures r.Ok? && fileType == Some("html") ==>
      r.value.content == FindTemplate(ts, id).value.content.bodyHtml
      && r.value.fileName == FileName(id, "html") && r.value.contentType == "text/html"
  {
    match FindTemplate(ts, id)
    case None => Err(DownloadNotFound)
    case Some(template) =>
      var kind := fileType.GetOr("json");
      if kind == "json" then
        var name := FileName(id, "json");
        Ok(DownloadFile(stringify(template.content.design), name, "application/json",
                        "attachment; filename=\"" + name + "\""))
      else if kind == "html" then
        var name := FileName(id, "html");
        Ok(DownloadFile(template.content.bodyHtml, name, "text/html", "attachment; filename=\"" + name + "\""))
      else Err(InvalidType)
  }

  /** Downloads of different templates get different file names. */
  lemma FileNamesDistinct(a: nat, b: nat, ext: string)
    requires a != b
    ensures FileName(a, ext) != FileName(b, ext)
  {
    var fa, fb := FileName(a, ext), FileName(b, ext);
    if fa == fb {
      var da, db := Decimal(a), Decimal(b);
      assert fa == "template-" + (da + ("." + ext));
      assert fb == "template-" + (db + ("." + ext));
      assert da + ("." + ext) == fa[9..] == db + ("." + ext);
      assert |da| == |db|;
      assert da == (da + ("." + ext))[..|da|];
      assert db == (db + ("." + ext))[..|db|];
      DecimalInjective(a, b);
    }
  }

  // Deleting a template.

  /** "Template reference ID" must be a number of at least 0. */
  predicate DeleteIdValid(templateId: Option<int>) {
    templateId.Some? && templateId.value >= 0
  }

  datatype DeleteError = InvalidTemplateId

  /** `deleteTemplate`: validate the id, then delete the row if there is one. */
  method DeleteTemplate(store: Store, templateId: Option<int>) returns (r: Result<bool, DeleteError>)
    requires store.Valid()
    modifies store
    ensures store.Valid()
    ensures r.Ok? <==> DeleteIdValid(templateId)
    ensures r.Ok? ==> r.value && store.templates == WithoutTemplate(old(store.templates), templateId.value as nat)
    ensures r.Err? ==> store.templates == old(store.templates)
    ensures store.versions == old(store.versions)
    ensures store.nextId == old(store.nextId) && store.nextDocumentId == old(store.nextDocumentId)
    ensures store.nextVersionId == old(store.nextVersionId) && store.clock == old(store.clock)
  {
    if !DeleteIdValid(templateId) {
      return Err(InvalidTemplateId);
    }
    store.DeleteTemplate(templateId.value as nat);
    r := Ok(true);
  }

  // The core emails.

  /** The store slot a core email type is kept under. */
  function CoreEmailKey(coreEmailType: string): (r: Option<string>)
    ensures r == Some("email_confirmation") <==> coreEmailType == "user-address-confirmation"
    ensures r == Some("reset_password") <==> coreEmailType == "reset-password"
    ensures r.Some? ==> r == Some("email_confirmation") || r == Some("reset_password")
  {
    if coreEmailType == "user-address-confirmation" then Some("email_confirmation")
    else if coreEmailType == "reset-password" then Some("reset_password")
    else None
  }

  datatype CoreEmailError =
    | InvalidCoreEmailType  // "No valid core message key"
    | CoreTypeError         // a property read on undefined or null, or `replace` on a non-string

  /** The stored `<% %>` delimiters, literal or HTML-escaped, rewritten to `{{ }}`. */
  function LoadRewrite(s: string): string {
    Rewrite(Rewrite(s, ["<%", "&#x3C;%"], "{{"), ["%>", "%&#x3E;"], "}}")
  }

  /** `{{ }}` rewritten to the stored `<% %>` form. */
  function SaveRewrite(s: string): string {
    Rewrite(Rewrite(s, ["{{"], "<%"), ["}}"], "%>")
  }

  /** After loading, no delimiter of the stored form remains. */
  lemma LoadLeavesNoStoredDelimiters(s: string)
    ensures var t := LoadRewrite(s);
      !Occurs("<%", t) && !Occurs("&#x3C;%", t) && !Occurs("%>", t) && !Occurs("%&#x3E;", t)
  {
    var once := Rewrite(s, ["<%", "&#x3C;%"], "{{");
    var t := Rewrite(once, ["%>", "%&#x3E;"], "}}");
    assert !Occurs("<%", once) by { Removes(s, ["<%", "&#x3C;%"], "{{", "<%"); }
    assert !Occurs("&#x3C;%", once) by { Removes(s, ["<%", "&#x3C;%"], "{{", "&#x3C;%"); }
    assert !Occurs("<%", t) by { Preserves(once, ["%>", "%&#x3E;"], "}}", "<%"); }
    assert !Occurs("&#x3C;%", t) by { Preserves(once, ["%>", "%&#x3E;"], "}}", "&#x3C;%"); }
    assert !Occurs("%>", t) by { Removes(once, ["%>", "%&#x3E;"], "}}", "%>"); }
    assert !Occurs("%&#x3E;", t) by { Removes(once, ["%>", "%&#x3E;"], "}}", "%&#x3E;"); }
  }

  /** After saving, no Mustache delimiter remains. */
  lemma SaveLeavesNoMustache(s: string)
    ensures !Occurs("{{", SaveRewrite(s)) && !Occurs("}}", SaveRewrite(s))
  {
    var once := Rewrite(s, ["{{"], "<%");
    Removes(s, ["{{"], "<%", "{{");
    Preserves(once, ["}}"], "%>", "{{");
    Removes(once, ["}}"], "%>", "}}");
  }

  /** Text in which neither delimiter form can start. */
  predicate Plain(s: string) {
    forall i :: 0 <= i < |s| ==> s[i] != '<' && s[i] != '%' && s[i] != '&'
  }

  /** Saving and loading back gives plain text back unchanged. */
  lemma SaveLoadRoundTrip(s: string)
    requires Plain(s)
    ensures LoadRewrite(SaveRewrite(s)) == s
  {
    var y := Rewrite(s, ["}}"], "%>");
    assert SaveRewrite(s) == Rewrite(y, ["{{"], "<%") by { Commute(s, "{{", "<%", "}}", "%>"); }
    assert '<' !in y by { NoNewChar(s, ["}}"], "%>", '<'); }
    assert '&' !in y by { NoNewChar(s, ["}}"], "%>", '&'); }
    assert Rewrite(Rewrite(y, ["{{"], "<%"), ["<%", "&#x3C;%"], "{{") == y by {
      Inverse(y, "{{", "<%", ["<%", "&#x3C;%"]);
    }
    assert Rewrite(y, ["%>", "%&#x3E;"], "}}") == s by { Inverse(s, "}}", "%>", ["%>", "%&#x3E;"]); }
  }

  /** A one-key object when the property is present, empty when it is not. */
  function Present(k: string, j: Option<Json>): (m: map<string, Json>)
    ensures j.Some? <==> k in m
    ensures m.Keys <= {k}
    ensures j.Some? ==> m[k] == j.value
  {
    if j.Some? then map[k := j.value] else map[]
  }

  /** The part of the view read from the slot's `options`: the sender, the
      raw message, and subject, HTML and text bodies in `{{ }}` form. */
  function LoadOptions(options: Json, htmlToText: string -> string): (r: Result<map<string, Json>, CoreEmailError>)
    ensures r.Ok? ==> r.value.Keys <= {"from", "message", "subject", "bodyHtml", "bodyText"}
    ensures r.Ok? ==> "subject" in r.value && "bodyHtml" in r.value
    ensures r.Ok? ==> r.value["subject"].JStr? && !Occurs("<%", r.value["subject"].s) && !Occurs("%>", r.value["subject"].s)
    ensures r.Ok? ==> r.value["bodyHtml"].JStr? && !Occurs("<%", r.value["bodyHtml"].s) && !Occurs("%>", r.value["bodyHtml"].s)
  {
    var stored := Field(options, "object");
    var message := Field(options, "message");
    if !(stored.Some? && stored.value.JStr? && message.Some? && message.value.JStr?) then Err(CoreTypeError)
    else
      var subject := LoadRewrite(stored.value.s);
      var html := LoadRewrite(message.value.s);
      LoadLeavesNoStoredDelimiters(stored.value.s);
      LoadLeavesNoStoredDelimiters(message.value.s);
      Ok(Present("from", Field(options, "from"))
         + map["message" := message.value, "subject" := JStr(subject), "bodyHtml" := JStr(html),
               "bodyText" := JStr(htmlToText(html))])
  }

  /** `getCoreEmailType`: the view the designer edits, built from the slot
      of the stored email settings. */
  function GetCoreEmailType(email: map<string, Json>, coreEmailType: string,
                            htmlToText: string -> string): (r: Result<map<string, Json>, CoreEmailError>)
    ensures r == Err(InvalidCoreEmailType) <==> CoreEmailKey(coreEmailType).None?
    ensures r.Ok? ==> "coreEmailType" in r.value && r.value["coreEmailType"] == JStr(coreEmailType)
    ensures r.Ok? && "subject" in r.value ==>
      (r.value["subject"].JStr? && !Occurs("<%", r.value["subject"].s) && !Occurs("%>", r.value["subject"].s))
    ensures r.Ok? && "bodyHtml" in r.value ==>
      (r.value["bodyHtml"].JStr? && !Occurs("<%", r.value["bodyHtml"].s) && !Occurs("%>", r.value["bodyHtml"].s))
  {
    match CoreEmailKey(coreEmailType)
    case None => Err(InvalidCoreEmailType)
    case Some(key) =>
      if key !in email || email[key] == JNull then Err(CoreTypeError)
      else
        var data := email[key];
        var tail := map["coreEmailType" := JStr(coreEmailType)] + Present("design", Field(data, "design"));
        var options := Field(data, "options");
        if Truthy(data) && options.Some? && Truthy(options.value) then
          match LoadOptions(options.value, htmlToText)
          case Err(e) => Err(e)
          case Ok(loaded) => Ok(loaded + tail)
        else Ok(tail)
  }

  /** The slot a successful core-email save writes. */
  function SavedSlot(email: map<string, Json>, key: string, message: string, subject: string,
                     design: Option<Json>): Json
  {
    var slot := if key in email then Some(email[key]) else None;
    var oldOptions := if slot.Some? && Truthy(slot.value) then Field(slot.value, "options") else None;
    var saved := Spread(oldOptions)["message" := JStr(SaveRewrite(message))]["object" := JStr(SaveRewrite(subject))];
    var fields := Spread(slot)["options" := JObj(saved)];
    JObj(if design.Some? then fields["design" := design.value] else fields - {"design"})
  }

  /** What `saveCoreEmailType` stores: the slot keeps its other fields and
      its other options; `message` and `object` are replaced by the rewritten
      body and subject, `design` by the request's design. */
  function SaveCore(email: map<string, Json>, coreEmailType: string, message: Option<string>,
                    subject: Option<string>, design: Option<Json>): Result<map<string, Json>, CoreEmailError>
  {
    match CoreEmailKey(coreEmailType)
    case None => Err(InvalidCoreEmailType)
    case Some(key) =>
      if message.None? || subject.None? then Err(CoreTypeError)
      else Ok(email[key := SavedSlot(email, key, message.value, subject.value, design)])
  }

  /** The users-permissions plugin's stored email settings, one slot per core email. */
  class CoreEmailStore {
    var email: map<string, Json>

    constructor (initial: map<string, Json>)
      ensures email == initial
    {
      email := initial;
    }

    /** `saveCoreEmailType`: read the settings, rewrite the slot, write them back. */
    method SaveCoreEmailType(coreEmailType: string, message: Option<string>, subject: Option<string>,
                             design: Option<Json>) returns (r: Result<bool, CoreEmailError>)
      modifies this
      ensures var s := SaveCore(old(email), coreEmailType, message, subject, design);
        && (s.Ok? ==> r == Ok(true) && email == s.value)
        && (s.Err? ==> r == Err(s.error) && email == old(email))
    {
      var pluginStoreEmailKey := CoreEmailKey(coreEmailType);
      if pluginStoreEmailKey.None? {
        return Err(InvalidCoreEmailType);
      }
      var key := pluginStoreEmailKey.value;
      var emailsConfig := email;
      var slot := if key in emailsConfig then Some(emailsConfig[key]) else None;
      var options := if slot.Some? && Truthy(slot.value) then Spread(Field(slot.value, "options")) else map[];
      if message.None? || subject.None? {
        return Err(CoreTypeError);
      }
      options := options["message" := JStr(SaveRewrite(message.value))];
      options := options["object" := JStr(SaveRewrite(subject.value))];
      var fields := Spread(slot)["options" := JObj(options)];
      if design.Some? {
        fields := fields["design" := design.value];
      } else {
        fields := fields - {"design"};
      }
      emailsConfig := emailsConfig[key := JObj(fields)];
      email := emailsConfig;
      r := Ok(true);
    }
  }

  /** Saving a core email touches only its slot, and in the slot only
      `options.message`, `options.object` and `design`. */
  lemma SaveCoreTouchesOnlyItsSlot(email: map<string, Json>, coreEmailType: string, message: Option<string>,
                                   subject: Option<string>, design: Option<Json>)
    requires SaveCore(email, coreEmailType, message, subject, design).Ok?
    ensures var after := SaveCore(email, coreEmailType, message, subject, design).value;
      var key := CoreEmailKey(coreEmailType).value;
      && after.Keys == email.Keys + {key}
      && (forall k :: k in email && k != key ==> after[k] == email[k])
      && after[key].JObj? && "options" in after[key].fields && after[key].fields["options"].JObj?
      && (key in email && email[key].JObj? ==>
            forall f :: f in email[key].fields && f != "options" && f != "design" ==>
              f in after[key].fields && after[key].fields[f] == email[key].fields[f])
      && (key in email && email[key].JObj? && "options" in email[key].fields && email[key].fields["options"].JObj? ==>
            forall o :: o in email[key].fields["options"].fields && o != "message" && o != "object" ==>
              o in after[key].fields["options"].fields
              && after[key].fields["options"].fields[o] == email[key].fields["options"].fields[o])
  {
  }

  /** Stored message and subject never hold `{{` or `}}`. */
  lemma SavedSlotHasNoMustache(email: map<string, Json>, coreEmailType: string, message: string,
                               subject: string, design: Option<Json>)
    requires CoreEmailKey(coreEmailType).Some?
    ensures var after := SaveCore(email, coreEmailType, Some(message), Some(subject), design).value;
      var options := after[CoreEmailKey(coreEmailType).value].fields["options"].fields;
      && options["message"].JStr? && !Occurs("{{", options["message"].s) && !Occurs("}}", options["message"].s)
      && options["object"].JStr? && !Occurs("{{", options["object"].s) && !Occurs("}}", options["object"].s)
  {
    SaveLeavesNoMustache(message);
    SaveLeavesNoMustache(subject);
  }

  /** Loading options whose message and object were just saved gives the
      saved subject and body back, when neither contains `<`, `%` or `&`. */
  lemma LoadSavedOptions(opts: map<string, Json>, message: string, subject: string, htmlToText: string -> string)
    requires Plain(message) && Plain(subject)
    ensures var saved := opts["message" := JStr(SaveRewrite(message))]["object" := JStr(SaveRewrite(subject))];
      var loaded := LoadOptions(JObj(saved), htmlToText);
      && loaded.Ok?
      && loaded.value["subject"] == JStr(subject)
      && loaded.value["bodyHtml"] == JStr(message)
      && "bodyText" in loaded.value && loaded.value["bodyText"] == JStr(htmlToText(message))
  {
    var saved := opts["message" := JStr(SaveRewrite(message))]["object" := JStr(SaveRewrite(subject))];
    assert Field(JObj(saved), "object") == Some(JStr(SaveRewrite(subject)));
    assert Field(JObj(saved), "message") == Some(JStr(SaveRewrite(message)));
    assert LoadRewrite(SaveRewrite(subject)) == subject by { SaveLoadRoundTrip(subject); }
    assert LoadRewrite(SaveRewrite(message)) == message by { SaveLoadRoundTrip(message); }
  }

  lemma SaveCoreWritesSlot(email: map<string, Json>, coreEmailType: string, message: string,
                           subject: string, design: Option<Json>)
    requires CoreEmailKey(coreEmailType).Some?
    ensures var key := CoreEmailKey(coreEmailType).value;
      SaveCore(email, coreEmailType, Some(message), Some(subject), design)
        == Ok(email[key := SavedSlot(email, key, message, subject, design)])
  {
  }

  /** The saved slot's options are the old options with message and object
      replaced; its design is the request's. */
  lemma SavedSlotFields(email: map<string, Json>, key: string, message: string, subject: string,
                        design: Option<Json>)
    ensures var slot := if key in email then Some(email[key]) else None;
      var oldOptions := if slot.Some? && Truthy(slot.value) then Field(slot.value, "options") else None;
      var data := SavedSlot(email, key, message, subject, design);
      && data.JObj?
      && Field(data, "options") == Some(JObj(Spread(oldOptions)["message" := JStr(SaveRewrite(message))]
                                                               ["object" := JStr(SaveRewrite(subject))]))
      && Field(data, "design") == design
  {
  }

  /** The view of a slot whose options load. */
  lemma ViewOfLoadedSlot(email: map<string, Json>, coreEmailType: string, htmlToText: string -> string,
                         options: Json, loaded: map<string, Json>)
    requires CoreEmailKey(coreEmailType).Some?
    requires var key := CoreEmailKey(coreEmailType).value;
      key in email && email[key].JObj? && Field(email[key], "options") == Some(options) && Truthy(options)
    requires LoadOptions(options, htmlToText) == Ok(loaded)
    ensures GetCoreEmailType(email, coreEmailType, htmlToText)
         == Ok(loaded + (map["coreEmailType" := JStr(coreEmailType)]
                         + Present("design", Field(email[CoreEmailKey(coreEmailType).value], "design"))))
  {
  }

  /** The options a core-email save stores in its slot. */
  function SavedOptions(email: map<string, Json>, key: string, message: string, subject: string): map<string, Json> {
    var slot := if key in email then Some(email[key]) else None;
    var oldOptions := if slot.Some? && Truthy(slot.value) then Field(slot.value, "options") else None;
    Spread(oldOptions)["message" := JStr(SaveRewrite(message))]["object" := JStr(SaveRewrite(subject))]
  }

  /** The view of a slot just saved: its loaded options, the type and the design. */
  lemma SavedView(email: map<string, Json>, coreEmailType: string, message: string,
                  subject: string, design: Option<Json>, htmlToText: string -> string)
    requires CoreEmailKey(coreEmailType).Some? && Plain(message) && Plain(subject)
    ensures var key := CoreEmailKey(coreEmailType).value;
      var saved := SavedOptions(email, key, message, subject);
      && LoadOptions(JObj(saved), htmlToText).Ok?
      && GetCoreEmailType(SaveCore(email, coreEmailType, Some(message), Some(subject), design).value,
                          coreEmailType, htmlToText)
         == Ok(LoadOptions(JObj(saved), htmlToText).value
               + (map["coreEmailType" := JStr(coreEmailType)] + Present("design", design)))
  {
    var key := CoreEmailKey(coreEmailType).value;
    var slot := if key in email then Some(email[key]) else None;
    var oldOptions := if slot.Some? && Truthy(slot.value) then Field(slot.value, "options") else None;
    var saved := SavedOptions(email, key, message, subject);
    var after := email[key := SavedSlot(email, key, message, subject, design)];
    SaveCoreWritesSlot(email, coreEmailType, message, subject, design);
    SavedSlotFields(email, key, message, subject, design);
    LoadSavedOptions(Spread(oldOptions), message, subject, htmlToText);
    ViewOfLoadedSlot(after, coreEmailType, htmlToText, JObj(saved), LoadOptions(JObj(saved), htmlToText).value);
  }

  /** The view's subject and bodies are the loaded ones; its design is the slot's. */
  lemma MergedView(loaded: map<string, Json>, coreEmailType: string, design: Option<Json>)
    requires "subject" in loaded && "bodyHtml" in loaded && "bodyText" in loaded
    ensures var view := loaded + (map["coreEmailType" := JStr(coreEmailType)] + Present("design", design));
      && "subject" in view && view["subject"] == loaded["subject"]
      && "bodyHtml" in view && view["bodyHtml"] == loaded["bodyHtml"]
      && "bodyText" in view && view["bodyText"] == loaded["bodyText"]
      && (design.Some? ==> "design" in view && view["design"] == design.value)
  {
    var tail := map["coreEmailType" := JStr(coreEmailType)] + Present("design", design);
    assert tail.Keys <= {"coreEmailType", "design"};
  }

  /** Saving a core email and loading it back gives the saved subject and
      body back, when neither contains `<`, `%` or `&`. */
  lemma CoreEmailRoundTrip(email: map<string, Json>, coreEmailType: string, message: string,
                           subject: string, design: Option<Json>, htmlToText: string -> string)
    requires CoreEmailKey(coreEmailType).Some? && Plain(message) && Plain(subject)
    ensures var after := SaveCore(email, coreEmailType, Some(message), Some(subject), design).value;
      var view := GetCoreEmailType(after, coreEmailType, htmlToText);
      && view.Ok?
      && "subject" in view.value && view.value["subject"] == JStr(subject)
      && "bodyHtml" in view.value && view.value["bodyHtml"] == JStr(message)
      && "bodyText" in view.value && view.value["bodyText"] == JStr(htmlToText(message))
      && (design.Some? ==> "design" in view.value && view.value["design"] == design.value)
  {
    var key := CoreEmailKey(coreEmailType).value;
    var slot := if key in email then Some(email[key]) else None;
    var oldOptions := if slot.Some? && Truthy(slot.value) then Field(slot.value, "options") else None;
    var saved := SavedOptions(email, key, message, subject);
    SavedView(email, coreEmailType, message, subject, design, htmlToText);
    LoadSavedOptions(Spread(oldOptions), message, subject, htmlToText);
    MergedView(LoadOptions(JObj(saved), htmlToText).value, coreEmailType, design);
  }
}
