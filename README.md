# email-designer-5: a verified model of the template, version and core-email logic

This project models the server and admin logic of the Strapi email-designer plugin, `email-designer-5`, and proves properties of that model in Dafny. It covers four parts:

- **Send and compose** (`email.dfy`, module `EmailService`). Sending a stored template by its reference id runs these steps in order:
  - validate the addresses in the mail options;
  - validate the reference id;
  - look the template up;
  - rewrite the legacy `<% %>` delimiters to `{{ }}`;
  - derive a text body from the HTML when the stored text is empty;
  - pick the subject by its fallback chain;
  - render the non-empty attributes with Mustache and layer them over the options.

  `compose` validates no addresses. It checks the reference id, looks the template up, rewrites the delimiters and derives the text body as a send does, then renders only the HTML and text bodies. An unknown reference id is an error there, where a send returns null without sending. The mail provider is a `Mailer` object whose outbox grows by one message per send.
- **Version history** (`version.dfy`, module `VersionService`). The operations work over the template and version tables of `store.dfy` (module `TemplateStore`):
  - list a template's versions newest first;
  - fetch one version;
  - restore a template to a version, after writing a snapshot numbered by count;
  - delete a version.
- **The designer controller** (`designer.dfy`, module `DesignerController`):
  - saving a template, with the import redirect and the reference-id uniqueness checks;
  - duplicating a template;
  - download dispatch and file naming;
  - the delete guard;
  - reading and writing the two core emails of the users-permissions plugin. Their stored form uses `<% %>`, literal or HTML-escaped.
- **Admin utilities** (`helpers.dfy`, module `AdminHelpers`; `translations.dfy`, module `Translations`): `shallowIsEqual`, `prefixPluginTranslations` and `getTranslation`.

Shared definitions:

- `common.dfy` (module `Common`) holds Option, Result, a JSON value type, JavaScript truthiness, property reads, object spread and decimal rendering.
- `rewrite.dfy` (module `LiteralReplace`) models `String.prototype.replace` with a global regular expression whose alternatives are literal strings. Its lemmas say when a rewrite removes a pattern, leaves a string alone, is undone by another rewrite, or commutes with another rewrite.

The template table is a sequence in row-id order, and `findOne` returns its first match. The version table is a sequence in creation order. Its `createdAt` stamp comes from a counter that every insert increases, so "ordered by `createdAt` descending" is the reverse of table order. A version's `templateId` holds the owning template's `documentId`, which is what a restore writes (server/src/services/version.ts:72). The unique index on `templateReferenceId` (server/src/content-types/index.ts:20-25) is part of the store invariant `Store.Valid`. The store's insert and update primitives are only called when they keep it, and the save and duplicate operations are proved to keep it.

Foreign code is passed in as function-typed values and never interpreted:

- Mustache rendering;
- HTML-to-text conversion (130-column wrap);
- HTML-entity decoding;
- the address schema (an unanchored regular expression behind a string schema, so it is not "is an address");
- `JSON.stringify` with a two-space indent.

## Model

| member | source | states |
|---|---|---|
| Common.Decimal | server/src/services/version.ts:81 | a template literal prints a natural number as a non-empty string of digits; one digit exactly for numbers below 10 |
| Common.DecimalValue | server/src/controllers/designer.ts:155 | reading the decimal rendering back gives the number |
| Common.DecimalInjective | server/src/controllers/designer.ts:155 | distinct numbers render to distinct strings |
| LiteralReplace.EmptyIff | server/src/services/email.ts:94-96 | with a non-empty replacement, only the empty string rewrites to the empty string |
| LiteralReplace.Removes | server/src/services/email.ts:94-96 | after a global replace, no alternative of the pattern occurs, when the replacement shares no character with it |
| LiteralReplace.Preserves | server/src/services/email.ts:94-96 | a string absent from the input stays absent, when it shares no character with the replacement |
| LiteralReplace.Identity | server/src/services/email.ts:94-96 | a string in which no alternative occurs is left unchanged |
| LiteralReplace.NoNewChar | server/src/controllers/designer.ts:247-248 | a character in neither the input nor the replacement is not in the output |
| LiteralReplace.Inverse | server/src/controllers/designer.ts:204-205 | rewriting `p` to `r` and then `r` (first alternative) back to `p` is the identity, when no back-alternative can start in the input |
| LiteralReplace.Commute | server/src/controllers/designer.ts:247-248 | two single-pattern rewrites over unrelated characters can be applied in either order |
| TemplateStore.FindTemplate | server/src/services/template.ts:9-11 | `findOne({id})` finds a template exactly when one has that id, and what it finds has that id |
| TemplateStore.FindByRef | server/src/services/email.ts:82 | `findOne({templateReferenceId})` finds a template exactly when one has that reference id |
| TemplateStore.FindVersion | server/src/services/version.ts:24-30 | `findOne({id})` on versions finds a version exactly when one has that id |
| TemplateStore.VersionsOf | server/src/services/version.ts:11-15 | the versions of a document are exactly the table's versions with that owner |
| TemplateStore.WithoutVersion | server/src/services/version.ts:109-113 | deleting a version keeps exactly the versions with other ids |
| TemplateStore.WithoutTemplate | server/src/services/template.ts:41-43 | deleting a template keeps exactly the templates with other ids |
| TemplateStore.WithoutTemplateKeepsIndex | server/src/content-types/index.ts:20-25 | deleting a template keeps row ids ascending and reference ids unique |
| TemplateStore.VersionsOfAppend | server/src/services/version.ts:66-79 | a new version joins its document's versions at the end and no other document's |
| TemplateStore.WithoutVersionAscending | server/src/services/version.ts:109-113 | deleting a version keeps ids and creation stamps ascending |
| TemplateStore.Store.constructor | server/src/content-types/index.ts:20-25 | an empty store satisfies the invariant |
| TemplateStore.Store.CreateTemplate | server/src/services/template.ts:25-27 | insert a row with a fresh id at the end; the row-id counter advances, the document-id counter only when it issued the document id; the unique index still holds |
| TemplateStore.Store.UpdateTemplate | server/src/services/template.ts:33-35 | overwrite one row's reference id and content; nothing when the row is missing; no counter moves; the unique index still holds |
| TemplateStore.Store.UpdateContent | server/src/services/version.ts:90-100 | overwrite only one row's six content fields; nothing when the row is missing; no counter moves |
| TemplateStore.Store.DeleteTemplate | server/src/services/template.ts:41-43 | remove the row with the id; versions and every counter untouched |
| TemplateStore.Store.CreateVersion | server/src/services/version.ts:70-87 | append a version stamped later than every existing one, with a fresh id; the version-id counter and the clock advance by one, the template counters stay |
| TemplateStore.Store.DeleteVersion | server/src/services/version.ts:109-113 | remove the version with the id; templates and every counter untouched |
| EmailService.Subject | server/src/services/email.ts:102-107 | the subject is the caller's if non-empty, else the decoded stored one if that is non-empty, else "No Subject"; never empty |
| EmailService.ValidateAddresses | server/src/services/email.ts:57-71 | succeeds exactly when every option outside attachment/attachments/headers passes the schema, element by element for arrays |
| EmailService.RenderAttributes | server/src/services/email.ts:112-118 | the accumulated object holds exactly the listed attributes with non-empty values, each rendered |
| EmailService.Mailer.Send | server/src/services/email.ts:119 | the provider receives exactly one more message |
| EmailService.SendTemplatedEmail | server/src/services/email.ts:49-120 | the result is the send plan: an error, null for an unknown reference id, or the message; the outbox grows by that message only |
| EmailService.Compose | server/src/services/email.ts:126-163 | the result is the compose plan: an error, including for an unknown reference id, or the two composed bodies |
| EmailService.LegacyLeavesNoDelimiters | server/src/services/email.ts:94-96 | after the legacy rewrite neither `<%` nor `%>` occurs |
| EmailService.LegacyIdempotent | server/src/services/email.ts:94-96 | applying the legacy rewrite twice equals applying it once |
| EmailService.LegacyEmptyIff | server/src/services/email.ts:94-98 | the legacy rewrite is empty exactly when its input is |
| EmailService.TextFallback | server/src/services/email.ts:98-100 | the text body is derived from the HTML exactly when the stored text is empty and the stored HTML is not |
| EmailService.AddressCheckFirst | server/src/services/email.ts:57-82 | a rejected address fails the send whatever the arguments and whatever the store holds |
| EmailService.ReferenceCheckBeforeLookup | server/src/services/email.ts:74 | a missing or non-positive reference id fails send and compose whatever the store holds |
| EmailService.UnknownReference | server/src/services/email.ts:84-87 | for an unknown reference id, send returns null without sending while compose fails |
| EmailService.MergeRendered | server/src/services/email.ts:112-119 | the message keeps every option key, overrides only subject/html/text, and always carries a rendered subject |
| EmailService.SentMessageShape | server/src/services/email.ts:88-119 | a found template yields a message whose keys, passthrough values and rendered attributes are those of the stored template |
| EmailService.ComposeBodies | server/src/services/email.ts:145-162 | compose returns rendered html and text, each absent when empty, and no subject |
| VersionService.ActorOf | server/src/controllers/version.ts:46 | the actor is the signed-in user when there is one with a truthy id, "system" otherwise |
| VersionService.RestoreReason | server/src/services/version.ts:81 | the snapshot's change reason starts with "Restored from version " |
| VersionService.Reverse | server/src/services/version.ts:13 | newest-first order is the reverse of table order, with the same elements |
| VersionService.VersionsOfAscending | server/src/services/version.ts:11-15 | a document's versions keep the table's ascending stamps |
| VersionService.GetVersionHistory | server/src/services/version.ts:10-17 | exactly the versions of the template's document, with strictly decreasing `createdAt` |
| VersionService.GetVersion | server/src/services/version.ts:24-30 | the version with the id, when there is one |
| VersionService.RestoreVersion | server/src/services/version.ts:40-103 | the tables change as the restore plan says; every failure leaves them and the counters as they were; a success advances the version-id counter and the clock by one; the invariant holds |
| VersionService.DeleteVersion | server/src/services/version.ts:109-113 | only the named version goes; every other version is kept with its number |
| VersionService.RestoreFailures | server/src/services/version.ts:42-63 | the failures come in order: version missing, template missing, version of another document |
| VersionService.RestoreSnapshot | server/src/services/version.ts:66-87 | exactly one version is added: the pre-restore content, numbered count + 1, with the given actor and the "Restored from version N" reason and summary |
| VersionService.RestoreOverwrite | server/src/services/version.ts:90-100 | the template takes the version's content and keeps its id, document id and reference id; other templates are untouched |
| VersionService.FirstWhereSame | server/src/services/version.ts:90-100 | overwriting content does not move a row-id lookup |
| VersionService.FindAppended | server/src/services/version.ts:70-87 | the snapshot just written is found by its id |
| VersionService.RestoreUndo | server/src/services/version.ts:70-100 | restoring to a version and then to the snapshot that restore wrote gives back the original template table |
| VersionService.DeleteLowersNextNumber | server/src/services/version.ts:66-79 | deleting one of a document's versions lowers its next snapshot number by one |
| VersionService.WithoutVersionNoMatch | server/src/services/version.ts:109-113 | deleting an id no version has changes nothing |
| VersionService.NumberReusedAfterDelete | server/src/services/version.ts:66-79 | after deleting version 1 of two, the next snapshot gets number 2, which version 2 still has |
| DesignerController.FindOtherByRef | server/src/controllers/designer.ts:91-97 | finds a template other than the given row holding the reference id, exactly when one exists |
| DesignerController.SaveTemplate | server/src/controllers/designer.ts:54-113 | refuses, creates or updates as the save plan says; a refusal changes nothing; the unique index holds afterwards |
| DesignerController.NewRefusedWhenTaken | server/src/controllers/designer.ts:79-86 | a new template may not take a reference id already held |
| DesignerController.UpdateRefusedOnlyByOthers | server/src/controllers/designer.ts:88-100 | an update is refused exactly when another row holds the reference id |
| DesignerController.ImportRedirects | server/src/controllers/designer.ts:59-69 | an import whose reference id is held writes over the holder, or is refused when the URL says "new" |
| DesignerController.ImportWithoutReference | server/src/controllers/designer.ts:73-86 | an import with no reference id goes to "new" whatever the URL says; it is created exactly when every template has a reference id (the absent id matches those without one), and refused otherwise |
| DesignerController.ImportWithoutHolderCreates | server/src/controllers/designer.ts:70-75 | an import whose reference id nobody holds creates a template |
| DesignerController.DuplicateTemplate | server/src/controllers/designer.ts:120-137 | no id: bad request; missing source: throws; otherwise a new row with the source's content, name + " copy", no reference id |
| DesignerController.Download | server/src/controllers/designer.ts:142-167 | not found before the type check; json (the default) gives the design as `template-<id>.json`; html gives the body as `template-<id>.html`; any other type is a bad request; the disposition names the file |
| DesignerController.FileNamesDistinct | server/src/controllers/designer.ts:155-160 | different templates download under different file names |
| DesignerController.DeleteTemplate | server/src/controllers/designer.ts:43-47 | deletes exactly when the id is a number of at least 0; otherwise nothing changes |
| DesignerController.CoreEmailKey | server/src/controllers/designer.ts:185-189 | only the two core email types are accepted, mapped to "email_confirmation" and "reset_password" |
| DesignerController.LoadLeavesNoStoredDelimiters | server/src/controllers/designer.ts:204-205 | after loading, none of `<%`, `&#x3C;%`, `%>`, `%&#x3E;` occurs |
| DesignerController.SaveLeavesNoMustache | server/src/controllers/designer.ts:247-248 | after saving, neither `{{` nor `}}` occurs |
| DesignerController.SaveLoadRoundTrip | server/src/controllers/designer.ts:204-205 | for text without `<`, `%` or `&`, loading what saving wrote gives it back |
| DesignerController.Present | server/src/controllers/designer.ts:202 | a spread property is in the view exactly when it is present |
| DesignerController.LoadOptions | server/src/controllers/designer.ts:199-213 | the view's subject and HTML body are strings with no `<%` or `%>` |
| DesignerController.GetCoreEmailType | server/src/controllers/designer.ts:183-219 | an unknown type is a bad request; the view names its type and its subject and HTML hold no `<%` or `%>` |
| DesignerController.CoreEmailStore.constructor | server/src/controllers/designer.ts:240 | the settings start as read |
| DesignerController.CoreEmailStore.SaveCoreEmailType | server/src/controllers/designer.ts:226-258 | the settings become what the save plan says; a refusal leaves them unchanged |
| DesignerController.SaveCoreTouchesOnlyItsSlot | server/src/controllers/designer.ts:243-253 | a save changes only its slot, and in it only options.message, options.object and design |
| DesignerController.SavedSlotHasNoMustache | server/src/controllers/designer.ts:247-248 | the stored message and object hold no `{{` or `}}` |
| DesignerController.SavedSlotFields | server/src/controllers/designer.ts:243-253 | the saved slot's options are the old ones with message and object replaced, and its design is the request's |
| DesignerController.LoadSavedOptions | server/src/controllers/designer.ts:204-207 | options just saved load back to the saved subject and body |
| DesignerController.CoreEmailRoundTrip | server/src/controllers/designer.ts:199-255 | saving a core email and loading it gives back its subject, body, derived text and design |
| AdminHelpers.ShallowIsEqual | admin/src/utils/helpers.ts:32-47 | true exactly when the key counts agree and every key of the first object holds a strictly equal value in the second |
| AdminHelpers.NotSymmetric | admin/src/utils/helpers.ts:39-40 | `{a: undefined}` equals `{b: 1}` but not the other way round |
| AdminHelpers.DocumentedExamples | admin/src/utils/helpers.ts:16-30 | the three documented examples give true, false, false |
| AdminHelpers.SameKeysWithoutUndefined | admin/src/utils/helpers.ts:33-46 | without `undefined` values in the first object, equal objects have the same keys |
| AdminHelpers.ReflexiveIffNoNaN | admin/src/utils/helpers.ts:40 | an object equals itself exactly when it holds no NaN |
| Translations.Prefix | admin/src/utils/prefixPluginTranslations.ts:31 | a namespaced key is the plugin id, a dot, then the key |
| Translations.PrefixInjective | admin/src/utils/prefixPluginTranslations.ts:30-33 | under one plugin id, distinct keys give distinct namespaced keys |
| Translations.GetTranslation | admin/src/utils/getTranslation.ts:6 | the lookup key is "email-designer-5." followed by the id, for any id |
| Translations.GetTranslationInjective | admin/src/utils/getTranslation.ts:6 | distinct ids give distinct lookup keys |
| Translations.PrefixPluginTranslations | admin/src/utils/prefixPluginTranslations.ts:26-34 | an empty plugin id is a TypeError; otherwise every entry, and nothing else, under its namespaced key, with as many keys as the input |
| Translations.LookupFindsRegistered | admin/src/index.ts:72 | `getTranslation(k)` is a registered key exactly when `k` is in the translation file, and maps to its message |

## Left out

- Logging (`strapi.log`, the development-mode `console.log` in `shallowIsEqual`), HTTP status handling beyond the error kind, and response envelopes such as `{ removed: true }` and `{ message: "Saved" }`.
- Mustache, HTML-to-text, HTML-entity decoding, the address regular expression and `JSON.stringify` are parameters, not models.
- Concurrency: operations are sequential atomic steps. The count-then-create race in a restore and the check-then-act uniqueness tests in a save are not modelled.
- Floating-point numbers: reference ids, row ids and JSON numbers are integers, and yup's number casting from strings is not modelled.
- `getTemplates`, `getTemplate`, the version controller and the template service are thin forwarding to the store. They appear only as the store primitives and lookups.
- Template timestamps (`createdAt`/`updatedAt` on templates) and the ORM's `populate` are not modelled. Version stamps are a counter, so two versions never share a stamp.
- TemplateStore.FindByRef: a lookup whose reference id is absent matches templates with no reference id, as a `null` filter does. What the ORM does with an `undefined` filter value depends on the host, so the model makes this choice.
- DesignerController.SaveTemplate: the request body is taken as complete. A partial body, which the ORM would merge into the row, is not modelled, and neither are keys other than the reference id and the six content fields.
- DesignerController.DuplicateTemplate: the copy keeps the source's `documentId`, because the destructuring strips only `__v`, `_id`, `id`, `updatedAt` and `createdAt`. Whether the ORM then issues a fresh one is not modelled. In the model the copy shares the source's version history.
- DesignerController.GetCoreEmailType: the users-permissions email settings are an object. A `null` settings value, which would throw, is not modelled. Spreading a string or an array copies no properties here, whereas JavaScript copies its indices.
- VersionService.GetVersionHistory: the history and the restore's version count filter by the template's row id. The model resolves that id to the template's `documentId`, the value the version rows store, so both select the versions of the template's document.
- VersionService.RestoreVersion: error messages are kinds, not the formatted strings. The `reason` argument is accepted and, as in the source, never used.
- EmailService.ValidateAddresses: an option present with the value `undefined` cannot be written in the model, because `Json` has no `undefined`, so it is read as an absent key and the send goes ahead. In the source the address schema runs on every entry and rejects `undefined`, so such a send fails.
- DesignerController.Download: the route id is taken as a canonical number. The source builds the file name from the route parameter as written, so `/download/007` finds row 7 but is named `template-007.json`, where the model says `template-7.json`.
- AdminHelpers.ShallowIsEqual: property reads do not follow the prototype chain. The source reads `object2[key]` through it, so a key such as `toString` missing from the second object reads as the inherited function, not `undefined`; the model reads `undefined` there.
- EmailService.SendTemplatedEmail: stored bodies and subjects are strings. A `null` column, on which `replace` would throw, is not modelled. The provider's own result is not modelled: the model returns the message handed to it.
- server/src/services/version.ts imports `pluginVersionUID` from server/src/services/email.ts, which does not export it. The version table is modelled directly.
- The React pages, the admin HTTP clients and the reference-id parsing in the designer page are not part of this model.
